/** The bot: the four stores, the login sessions, each user's conversation
    data and open conversations, and the handlers of the modelled
    conversations. Every handler re-reads the stores it needs and writes
    back what it changes, so the stores are fields of one object and each
    handler updates them in place (meal_bot.py:29, 35-66, 132-138, 173-215,
    285-351, 387-514, 517-583, 585-855, 876-940, 969-1011). */
module Bot {
  import opened Wrappers
  import opened PyText
  import opened Layout
  import opened Sheet
  import opened Catalog
  import opened Registry
  import opened Tokens
  import opened Conversation

  /** `context.user_data`: what one user's conversations have collected. An
      absent key is None. (`edit_day` is written but never read.) */
  datatype UserData = UserData(
    loginUsername: Option<string>,
    newUsername: Option<string>,
    newFullname: Option<string>,
    newPassword: Option<string>,
    selectedWeek: Option<string>,
    selectedDay: Option<string>,
    editUsername: Option<string>,
    editWeek: Option<string>)

  /** `context.user_data.clear()`. */
  const NoData: UserData := UserData(None, None, None, None, None, None, None, None)

  /** A new password waiting for confirmation passed the length check, and
      a username waiting to be created is not the administrator's. */
  predicate DataOk(d: UserData) {
    && (d.newPassword.Some? ==> |d.newPassword.value| >= 4)
    && (d.newUsername.Some? ==> d.newUsername.value != AdminName)
  }

  /** User data as the handlers leave it. */
  type CheckedData = d: UserData | DataOk(d) witness NoData

  /** The user whose meals the edit handlers change: `edit_username`, or the
      sender's own username when that is missing or empty and the sender
      is logged in. */
  function EditTarget(d: UserData, sessions: Sessions, tid: int): Option<string> {
    if !Truthy(d.editUsername) && tid in sessions then Some(sessions[tid].username) else d.editUsername
  }

  /** The actor of a change-log entry for a meal change. */
  function LogActor(sessions: Sessions, tid: int, fullName: string): string {
    if IsAdminSession(sessions, tid) then sessions[tid].fullName + " (ویرایش برای " + fullName + ")"
    else fullName
  }

  /** An administrator's entry names the administrator first and then the
      user whose meal changed; anyone else's entry is that user's name. */
  lemma LogActorNamesBoth(sessions: Sessions, tid: int, fullName: string)
    ensures IsAdminSession(sessions, tid) ==>
      StartsWith(LogActor(sessions, tid, fullName), sessions[tid].fullName)
      && Occurs(LogActor(sessions, tid, fullName), fullName)
    ensures !IsAdminSession(sessions, tid) ==> LogActor(sessions, tid, fullName) == fullName
  {
    if IsAdminSession(sessions, tid) {
      var a := sessions[tid].fullName;
      var mid := " (ویرایش برای ";
      var e := LogActor(sessions, tid, fullName);
      assert e == a + mid + fullName + ")";
      assert e[..|a|] == a;
      assert e[|a| + |mid|..|a| + |mid| + |fullName|] == fullName;
      assert OccursAt(e, fullName, |a| + |mid|);
    }
  }

  /** `2 + (int(week)-1)*10 + (int(day)-1)*2`, plus one for a dessert; `int`
      of the day is taken first, and either failing raises ValueError. */
  function RequestColumn(week: string, day: string, kind: Kind): (r: Result<int>)
    ensures r.Ok? <==> ParseInt(week).Ok? && ParseInt(day).Ok?
    ensures r.Err? ==> r.error == ValueError
    ensures r.Ok? ==> r.value == SlotColumn(ParseInt(week).value, ParseInt(day).value, kind)
  {
    match ParseInt(day)
    case Err(e) => Err(e)
    case Ok(d) =>
      match ParseInt(week)
      case Err(e) => Err(e)
      case Ok(w) => Ok(SlotColumn(w, d, kind))
  }

  /** For a week and a day that name a catalog entry, the column is the
      slot's own cell, inside the 2..41 block. */
  lemma RequestColumnOfCatalogKey(week: string, day: string, kind: Kind)
    requires (week, day) in CatalogKeys()
    ensures RequestColumn(week, day, kind).Ok?
    ensures ValidSlot(ParseInt(week).value, ParseInt(day).value)
    ensures 2 <= RequestColumn(week, day, kind).value <= 41
  {
    CatalogKeyIsSlot(week, day);
    SlotColumnInRange(ParseInt(week).value, ParseInt(day).value, kind);
  }

  // ------------------------------------------------------------ handlers that change nothing

  /** `add_user_start`, `manage_menu_start`, `edit_user_meals_start`: the
      conversation starts only for a sender with an administrator session. */
  function AdminEntry(sessions: Sessions, tid: int, next: State): (out: Outcome)
    ensures out == Goto(next) <==> IsAdminSession(sessions, tid)
    ensures !IsAdminSession(sessions, tid) ==> out == End
  {
    if IsAdminSession(sessions, tid) then Goto(next) else End
  }

  /** `change_password_start`: the conversation starts only for a logged-in sender. */
  function ChangePasswordStart(sessions: Sessions, tid: int): (out: Outcome)
    ensures out == Goto(State.ChangePasswordCurrent) <==> tid in sessions
    ensures tid !in sessions ==> out == End
  {
    if tid in sessions then Goto(State.ChangePasswordCurrent) else End
  }

  /** `delete_menu_item`: only lists the items to delete, so it changes no
      store; a missing list or an empty one both stay in SELECT_DAY. */
  function DeleteMenuItem(menu: Menus, data: string): (out: Outcome)
    ensures ParseDelete(data).Err? ==> out == Crash(IndexError)
    ensures ParseDelete(data).Ok? ==>
      var q := ParseDelete(data).value;
      out == (if (q.week, q.day) in menu then Goto(SelectDay) else Crash(KeyError))
  {
    match ParseDelete(data)
    case Err(e) => Crash(e)
    case Ok(q) => if (q.week, q.day) in menu then Goto(SelectDay) else Crash(KeyError)
  }

  /** `change_password_current`: goes on to the new password only when the
      text hashes to the stored password of the logged-in user. */
  function CheckCurrentPassword(users: Users, sessions: Sessions, hash: string -> string, tid: int, text: string): (out: Outcome)
    ensures out == Goto(State.ChangePasswordNew) <==> tid in sessions && Authenticates(users, hash, sessions[tid].username, text)
    ensures tid !in sessions ==> out == Crash(KeyError)
    ensures tid in sessions && sessions[tid].username in users && !Authenticates(users, hash, sessions[tid].username, text)
      ==> out == Goto(State.ChangePasswordCurrent)
  {
    if tid !in sessions then Crash(KeyError)
    else if sessions[tid].username !in users then Crash(KeyError)
    else if users[sessions[tid].username].password != hash(text) then Goto(State.ChangePasswordCurrent)
    else Goto(State.ChangePasswordNew)
  }

  /** The catalog after `handle_menu_message` appends the item of an add
      request to a day: the request's list gains the item name at its end,
      the other list and every other day are kept. A missing day raises
      KeyError. */
  function AddItem(menu: Menus, key: (string, string), t: string): (r: Result<Menus>)
    ensures key !in menu <==> r.Err?
    ensures r.Err? ==> r.error == KeyError
    ensures r.Ok? ==>
      var kind := AddKind(t);
      && r.value.Keys == menu.Keys
      && (forall k :: k in menu && k != key ==> r.value[k] == menu[k])
      && (forall kd :: kd != kind ==> Items(r.value[key], kd) == Items(menu[key], kd))
      && Items(r.value[key], kind) == Items(menu[key], kind) + [ItemName(t, kind)]
  {
    if key !in menu then Err(KeyError)
    else
      var kind := AddKind(t);
      Ok(menu[key := WithItems(menu[key], kind, Items(menu[key], kind) + [ItemName(t, kind)])])
  }

  /** The catalog after `confirm_delete`'s `pop`: the chosen list loses the
      item at the index (counted from the end when negative) and keeps the
      others in order; the other list and every other day are kept. A
      missing day raises KeyError, an index outside the list IndexError. */
  function PopItem(menu: Menus, q: ConfirmRequest): (r: Result<Menus>)
    ensures (q.week, q.day) !in menu ==> r == Err(KeyError)
    ensures (q.week, q.day) in menu ==>
      var items := Items(menu[(q.week, q.day)], q.kind);
      && (r.Ok? <==> -(|items| as int) <= q.index < |items|)
      && (r.Err? ==> r.error == IndexError)
      && (r.Ok? ==>
        var i := PopIndex(|items|, q.index).value;
        && r.value.Keys == menu.Keys
        && (forall k :: k in menu && k != (q.week, q.day) ==> r.value[k] == menu[k])
        && var dm := r.value[(q.week, q.day)];
        && (forall kd :: kd != q.kind ==> Items(dm, kd) == Items(menu[(q.week, q.day)], kd))
        && Items(dm, q.kind) == RemoveAt(items, i)
        && multiset(Items(dm, q.kind)) + multiset{items[i]} == multiset(items))
  {
    var key := (q.week, q.day);
    if key !in menu then Err(KeyError)
    else
      var dm := menu[key];
      var items := Items(dm, q.kind);
      match PopIndex(|items|, q.index)
      case Err(e) => Err(e)
      case Ok(i) =>
        RemoveAtMultiset(items, i);
        Ok(menu[key := WithItems(dm, q.kind, RemoveAt(items, i))])
  }

  /** The cell `set_user_meal_dessert` writes: the first row holding the
      user's full name and the slot's column. `int` of the day or the week
      failing raises ValueError; no row gives `row=None`, which `ws.cell`
      refuses with TypeError; a column below 1 raises ValueError. */
  function MealCell(g: Grid, fullName: string, q: SetRequest): (r: Result<(int, int)>)
    requires WellFormed(g)
    ensures var col := RequestColumn(q.week, q.day, q.kind);
      && (r.Ok? <==> col.Ok? && UserRow(g, fullName).Some? && col.value >= 1)
      && (r.Err? ==> r.error == (if col.Err? then ValueError else if UserRow(g, fullName).None? then TypeError else ValueError))
      && (r.Ok? ==> IsUserRow(g, fullName, r.value.0) && r.value.1 == col.value && r.value.1 >= 1)
  {
    UserRowCorrect(g, fullName);
    match RequestColumn(q.week, q.day, q.kind)
    case Err(e) => Err(e)
    case Ok(col) =>
      match UserRow(g, fullName)
      case None => Err(TypeError)
      case Some(row) => if col < 1 then Err(ValueError) else Ok((row, col))
  }

  /** For a week and a day of the catalog and a user with a row, the cell
      exists and lies in that user's row, inside the 2..41 block. */
  lemma MealCellOfCatalogKey(g: Grid, fullName: string, q: SetRequest)
    requires WellFormed(g) && (q.week, q.day) in CatalogKeys()
    requires exists row :: IsUserRow(g, fullName, row)
    ensures MealCell(g, fullName, q).Ok?
    ensures IsUserRow(g, fullName, MealCell(g, fullName, q).value.0)
    ensures 2 <= MealCell(g, fullName, q).value.1 <= 41
  {
    RequestColumnOfCatalogKey(q.week, q.day, q.kind);
    UserRowCorrect(g, fullName);
  }

  /** Every session belongs to a registered user, and only sessions of the
      administrator account are administrator sessions. */
  ghost predicate SessionsOk(users: Users, sessions: Sessions) {
    && (forall t :: t in sessions ==> sessions[t].username in users)
    && (forall t :: t in sessions && sessions[t].isAdmin ==> sessions[t].username == AdminName)
  }

  ghost predicate AllActiveOk(conv: map<int, Active>) {
    forall t :: t in conv ==> ValidActive(conv[t])
  }

  // ------------------------------------------------------------ the bot

  class MealBot {
    /** `hash_password`: SHA-256 as a fixed function of the password. */
    const hash: string -> string
    var users: Users
    var menu: Menus
    var sheet: Grid
    /** The change log, one actor per entry. */
    var log: seq<string>
    var sessions: Sessions
    var userData: map<int, CheckedData>
    var conv: map<int, Active>

    /** What every handler keeps: the catalog has exactly its twenty days,
        the sheet is a saved sheet, the seeded administrator is the only
        administrator, every session belongs to a registered user (so only
        the administrator's sessions are administrator sessions), and every
        open conversation is in one of its own states. That pending user data
        passed its checks is kept by its type. */
    ghost predicate Valid()
      reads this`menu, this`sheet, this`users, this`sessions, this`conv
    {
      && menu.Keys == CatalogKeys()
      && WellFormed(sheet)
      && AdminOnlyTheSeed(users)
      && SessionsOk(users, sessions)
      && AllActiveOk(conv)
    }

    function DataOf(tid: int): CheckedData
      reads this`userData
    {
      if tid in userData then userData[tid] else NoData
    }

    function ActiveOf(tid: int): Active
      reads this`conv
    {
      if tid in conv then conv[tid] else map[]
    }

    /** `initialize_files` on a fresh installation: the seeded registry, an
        empty catalog, an empty log and the header-only sheet. */
    constructor (hash: string -> string)
      ensures Valid()
      ensures this.hash == hash && users == InitialUsers(hash) && menu == InitialMenu()
      ensures log == [] && sessions == map[] && userData == map[] && conv == map[]
      ensures sheet.maxRow == 2 && forall k :: k in sheet.cells <==> IsHeaderCell(k.0, k.1)
      ensures forall w, d :: ValidSlot(w, d) ==> HasDayHeader(sheet.cells, w, d)
    {
      var g := NewSheet();
      this.hash := hash;
      users := InitialUsers(hash);
      menu := InitialMenu();
      sheet := g;
      log := [];
      sessions := map[];
      userData := map[];
      conv := map[];
    }

    // ---------------------------------------------------------- login

    /** `login_username`: the stripped text is kept as the username to check. */
    method LoginUsername(tid: int, text: string) returns (out: Outcome)
      requires Valid()
      modifies this`userData
      ensures Valid()
      ensures out == Goto(State.LoginPassword)
      ensures userData == old(userData)[tid := old(DataOf(tid)).(loginUsername := Some(Strip(text)))]
    {
      userData := userData[tid := DataOf(tid).(loginUsername := Some(Strip(text)))];
      out := Goto(State.LoginPassword);
    }

    /** `login_password`: on a match the user's record is bound to the
        sender's chat account and a session with the user's role and name
        is opened; otherwise nothing changes and the username is asked again. */
    method LoginPassword(tid: int, password: string) returns (out: Outcome)
      requires Valid()
      modifies this`users, this`sessions
      ensures Valid()
      ensures old(DataOf(tid)).loginUsername.None? ==>
        out == Crash(KeyError) && users == old(users) && sessions == old(sessions)
      ensures old(DataOf(tid)).loginUsername.Some? ==>
        var u := old(DataOf(tid)).loginUsername.value;
        if Authenticates(old(users), hash, u, password) then
          && out == End
          && users == old(users)[u := old(users)[u].(telegramId := Some(tid))]
          && sessions == old(sessions)[tid := SessionFor(u, old(users)[u])]
        else
          out == Goto(State.LoginUsername) && users == old(users) && sessions == old(sessions)
    {
      var d := DataOf(tid);
      if d.loginUsername.None? {
        return Crash(KeyError);
      }
      var u := d.loginUsername.value;
      if Authenticates(users, hash, u, password) {
        var r := users[u];
        users := users[u := r.(telegramId := Some(tid))];
        sessions := sessions[tid := SessionFor(u, r)];
        out := End;
      } else {
        out := Goto(State.LoginUsername);
      }
    }

    // ---------------------------------------------------------- adding a user

    /** `add_user_username`: a name already registered is refused and asked
        again; any other stripped name is kept. */
    method AddUserUsername(tid: int, text: string) returns (out: Outcome)
      requires Valid()
      modifies this`userData
      ensures Valid()
      ensures Strip(text) in users ==> out == Goto(State.AddUserUsername) && userData == old(userData)
      ensures Strip(text) !in users ==>
        && out == Goto(State.AddUserFullname)
        && userData == old(userData)[tid := old(DataOf(tid)).(newUsername := Some(Strip(text)))]
    {
      var username := Strip(text);
      if username in users {
        return Goto(State.AddUserUsername);
      }
      userData := userData[tid := DataOf(tid).(newUsername := Some(username))];
      out := Goto(State.AddUserFullname);
    }

    /** `add_user_fullname`: the stripped text is kept as the full name. */
    method AddUserFullname(tid: int, text: string) returns (out: Outcome)
      requires Valid()
      modifies this`userData
      ensures Valid()
      ensures out == Goto(State.AddUserPassword)
      ensures userData == old(userData)[tid := old(DataOf(tid)).(newFullname := Some(Strip(text)))]
    {
      userData := userData[tid := DataOf(tid).(newFullname := Some(Strip(text)))];
      out := Goto(State.AddUserPassword);
    }

    /** `add_user_password`: a password shorter than 4 is asked again with
        nothing stored; otherwise the user is stored as a non-administrator
        without a chat account, the full name is written into the first
        empty name cell from row 3 on, and the collected data is cleared. */
    method AddUserPassword(tid: int, password: string) returns (out: Outcome)
      requires Valid()
      modifies this`users, this`sheet, this`userData
      ensures Valid()
      ensures |password| < 4 ==>
        out == Goto(State.AddUserPassword) && users == old(users) && sheet == old(sheet) && userData == old(userData)
      ensures |password| >= 4 && (old(DataOf(tid)).newUsername.None? || old(DataOf(tid)).newFullname.None?) ==>
        out == Crash(KeyError) && users == old(users) && sheet == old(sheet) && userData == old(userData)
      ensures |password| >= 4 && old(DataOf(tid)).newUsername.Some? && old(DataOf(tid)).newFullname.Some? ==>
        var name := old(DataOf(tid)).newUsername.value;
        var full := old(DataOf(tid)).newFullname.value;
        && out == End
        && users == old(users)[name := NewUser(hash, password, full)]
        && sheet == Write(old(sheet), FirstEmpty(old(sheet)), 1, full)
        && userData == old(userData)[tid := NoData]
    {
      if |password| < 4 {
        return Goto(State.AddUserPassword);
      }
      var d := DataOf(tid);
      if d.newUsername.None? || d.newFullname.None? {
        return Crash(KeyError);
      }
      var name := d.newUsername.value;
      var full := d.newFullname.value;
      users := users[name := NewUser(hash, password, full)];
      var row := FirstEmptyRow(sheet);
      sheet := Write(sheet, row, 1, full);
      userData := userData[tid := NoData];
      out := End;
    }

    // ---------------------------------------------------------- the catalog

    /** `menu_select_week`: keeps the week of the pressed button. */
    method MenuSelectWeek(tid: int, data: string) returns (out: Outcome)
      requires Valid()
      modifies this`userData
      ensures Valid()
      ensures data == "menu_cancel" ==> out == End && userData == old(userData)
      ensures data != "menu_cancel" && ThirdPiece(data).Err? ==> out == Crash(IndexError) && userData == old(userData)
      ensures data != "menu_cancel" && ThirdPiece(data).Ok? ==>
        && out == Goto(SelectDay)
        && userData == old(userData)[tid := old(DataOf(tid)).(selectedWeek := Some(ThirdPiece(data).value))]
    {
      if data == "menu_cancel" {
        return End;
      }
      match ThirdPiece(data)
      case Err(e) =>
        out := Crash(e);
      case Ok(week) =>
        userData := userData[tid := DataOf(tid).(selectedWeek := Some(week))];
        out := Goto(SelectDay);
    }

    /** `menu_select_day`: keeps the day of the pressed button and shows that
        day's lists. Its `menu_back` branch re-runs `manage_menu_start`,
        which replies to a message a button press does not carry. */
    method MenuSelectDay(tid: int, data: string) returns (out: Outcome)
      requires Valid()
      modifies this`userData
      ensures Valid()
      ensures data == "menu_back" ==> out == Crash(AttributeError) && userData == old(userData)
      ensures data != "menu_back" && ThirdPiece(data).Err? ==> out == Crash(IndexError) && userData == old(userData)
      ensures data != "menu_back" && ThirdPiece(data).Ok? && old(DataOf(tid)).selectedWeek.None? ==>
        out == Crash(KeyError) && userData == old(userData)
      ensures data != "menu_back" && ThirdPiece(data).Ok? && old(DataOf(tid)).selectedWeek.Some? ==>
        var day := ThirdPiece(data).value;
        && userData == old(userData)[tid := old(DataOf(tid)).(selectedDay := Some(day))]
        && out == (if (old(DataOf(tid)).selectedWeek.value, day) in menu then Goto(SelectDay) else Crash(KeyError))
    {
      if data == "menu_back" {
        return Crash(AttributeError);
      }
      match ThirdPiece(data)
      case Err(e) =>
        out := Crash(e);
      case Ok(day) =>
        var d := DataOf(tid);
        if d.selectedWeek.None? {
          return Crash(KeyError);
        }
        userData := userData[tid := d.(selectedDay := Some(day))];
        if (d.selectedWeek.value, day) !in menu {
          return Crash(KeyError);
        }
        out := Goto(SelectDay);
    }

    /** `handle_menu_message`: from an administrator with a selected week and
        day, a message starting with an item prefix adds the item to that
        day (see `AddItem`); anything else leaves the catalog as it is. */
    method HandleMenuMessage(tid: int, text: string) returns (err: Option<PyError>)
      requires Valid()
      modifies this`menu
      ensures Valid()
      ensures var t := Strip(text);
        var d := old(DataOf(tid));
        if !IsAdminSession(sessions, tid) || !IsAddRequest(t) || d.selectedWeek.None? || d.selectedDay.None? then
          err.None? && menu == old(menu)
        else
          var r := AddItem(old(menu), (d.selectedWeek.value, d.selectedDay.value), t);
          if r.Err? then err == Some(r.error) && menu == old(menu)
          else err.None? && menu == r.value
    {
      var t := Strip(text);
      var d := DataOf(tid);
      if !IsAdminSession(sessions, tid) || !IsAddRequest(t) || d.selectedWeek.None? || d.selectedDay.None? {
        err := None;
      } else {
        match AddItem(menu, (d.selectedWeek.value, d.selectedDay.value), t)
        case Err(e) =>
          err := Some(e);
        case Ok(m) =>
          assert m.Keys == menu.Keys;
          menu := m;
          err := None;
      }
    }

    /** `confirm_delete`: pops the item the button names (see `PopItem`)
        and selects that week and day again. */
    method ConfirmDelete(tid: int, data: string) returns (out: Outcome)
      requires Valid()
      modifies this`menu, this`userData
      ensures Valid()
      ensures ParseConfirmDelete(data).Err? ==>
        out == Crash(ParseConfirmDelete(data).error) && menu == old(menu) && userData == old(userData)
      ensures ParseConfirmDelete(data).Ok? && PopItem(old(menu), ParseConfirmDelete(data).value).Err? ==>
        out == Crash(PopItem(old(menu), ParseConfirmDelete(data).value).error) && menu == old(menu) && userData == old(userData)
      ensures ParseConfirmDelete(data).Ok? && PopItem(old(menu), ParseConfirmDelete(data).value).Ok? ==>
        var q := ParseConfirmDelete(data).value;
        && out == Goto(SelectDay)
        && menu == PopItem(old(menu), q).value
        && userData == old(userData)[tid := old(DataOf(tid)).(selectedWeek := Some(q.week), selectedDay := Some(q.day))]
    {
      match ParseConfirmDelete(data)
      case Err(e) =>
        out := Crash(e);
      case Ok(q) =>
        match PopItem(menu, q)
        case Err(e) =>
          out := Crash(e);
        case Ok(m) =>
          assert m.Keys == menu.Keys;
          menu := m;
          userData := userData[tid := DataOf(tid).(selectedWeek := Some(q.week), selectedDay := Some(q.day))];
          out := Goto(SelectDay);
    }

    // ---------------------------------------------------------- editing meals

    /** `edit_user_select_user`: the user whose meals are edited is read
        from the button with `split('_')[1]` (see
        `Tokens.EditUserNameAsWritten`), so a username containing `_` is cut
        at its first `_`. */
    method EditUserSelectUser(tid: int, data: string) returns (out: Outcome)
      requires Valid()
      modifies this`userData
      ensures Valid()
      ensures data == EditCancelToken ==> out == End && userData == old(userData)
      ensures data != EditCancelToken && EditUserNameAsWritten(data).Err? ==>
        out == Crash(IndexError) && userData == old(userData)
      ensures data != EditCancelToken && EditUserNameAsWritten(data).Ok? ==>
        var u := EditUserNameAsWritten(data).value;
        && userData == old(userData)[tid := old(DataOf(tid)).(editUsername := Some(u))]
        && out == (if u in users then Goto(EditUserWeek) else Crash(KeyError))
    {
      if data == EditCancelToken {
        return End;
      }
      match EditUserNameAsWritten(data)
      case Err(e) =>
        out := Crash(e);
      case Ok(u) =>
        userData := userData[tid := DataOf(tid).(editUsername := Some(u))];
        out := if u in users then Goto(EditUserWeek) else Crash(KeyError);
    }

    /** `edit_user_select_week`: keeps the week; a logged-in sender with no
        user chosen edits their own meals. */
    method EditUserSelectWeek(tid: int, data: string) returns (out: Outcome)
      requires Valid()
      modifies this`userData
      ensures Valid()
      ensures ThirdPiece(data).Err? ==> out == Crash(IndexError) && userData == old(userData)
      ensures ThirdPiece(data).Ok? ==>
        var d := old(DataOf(tid)).(editWeek := Some(ThirdPiece(data).value));
        && out == Goto(EditUserDay)
        && userData == old(userData)[tid :=
             if tid in sessions && d.editUsername.None? then d.(editUsername := Some(sessions[tid].username)) else d]
    {
      match ThirdPiece(data)
      case Err(e) =>
        out := Crash(e);
      case Ok(week) =>
        var d: CheckedData := DataOf(tid).(editWeek := Some(week));
        if tid in sessions && d.editUsername.None? {
          d := d.(editUsername := Some(sessions[tid].username));
        }
        userData := userData[tid := d];
        out := Goto(EditUserDay);
    }

    /** `edit_user_select_day`: shows the chosen day's items and the user's
        current choice. It changes no store: apart from the user to edit,
        which it may fill in from the session, it only decides which reply
        is sent, and every reply stays in EDIT_USER_DAY. END when no user or
        no week is known. */
    method EditUserSelectDay(tid: int, data: string) returns (out: Outcome)
      requires Valid()
      modifies this`userData
      ensures Valid()
      ensures data == "edituser_done" ==> out == End && userData == old(userData)
      ensures data != "edituser_done" && ThirdPiece(data).Err? ==> out == Crash(IndexError) && userData == old(userData)
      ensures data != "edituser_done" && ThirdPiece(data).Ok? ==>
        var d := old(DataOf(tid));
        var target := EditTarget(d, sessions, tid);
        var day := ThirdPiece(data).value;
        && userData == old(userData)[tid := d.(editUsername := target)]
        && out == (
          if !Truthy(target) || !Truthy(d.editWeek) then End
          else if (d.editWeek.value, day) !in menu then Crash(KeyError)
          else if menu[(d.editWeek.value, day)] == DayMenu([], []) then Goto(EditUserDay)
          else if target.value !in users then Crash(KeyError)
          else Goto(EditUserDay))
    {
      if data == "edituser_done" {
        return End;
      }
      match ThirdPiece(data)
      case Err(e) =>
        out := Crash(e);
      case Ok(day) =>
        var d := DataOf(tid);
        var target := EditTarget(d, sessions, tid);
        userData := userData[tid := d.(editUsername := target)];
        if !Truthy(target) || !Truthy(d.editWeek) {
          return End;
        }
        var key := (d.editWeek.value, day);
        if key !in menu {
          return Crash(KeyError);
        }
        if menu[key] == DayMenu([], []) {
          return Goto(EditUserDay);
        }
        if target.value !in users {
          return Crash(KeyError);
        }
        // The row lookup and the column only choose between the
        // "not found" alert and the item list.
        var row := FindUserRow(sheet, users[target.value].fullName);
        out := Goto(EditUserDay);
    }

    /** `set_user_meal_dessert`: writes the item into the edited user's
        meal (or dessert) cell for the token's week and day (see `MealCell`)
        and logs the change; when the cell cannot be found nothing is
        written. */
    method SetUserMealDessert(tid: int, data: string) returns (out: Outcome)
      requires Valid()
      modifies this`sheet, this`log, this`userData
      ensures Valid()
      ensures data == "ignore" ==> out == Goto(EditUserDay) && sheet == old(sheet) && log == old(log) && userData == old(userData)
      ensures data != "ignore" && ParseSet(data).Err? ==>
        out == Crash(IndexError) && sheet == old(sheet) && log == old(log) && userData == old(userData)
      ensures data != "ignore" && ParseSet(data).Ok? ==>
        var d := old(DataOf(tid));
        var target := EditTarget(d, sessions, tid);
        var d': CheckedData := d.(editUsername := target);
        if !Truthy(target) then
          out == End && sheet == old(sheet) && log == old(log) && userData == old(userData)[tid := d']
        else if target.value !in users then
          out == Crash(KeyError) && sheet == old(sheet) && log == old(log) && userData == old(userData)[tid := d']
        else
          var q := ParseSet(data).value;
          var full := users[target.value].fullName;
          var cell := MealCell(old(sheet), full, q);
          if cell.Err? then
            out == Crash(cell.error) && sheet == old(sheet) && log == old(log) && userData == old(userData)[tid := d']
          else
            && out == Goto(EditUserDay)
            && sheet == Write(old(sheet), cell.value.0, cell.value.1, q.item)
            && log == old(log) + [LogActor(sessions, tid, full)]
            && userData == old(userData)[tid := d'.(editWeek := Some(q.week))]
    {
      if data == "ignore" {
        return Goto(EditUserDay);
      }
      match ParseSet(data)
      case Err(e) =>
        out := Crash(e);
      case Ok(q) =>
        var d := DataOf(tid);
        var target := EditTarget(d, sessions, tid);
        var d': CheckedData := d.(editUsername := target);
        if !Truthy(target) {
          userData := userData[tid := d'];
          return End;
        }
        if target.value !in users {
          userData := userData[tid := d'];
          return Crash(KeyError);
        }
        out := WriteMealChoice(tid, target.value, q);
        var d'': CheckedData := if out.Goto? then d'.(editWeek := Some(q.week)) else d';
        userData := userData[tid := d''];
    }

    /** The write of `set_user_meal_dessert` once the edited user is known:
        the item goes into the user's cell (see `MealCell`) and the change is
        logged, or nothing changes when there is no such cell. */
    method WriteMealChoice(tid: int, username: string, q: SetRequest) returns (out: Outcome)
      requires Valid() && username in users
      modifies this`sheet, this`log
      ensures Valid()
      ensures var full := users[username].fullName;
        var cell := MealCell(old(sheet), full, q);
        if cell.Err? then
          out == Crash(cell.error) && sheet == old(sheet) && log == old(log)
        else
          && out == Goto(EditUserDay)
          && sheet == Write(old(sheet), cell.value.0, cell.value.1, q.item)
          && log == old(log) + [LogActor(sessions, tid, full)]
    {
      var full := users[username].fullName;
      var row := FindUserRow(sheet, full);
      var col := RequestColumn(q.week, q.day, q.kind);
      if col.Err? {
        return Crash(col.error);
      }
      if row.None? {
        return Crash(TypeError);
      }
      if col.value < 1 {
        return Crash(ValueError);
      }
      assert MealCell(sheet, full, q) == Ok((row.value, col.value));
      sheet := Write(sheet, row.value, col.value, q.item);
      log := log + [LogActor(sessions, tid, full)];
      out := Goto(EditUserDay);
    }

    /** `my_meals_start`: a logged-in sender edits their own meals. */
    method MyMealsStart(tid: int) returns (out: Outcome)
      requires Valid()
      modifies this`userData
      ensures Valid()
      ensures tid !in sessions ==> out == End && userData == old(userData)
      ensures tid in sessions ==>
        && out == Goto(EditUserWeek)
        && userData == old(userData)[tid := old(DataOf(tid)).(editUsername := Some(sessions[tid].username))]
    {
      if tid !in sessions {
        return End;
      }
      userData := userData[tid := DataOf(tid).(editUsername := Some(sessions[tid].username))];
      out := Goto(EditUserWeek);
    }

    // ---------------------------------------------------------- changing the password

    /** `change_password_new`: a password shorter than 4 is asked again;
        otherwise it is kept for confirmation. */
    method ChangePasswordNew(tid: int, text: string) returns (out: Outcome)
      requires Valid()
      modifies this`userData
      ensures Valid()
      ensures |text| < 4 ==> out == Goto(State.ChangePasswordNew) && userData == old(userData)
      ensures |text| >= 4 ==>
        && out == Goto(State.ChangePasswordConfirm)
        && userData == old(userData)[tid := old(DataOf(tid)).(newPassword := Some(text))]
    {
      if |text| < 4 {
        return Goto(State.ChangePasswordNew);
      }
      userData := userData[tid := DataOf(tid).(newPassword := Some(text))];
      out := Goto(State.ChangePasswordConfirm);
    }

    /** `change_password_confirm`: a confirmation equal to the kept password
        rewrites the logged-in user's hash and clears the collected data; a
        different one goes back to asking for the new password. */
    method ChangePasswordConfirm(tid: int, text: string) returns (out: Outcome)
      requires Valid()
      modifies this`users, this`userData
      ensures Valid()
      ensures old(DataOf(tid)).newPassword.None? ==> out == Crash(KeyError) && users == old(users) && userData == old(userData)
      ensures old(DataOf(tid)).newPassword.Some? && text != old(DataOf(tid)).newPassword.value ==>
        out == Goto(State.ChangePasswordNew) && users == old(users) && userData == old(userData)
      ensures old(DataOf(tid)).newPassword == Some(text) && tid !in sessions ==>
        out == Crash(KeyError) && users == old(users) && userData == old(userData)
      ensures old(DataOf(tid)).newPassword == Some(text) && tid in sessions ==>
        var u := sessions[tid].username;
        && |text| >= 4
        && out == End
        && u in old(users)
        && users == old(users)[u := old(users)[u].(password := hash(text))]
        && userData == old(userData)[tid := NoData]
    {
      var d := DataOf(tid);
      if d.newPassword.None? {
        return Crash(KeyError);
      }
      if text != d.newPassword.value {
        return Goto(State.ChangePasswordNew);
      }
      if tid !in sessions {
        return Crash(KeyError);
      }
      var u := sessions[tid].username;
      users := users[u := users[u].(password := hash(text))];
      userData := userData[tid := NoData];
      out := End;
    }

    // ---------------------------------------------------------- leaving

    /** `logout`: closes the sender's session. */
    method Logout(tid: int)
      requires Valid()
      modifies this`sessions
      ensures Valid()
      ensures sessions == old(sessions) - {tid}
    {
      sessions := sessions - {tid};
    }

    /** `cancel`: clears the collected data and ends the conversation. */
    method Cancel(tid: int) returns (out: Outcome)
      requires Valid()
      modifies this`userData
      ensures Valid()
      ensures out == End && userData == old(userData)[tid := NoData]
    {
      userData := userData[tid := NoData];
      out := End;
    }

    /** `handle_text`, the catch-all for text no conversation took: of its
        branches only three change anything (the own-meals button, logout
        and an item message); the others start nothing, because their result
        is not a conversation's, or only reply. */
    method HandleText(tid: int, text: string) returns (err: Option<PyError>)
      requires Valid()
      modifies this`userData, this`sessions, this`menu
      ensures Valid()
      ensures text == MyMealsButton ==>
        && err.None? && menu == old(menu) && sessions == old(sessions)
        && userData == (if tid in old(sessions) then old(userData)[tid := old(DataOf(tid)).(editUsername := Some(old(sessions)[tid].username))] else old(userData))
      ensures text == LogoutButton ==>
        err.None? && menu == old(menu) && userData == old(userData) && sessions == old(sessions) - {tid}
      ensures text != MyMealsButton && text != LogoutButton ==> userData == old(userData) && sessions == old(sessions)
      ensures text != MyMealsButton && text != LogoutButton && !IsAddRequest(text) ==> err.None? && menu == old(menu)
      ensures text != MyMealsButton && text != LogoutButton && IsAddRequest(text) ==>
        var t := Strip(text);
        var d := old(DataOf(tid));
        if !IsAdminSession(sessions, tid) || !IsAddRequest(t) || d.selectedWeek.None? || d.selectedDay.None? then
          err.None? && menu == old(menu)
        else
          var r := AddItem(old(menu), (d.selectedWeek.value, d.selectedDay.value), t);
          if r.Err? then err == Some(r.error) && menu == old(menu)
          else err.None? && menu == r.value
    {
      err := None;
      if text == MyMealsButton {
        var _ := MyMealsStart(tid);
      } else if text == LogoutButton {
        Logout(tid);
      } else if IsAddRequest(text) {
        err := HandleMenuMessage(tid, text);
      }
    }

    // ---------------------------------------------------------- dispatch

    /** The handlers of the login conversation. */
    method RunLogin(tid: int, h: Handler, ev: Event) returns (out: Outcome)
      requires Valid() && Accepts(h, ev) && h in {OnLoginStart, OnLoginUsername, OnLoginPassword}
      modifies this`users, this`sessions, this`userData
      ensures Valid()
      ensures out.Goto? ==> Returns(h, out.next)
      ensures OthersKept(tid)
    {
      match h
      case OnLoginStart => out := Goto(State.LoginUsername);
      case OnLoginUsername => out := LoginUsername(tid, ev.text);
      case OnLoginPassword => out := LoginPassword(tid, ev.text);
    }

    /** The handlers of the add-user conversation after its entry. */
    method RunAddUser(tid: int, h: Handler, ev: Event) returns (out: Outcome)
      requires Valid() && Accepts(h, ev) && h in {OnAddUserUsername, OnAddUserFullname, OnAddUserPassword}
      modifies this`users, this`sheet, this`userData
      ensures Valid()
      ensures out.Goto? ==> Returns(h, out.next)
      ensures OthersKept(tid)
    {
      match h
      case OnAddUserUsername => out := AddUserUsername(tid, ev.text);
      case OnAddUserFullname => out := AddUserFullname(tid, ev.text);
      case OnAddUserPassword => out := AddUserPassword(tid, ev.text);
    }

    /** The handlers of the catalog conversation after its entry. */
    method RunMenu(tid: int, h: Handler, ev: Event) returns (out: Outcome)
      requires Valid() && Accepts(h, ev) && h in {OnMenuSelectWeek, OnMenuSelectDay, OnDeleteMenuItem, OnConfirmDelete}
      modifies this`menu, this`userData
      ensures Valid()
      ensures out.Goto? ==> Returns(h, out.next)
      ensures OthersKept(tid)
    {
      match h
      case OnMenuSelectWeek => out := MenuSelectWeek(tid, ev.data);
      case OnMenuSelectDay => out := MenuSelectDay(tid, ev.data);
      case OnDeleteMenuItem => out := DeleteMenuItem(menu, ev.data);
      case OnConfirmDelete => out := ConfirmDelete(tid, ev.data);
    }

    /** The handlers of the two meal-editing conversations after their administrator entry. */
    method RunEdit(tid: int, h: Handler, ev: Event) returns (out: Outcome)
      requires Valid() && Accepts(h, ev) && h in {OnEditUserSelectUser, OnEditUserSelectWeek, OnEditUserSelectDay, OnSetUserMealDessert, OnMyMealsStart}
      modifies this`sheet, this`log, this`userData
      ensures Valid()
      ensures out.Goto? ==> Returns(h, out.next)
      ensures OthersKept(tid)
    {
      match h
      case OnEditUserSelectUser => out := EditUserSelectUser(tid, ev.data);
      case OnEditUserSelectWeek => out := EditUserSelectWeek(tid, ev.data);
      case OnEditUserSelectDay => out := EditUserSelectDay(tid, ev.data);
      case OnSetUserMealDessert => out := SetUserMealDessert(tid, ev.data);
      case OnMyMealsStart => out := MyMealsStart(tid);
    }

    /** The handlers of the password conversation. */
    method RunPassword(tid: int, h: Handler, ev: Event) returns (out: Outcome)
      requires Valid() && Accepts(h, ev) && h in {OnChangePasswordStart, OnChangePasswordCurrent, OnChangePasswordNew, OnChangePasswordConfirm}
      modifies this`users, this`userData
      ensures Valid()
      ensures out.Goto? ==> Returns(h, out.next)
      ensures OthersKept(tid)
      ensures h == OnChangePasswordCurrent ==>
        && users == old(users) && userData == old(userData)
        && (out == Goto(State.ChangePasswordNew) <==> tid in sessions && Authenticates(users, hash, sessions[tid].username, ev.text))
    {
      match h
      case OnChangePasswordStart => out := ChangePasswordStart(sessions, tid);
      case OnChangePasswordCurrent => out := CheckCurrentPassword(users, sessions, hash, tid, ev.text);
      case OnChangePasswordNew => out := ChangePasswordNew(tid, ev.text);
      case OnChangePasswordConfirm => out := ChangePasswordConfirm(tid, ev.text);
    }

    /** The administrators' entry points, which change nothing, and the
        fallbacks shared by all conversations. */
    method RunShared(tid: int, h: Handler, ev: Event) returns (out: Outcome)
      requires Valid() && Accepts(h, ev)
      requires h in {OnAddUserStart, OnManageMenuStart, OnEditUserMealsStart, OnCancel, OnEndConversation}
      modifies this`userData
      ensures Valid()
      ensures out.Goto? ==> Returns(h, out.next)
      ensures OthersKept(tid)
      ensures h != OnCancel ==> userData == old(userData)
      ensures h in {OnAddUserStart, OnManageMenuStart, OnEditUserMealsStart} ==> (out == End <==> !IsAdminSession(sessions, tid))
    {
      match h
      case OnAddUserStart => out := AdminEntry(sessions, tid, State.AddUserUsername);
      case OnManageMenuStart => out := AdminEntry(sessions, tid, SelectWeek);
      case OnEditUserMealsStart => out := AdminEntry(sessions, tid, EditUserSelect);
      case OnCancel => out := Cancel(tid);
      case OnEndConversation => out := End;
    }

    /** The stores of one user: no user but `tid` has different data or a
        different session. */
    twostate predicate OthersKept(tid: int)
      reads this
    {
      && (forall t :: t != tid ==> DataOf(t) == old(DataOf(t)))
      && (forall t :: t != tid ==> (t in sessions <==> t in old(sessions)))
      && (forall t :: t != tid && t in sessions ==> sessions[t] == old(sessions)[t])
    }

    /** No store and no session changed. */
    twostate predicate StoresKept()
      reads this
    {
      users == old(users) && menu == old(menu) && sheet == old(sheet) && log == old(log) && sessions == old(sessions)
    }

    /** Runs the handler an update was routed to. */
    method RunHandler(tid: int, h: Handler, ev: Event) returns (out: Outcome)
      requires Valid() && Accepts(h, ev)
      modifies this`users, this`menu, this`sheet, this`log, this`sessions, this`userData
      ensures Valid()
      ensures out.Goto? ==> Returns(h, out.next)
      ensures OthersKept(tid)
      ensures h == OnCancel ==> StoresKept()
      ensures h in {OnAddUserStart, OnManageMenuStart, OnEditUserMealsStart} && !IsAdminSession(old(sessions), tid) ==>
        out == End && StoresKept() && userData == old(userData)
    {
      if h in {OnAddUserStart, OnManageMenuStart, OnEditUserMealsStart, OnCancel, OnEndConversation} {
        out := RunShared(tid, h, ev);
      } else {
        out := RunOwnHandler(tid, h, ev);
      }
    }

    /** The handlers that belong to one conversation. */
    method RunOwnHandler(tid: int, h: Handler, ev: Event) returns (out: Outcome)
      requires Valid() && Accepts(h, ev)
      requires h !in {OnAddUserStart, OnManageMenuStart, OnEditUserMealsStart, OnCancel, OnEndConversation}
      modifies this`users, this`menu, this`sheet, this`log, this`sessions, this`userData
      ensures Valid()
      ensures out.Goto? ==> Returns(h, out.next)
      ensures OthersKept(tid)
    {
      match h
      case OnLoginStart | OnLoginUsername | OnLoginPassword =>
        out := RunLogin(tid, h, ev);
      case OnAddUserUsername | OnAddUserFullname | OnAddUserPassword =>
        out := RunAddUser(tid, h, ev);
      case OnMenuSelectWeek | OnMenuSelectDay | OnDeleteMenuItem | OnConfirmDelete =>
        out := RunMenu(tid, h, ev);
      case OnEditUserSelectUser | OnEditUserSelectWeek | OnEditUserSelectDay | OnSetUserMealDessert | OnMyMealsStart =>
        out := RunEdit(tid, h, ev);
      case OnChangePasswordStart | OnChangePasswordCurrent | OnChangePasswordNew | OnChangePasswordConfirm =>
        out := RunPassword(tid, h, ev);
    }

    /** One update from user `tid`: routed by the user's open conversations,
        handled, and the conversation's state advanced by the result. No
        other user's data, session or conversations change. */
    method HandleUpdate(tid: int, ev: Event) returns (target: Target, out: Option<Outcome>)
      requires Valid()
      modifies this`users, this`menu, this`sheet, this`log, this`sessions, this`userData, this`conv
      ensures Valid()
      ensures target == Route(old(ActiveOf(tid)), ev)
      ensures out.Some? <==> target.InFlow?
      ensures target.InFlow? ==> ActiveOf(tid) == Step(old(ActiveOf(tid)), target.flow, out.value)
      ensures !target.InFlow? ==> ActiveOf(tid) == old(ActiveOf(tid))
      ensures OthersKept(tid)
      ensures forall t :: t != tid ==> ActiveOf(t) == old(ActiveOf(t))
      ensures ev == Command("cancel") ==> StoresKept()
      ensures (target.InFlow? && target.handler in {OnAddUserStart, OnManageMenuStart, OnEditUserMealsStart}
        && !IsAdminSession(old(sessions), tid)) ==>
        out == Some(End) && StoresKept() && userData == old(userData) && ActiveOf(tid) == old(ActiveOf(tid))
    {
      var active := ActiveOf(tid);
      target := Route(active, ev);
      out := None;
      if ev == Command("cancel") {
        CancelGoesToFirstActive(Flows, active);
      }
      match target
      case StartCommand =>
      case Unhandled =>
      case HandleText =>
        var _ := HandleText(tid, ev.text);
      case InFlow(f, h) =>
        RouteSound(active, ev);
        var o := Advance(tid, f, h, ev);
        out := Some(o);
    }

    /** Runs the handler of conversation `f` and moves the conversation on
        by the handler's result. */
    method Advance(tid: int, f: Flow, h: Handler, ev: Event) returns (out: Outcome)
      requires Valid() && Accepts(h, ev)
      requires IsEntry(h) <==> f !in ActiveOf(tid)
      requires forall s :: Returns(h, s) ==> FlowState(f, s)
      modifies this`users, this`menu, this`sheet, this`log, this`sessions, this`userData, this`conv
      ensures Valid()
      ensures ActiveOf(tid) == Step(old(ActiveOf(tid)), f, out)
      ensures OthersKept(tid)
      ensures forall t :: t != tid ==> ActiveOf(t) == old(ActiveOf(t))
      ensures h == OnCancel ==> StoresKept()
      ensures h in {OnAddUserStart, OnManageMenuStart, OnEditUserMealsStart} && !IsAdminSession(old(sessions), tid) ==>
        out == End && StoresKept() && userData == old(userData) && ActiveOf(tid) == old(ActiveOf(tid))
    {
      var active := ActiveOf(tid);
      out := RunHandler(tid, h, ev);
      if IsEntry(h) && out == End {
        assert Step(active, f, out) == active;
      }
      StepKeepsValid(active, f, out);
      conv := conv[tid := Step(active, f, out)];
    }
  }
}
