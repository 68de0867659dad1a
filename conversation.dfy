/** The per-user conversation machinery wired in `main`: thirteen states,
    six conversations registered in order, and the handler each of them
    picks for an incoming update (meal_bot.py:23-26, 1023-1105).

    Dispatch follows the chat library: all handlers sit in one group and
    the first that accepts an update runs it. A conversation that is not
    active looks only at its entry points; an active one looks at the
    handlers of its current state, then at its fallbacks, and never
    re-enters. A conversation that accepts nothing lets the update go on
    to the next handler. */
module Conversation {
  import opened Wrappers
  import opened PyText

  datatype State =
    | LoginUsername | LoginPassword
    | AddUserUsername | AddUserFullname | AddUserPassword
    | ChangePasswordCurrent | ChangePasswordNew | ChangePasswordConfirm
    | SelectWeek | SelectDay
    | EditUserSelect | EditUserWeek | EditUserDay

  /** The values `range(13)` gives the state constants. */
  function StateNumber(s: State): (n: nat)
    ensures n < 13
  {
    match s
    case LoginUsername => 0
    case LoginPassword => 1
    case AddUserUsername => 2
    case AddUserFullname => 3
    case AddUserPassword => 4
    case ChangePasswordCurrent => 5
    case ChangePasswordNew => 6
    case ChangePasswordConfirm => 7
    case SelectWeek => 8
    case SelectDay => 9
    case EditUserSelect => 10
    case EditUserWeek => 11
    case EditUserDay => 12
  }

  /** The thirteen constants are distinct. */
  lemma StateNumberInjective(s: State, t: State)
    requires StateNumber(s) == StateNumber(t)
    ensures s == t
  {
  }

  /** The six conversation handlers, in the order they are registered. */
  datatype Flow = Login | AddUser | Menu | EditUser | MyMeals | ChangePassword

  const Flows: seq<Flow> := [Login, AddUser, Menu, EditUser, MyMeals, ChangePassword]

  /** The keys of each conversation's `states` table. */
  predicate FlowState(f: Flow, s: State) {
    match f
    case Login => s in {LoginUsername, LoginPassword}
    case AddUser => s in {AddUserUsername, AddUserFullname, AddUserPassword}
    case Menu => s in {SelectWeek, SelectDay}
    case EditUser => s in {EditUserSelect, EditUserWeek, EditUserDay}
    case MyMeals => s in {EditUserWeek, EditUserDay}
    case ChangePassword => s in {ChangePasswordCurrent, ChangePasswordNew, ChangePasswordConfirm}
  }

  /** A state whose only handler takes any text message. */
  predicate TextState(s: State) {
    s in {LoginUsername, LoginPassword, AddUserUsername, AddUserFullname, AddUserPassword,
          ChangePasswordCurrent, ChangePasswordNew, ChangePasswordConfirm}
  }

  /** An incoming update: a text message that is not a command, a command
      (`/name`), or the callback data of a pressed inline button. */
  datatype Event = Text(text: string) | Command(name: string) | Press(data: string)

  // ------------------------------------------------------------ patterns

  const LoginButton: string := "\U{1F510} ورود به سیستم"
  const AddUserButton: string := "\U{2795} افزودن کاربر"
  const ManageMenuButton: string := "\U{1F37D}\U{FE0F} مدیریت منوی غذایی"
  const EditMealsButton: string := "\U{270F}\U{FE0F} ویرایش غذای کاربران"
  const MyMealsButton: string := "\U{1F37D}\U{FE0F} انتخاب غذاهای من"
  const ChangePasswordButton: string := "\U{1F511} تغییر رمز عبور"
  const LogoutButton: string := "\U{1F6AA} خروج"

  /** `filters.Regex("^caption$")`: `$` also matches before a final newline. */
  predicate IsButton(ev: Event, caption: string) {
    ev.Text? && (ev.text == caption || ev.text == caption + "\n")
  }

  /** `CallbackQueryHandler(pattern="^p")`, matched at the start of the data. */
  predicate PressStarts(ev: Event, p: string) {
    ev.Press? && StartsWith(ev.data, p)
  }

  /** `CallbackQueryHandler(pattern="^word$")`. */
  predicate PressIs(ev: Event, word: string) {
    ev.Press? && (ev.data == word || ev.data == word + "\n")
  }

  // ------------------------------------------------------------ tables

  /** The callbacks the tables name. `OnEndConversation` is the
      `lambda u, c: ConversationHandler.END` of the `_done` and `_cancel` buttons. */
  datatype Handler =
    | OnLoginStart | OnLoginUsername | OnLoginPassword
    | OnAddUserStart | OnAddUserUsername | OnAddUserFullname | OnAddUserPassword
    | OnManageMenuStart | OnMenuSelectWeek | OnMenuSelectDay | OnDeleteMenuItem | OnConfirmDelete
    | OnEditUserMealsStart | OnEditUserSelectUser | OnEditUserSelectWeek | OnEditUserSelectDay
    | OnSetUserMealDessert | OnMyMealsStart
    | OnChangePasswordStart | OnChangePasswordCurrent | OnChangePasswordNew | OnChangePasswordConfirm
    | OnCancel | OnEndConversation

  function EntryPoint(f: Flow, ev: Event): Option<Handler> {
    match f
    case Login => if IsButton(ev, LoginButton) then Some(OnLoginStart) else None
    case AddUser => if IsButton(ev, AddUserButton) then Some(OnAddUserStart) else None
    case Menu => if IsButton(ev, ManageMenuButton) then Some(OnManageMenuStart) else None
    case EditUser => if IsButton(ev, EditMealsButton) then Some(OnEditUserMealsStart) else None
    case MyMeals => if IsButton(ev, MyMealsButton) then Some(OnMyMealsStart) else None
    case ChangePassword => if IsButton(ev, ChangePasswordButton) then Some(OnChangePasswordStart) else None
  }

  /** The first handler of state `s` in conversation `f` that accepts `ev`;
      None when `s` has no handler that does, or is not a state of `f`. */
  function StateHandler(f: Flow, s: State, ev: Event): Option<Handler> {
    match (f, s)
    case (Login, LoginUsername) => if ev.Text? then Some(OnLoginUsername) else None
    case (Login, LoginPassword) => if ev.Text? then Some(OnLoginPassword) else None
    case (AddUser, AddUserUsername) => if ev.Text? then Some(OnAddUserUsername) else None
    case (AddUser, AddUserFullname) => if ev.Text? then Some(OnAddUserFullname) else None
    case (AddUser, AddUserPassword) => if ev.Text? then Some(OnAddUserPassword) else None
    case (Menu, SelectWeek) => if PressStarts(ev, "menu_week_") then Some(OnMenuSelectWeek) else None
    case (Menu, SelectDay) =>
      if PressStarts(ev, "menu_day_") then Some(OnMenuSelectDay)
      else if PressStarts(ev, "delete_meal_") || PressStarts(ev, "delete_dessert_") then Some(OnDeleteMenuItem)
      else if PressStarts(ev, "confirm_delete_") then Some(OnConfirmDelete)
      else if PressIs(ev, "menu_done") then Some(OnEndConversation)
      else None
    case (EditUser, EditUserSelect) => if PressStarts(ev, "edituser_") then Some(OnEditUserSelectUser) else None
    case (EditUser, EditUserWeek) => EditWeekHandler(ev)
    case (EditUser, EditUserDay) => EditDayHandler(ev)
    case (MyMeals, EditUserWeek) => EditWeekHandler(ev)
    case (MyMeals, EditUserDay) => EditDayHandler(ev)
    case (ChangePassword, ChangePasswordCurrent) => if ev.Text? then Some(OnChangePasswordCurrent) else None
    case (ChangePassword, ChangePasswordNew) => if ev.Text? then Some(OnChangePasswordNew) else None
    case (ChangePassword, ChangePasswordConfirm) => if ev.Text? then Some(OnChangePasswordConfirm) else None
    case _ => None
  }

  /** EDIT_USER_WEEK, the same in both meal-editing conversations. */
  function EditWeekHandler(ev: Event): Option<Handler> {
    if PressStarts(ev, "edituser_week_") then Some(OnEditUserSelectWeek) else None
  }

  /** EDIT_USER_DAY, the same in both meal-editing conversations. */
  function EditDayHandler(ev: Event): Option<Handler> {
    if PressStarts(ev, "edituser_day_") then Some(OnEditUserSelectDay)
    else if PressStarts(ev, "setmeal_") || PressStarts(ev, "setdessert_") then Some(OnSetUserMealDessert)
    else if PressIs(ev, "edituser_done") then Some(OnEndConversation)
    else None
  }

  function Fallback(f: Flow, ev: Event): Option<Handler> {
    if ev == Command("cancel") then Some(OnCancel)
    else if f == Menu && PressIs(ev, "menu_cancel") then Some(OnEndConversation)
    else if (f == EditUser || f == MyMeals) && PressIs(ev, "edituser_cancel") then Some(OnEndConversation)
    else None
  }

  /** What conversation `f`, in state `st` (None: not active), does with `ev`. */
  function FlowHandler(f: Flow, st: Option<State>, ev: Event): Option<Handler> {
    if st.None? then EntryPoint(f, ev)
    else if StateHandler(f, st.value, ev).Some? then StateHandler(f, st.value, ev)
    else Fallback(f, ev)
  }

  // ------------------------------------------------------------ routing

  /** The conversations one user has open, with their current states. */
  type Active = map<Flow, State>

  function StateIn(active: Active, f: Flow): Option<State> {
    if f in active then Some(active[f]) else None
  }

  /** Where an update goes: the `/start` command first, then the first
      conversation that accepts it, then the catch-all text handler. */
  datatype Target = StartCommand | InFlow(flow: Flow, handler: Handler) | HandleText | Unhandled

  function Route(active: Active, ev: Event): Target {
    if ev == Command("start") then StartCommand else RouteFrom(Flows, active, ev)
  }

  /** The conversations `flows` tried in order, then `handle_text` for text.
      The prefix handler registered after `handle_text` is never reached: a
      text message always stops at `handle_text`, and a command never
      starts with an item prefix. */
  function RouteFrom(flows: seq<Flow>, active: Active, ev: Event): Target
    decreases |flows|
  {
    if |flows| == 0 then (if ev.Text? then HandleText else Unhandled)
    else
      match FlowHandler(flows[0], StateIn(active, flows[0]), ev)
      case Some(h) => InFlow(flows[0], h)
      case None => RouteFrom(flows[1..], active, ev)
  }

  /** The conversation an update is routed to is the first in `flows` that
      accepts it; when none does, text goes to `handle_text` and anything
      else is dropped. */
  lemma {:induction false} RouteFromFirstMatch(flows: seq<Flow>, active: Active, ev: Event)
    ensures RouteFrom(flows, active, ev).InFlow? <==>
      exists i :: 0 <= i < |flows| && FlowHandler(flows[i], StateIn(active, flows[i]), ev).Some?
    ensures RouteFrom(flows, active, ev).InFlow? ==>
      exists i :: 0 <= i < |flows| && flows[i] == RouteFrom(flows, active, ev).flow
        && FlowHandler(flows[i], StateIn(active, flows[i]), ev) == Some(RouteFrom(flows, active, ev).handler)
        && forall j :: 0 <= j < i ==> FlowHandler(flows[j], StateIn(active, flows[j]), ev).None?
    ensures !RouteFrom(flows, active, ev).InFlow? ==>
      RouteFrom(flows, active, ev) == (if ev.Text? then HandleText else Unhandled)
    decreases |flows|
  {
    if |flows| > 0 {
      RouteFromFirstMatch(flows[1..], active, ev);
      var r := RouteFrom(flows, active, ev);
      if FlowHandler(flows[0], StateIn(active, flows[0]), ev).None? {
        if r.InFlow? {
          var i :| 0 <= i < |flows[1..]| && flows[1..][i] == r.flow
            && FlowHandler(flows[1..][i], StateIn(active, flows[1..][i]), ev) == Some(r.handler)
            && forall j :: 0 <= j < i ==> FlowHandler(flows[1..][j], StateIn(active, flows[1..][j]), ev).None?;
          assert flows[i + 1] == r.flow;
          assert forall j :: 0 <= j < i + 1 ==> FlowHandler(flows[j], StateIn(active, flows[j]), ev).None? by {
            forall j | 0 <= j < i + 1 ensures FlowHandler(flows[j], StateIn(active, flows[j]), ev).None? {
              if j > 0 {
                assert flows[j] == flows[1..][j - 1];
              }
            }
          }
        }
        if exists i :: 0 <= i < |flows| && FlowHandler(flows[i], StateIn(active, flows[i]), ev).Some? {
          var i :| 0 <= i < |flows| && FlowHandler(flows[i], StateIn(active, flows[i]), ev).Some?;
          assert i > 0;
          assert flows[1..][i - 1] == flows[i];
        }
      }
    }
  }

  /** The handler an update reaches in conversation f: which kind of update
      it gets, and whether it is an entry point. */
  predicate Accepts(h: Handler, ev: Event) {
    match h
    case OnLoginStart => IsButton(ev, LoginButton)
    case OnAddUserStart => IsButton(ev, AddUserButton)
    case OnManageMenuStart => IsButton(ev, ManageMenuButton)
    case OnEditUserMealsStart => IsButton(ev, EditMealsButton)
    case OnMyMealsStart => IsButton(ev, MyMealsButton)
    case OnChangePasswordStart => IsButton(ev, ChangePasswordButton)
    case OnLoginUsername => ev.Text?
    case OnLoginPassword => ev.Text?
    case OnAddUserUsername => ev.Text?
    case OnAddUserFullname => ev.Text?
    case OnAddUserPassword => ev.Text?
    case OnChangePasswordCurrent => ev.Text?
    case OnChangePasswordNew => ev.Text?
    case OnChangePasswordConfirm => ev.Text?
    case OnMenuSelectWeek => PressStarts(ev, "menu_week_")
    case OnMenuSelectDay => PressStarts(ev, "menu_day_")
    case OnDeleteMenuItem => PressStarts(ev, "delete_meal_") || PressStarts(ev, "delete_dessert_")
    case OnConfirmDelete => PressStarts(ev, "confirm_delete_")
    case OnEditUserSelectUser => PressStarts(ev, "edituser_")
    case OnEditUserSelectWeek => PressStarts(ev, "edituser_week_")
    case OnEditUserSelectDay => PressStarts(ev, "edituser_day_")
    case OnSetUserMealDessert => PressStarts(ev, "setmeal_") || PressStarts(ev, "setdessert_")
    case OnCancel => ev == Command("cancel")
    case OnEndConversation => ev.Press?
  }

  predicate IsEntry(h: Handler) {
    h in {OnLoginStart, OnAddUserStart, OnManageMenuStart, OnEditUserMealsStart, OnMyMealsStart, OnChangePasswordStart}
  }

  /** The states a handler can return. */
  predicate Returns(h: Handler, s: State) {
    match h
    case OnLoginStart => s == LoginUsername
    case OnLoginUsername => s == LoginPassword
    case OnLoginPassword => s == LoginUsername
    case OnAddUserStart => s == AddUserUsername
    case OnAddUserUsername => s in {AddUserUsername, AddUserFullname}
    case OnAddUserFullname => s == AddUserPassword
    case OnAddUserPassword => s == AddUserPassword
    case OnManageMenuStart => s == SelectWeek
    case OnMenuSelectWeek => s == SelectDay
    case OnMenuSelectDay => s == SelectDay
    case OnDeleteMenuItem => s == SelectDay
    case OnConfirmDelete => s == SelectDay
    case OnEditUserMealsStart => s == EditUserSelect
    case OnEditUserSelectUser => s == EditUserWeek
    case OnEditUserSelectWeek => s == EditUserDay
    case OnEditUserSelectDay => s == EditUserDay
    case OnSetUserMealDessert => s == EditUserDay
    case OnMyMealsStart => s == EditUserWeek
    case OnChangePasswordStart => s == ChangePasswordCurrent
    case OnChangePasswordCurrent => s in {ChangePasswordCurrent, ChangePasswordNew}
    case OnChangePasswordNew => s in {ChangePasswordNew, ChangePasswordConfirm}
    case OnChangePasswordConfirm => s == ChangePasswordNew
    case OnCancel => false
    case OnEndConversation => false
  }

  /** What a conversation's handler gets: an update its pattern accepts, an
      entry point only while the conversation is not active, and a result
      state that is in the conversation's own table. */
  lemma FlowHandlerSound(f: Flow, st: Option<State>, ev: Event)
    requires st.Some? ==> FlowState(f, st.value)
    requires FlowHandler(f, st, ev).Some?
    ensures Accepts(FlowHandler(f, st, ev).value, ev)
    ensures IsEntry(FlowHandler(f, st, ev).value) <==> st.None?
    ensures forall s :: Returns(FlowHandler(f, st, ev).value, s) ==> FlowState(f, s)
  {
    if st.Some? && StateHandler(f, st.value, ev).Some? {
      StateHandlerAccepts(f, st.value, ev);
      StateHandlerReturns(f, st.value, ev);
    }
  }

  /** The handlers of a state's table accept their update and are no
      entry points. */
  lemma StateHandlerAccepts(f: Flow, s: State, ev: Event)
    requires FlowState(f, s) && StateHandler(f, s, ev).Some?
    ensures Accepts(StateHandler(f, s, ev).value, ev)
    ensures !IsEntry(StateHandler(f, s, ev).value)
  {
  }

  /** The handlers of a state's table return states of the same conversation. */
  lemma StateHandlerReturns(f: Flow, s: State, ev: Event)
    requires FlowState(f, s) && StateHandler(f, s, ev).Some?
    ensures forall s' :: Returns(StateHandler(f, s, ev).value, s') ==> FlowState(f, s')
  {
    StateHandlerListed(f, s, ev);
    StateTableReturns(f, s, StateHandler(f, s, ev).value);
  }

  /** The handlers a state's table lists, whatever the update. */
  function StateTable(f: Flow, s: State): set<Handler> {
    match (f, s)
    case (Login, LoginUsername) => {OnLoginUsername}
    case (Login, LoginPassword) => {OnLoginPassword}
    case (AddUser, AddUserUsername) => {OnAddUserUsername}
    case (AddUser, AddUserFullname) => {OnAddUserFullname}
    case (AddUser, AddUserPassword) => {OnAddUserPassword}
    case (Menu, SelectWeek) => {OnMenuSelectWeek}
    case (Menu, SelectDay) => {OnMenuSelectDay, OnDeleteMenuItem, OnConfirmDelete, OnEndConversation}
    case (EditUser, EditUserSelect) => {OnEditUserSelectUser}
    case (EditUser, EditUserWeek) => {OnEditUserSelectWeek}
    case (EditUser, EditUserDay) => {OnEditUserSelectDay, OnSetUserMealDessert, OnEndConversation}
    case (MyMeals, EditUserWeek) => {OnEditUserSelectWeek}
    case (MyMeals, EditUserDay) => {OnEditUserSelectDay, OnSetUserMealDessert, OnEndConversation}
    case (ChangePassword, ChangePasswordCurrent) => {OnChangePasswordCurrent}
    case (ChangePassword, ChangePasswordNew) => {OnChangePasswordNew}
    case (ChangePassword, ChangePasswordConfirm) => {OnChangePasswordConfirm}
    case _ => {}
  }

  /** The handler a state picks is one its table lists. */
  lemma StateHandlerListed(f: Flow, s: State, ev: Event)
    requires StateHandler(f, s, ev).Some?
    ensures StateHandler(f, s, ev).value in StateTable(f, s)
  {
  }

  /** Every handler a state's table lists returns states of that conversation. */
  lemma StateTableReturns(f: Flow, s: State, h: Handler)
    requires FlowState(f, s) && h in StateTable(f, s)
    ensures forall s' :: Returns(h, s') ==> FlowState(f, s')
  {
  }

  /** The password change goes through its states in order: confirmation
      is reached only from CHANGE_PASSWORD_NEW by `change_password_new`, and
      CHANGE_PASSWORD_NEW is reached from CHANGE_PASSWORD_CURRENT only by
      `change_password_current`; the entry point reaches neither. */
  lemma PasswordStepsInOrder(st: Option<State>, ev: Event, s: State)
    requires st.Some? ==> FlowState(ChangePassword, st.value)
    requires FlowHandler(ChangePassword, st, ev).Some?
    requires Returns(FlowHandler(ChangePassword, st, ev).value, s)
    ensures s in {ChangePasswordNew, ChangePasswordConfirm} ==> st.Some?
    ensures s == ChangePasswordConfirm ==>
      st == Some(ChangePasswordNew) && FlowHandler(ChangePassword, st, ev).value == OnChangePasswordNew
    ensures s == ChangePasswordNew && st == Some(ChangePasswordCurrent) ==>
      FlowHandler(ChangePassword, st, ev).value == OnChangePasswordCurrent
  {
  }

  /** The user's active conversations are in states of their own tables. */
  predicate ValidActive(active: Active) {
    forall f :: f in active ==> FlowState(f, active[f])
  }

  /** The same for the routed update. */
  lemma RouteSound(active: Active, ev: Event)
    requires ValidActive(active)
    requires Route(active, ev).InFlow?
    ensures Accepts(Route(active, ev).handler, ev)
    ensures IsEntry(Route(active, ev).handler) <==> Route(active, ev).flow !in active
    ensures forall s :: Returns(Route(active, ev).handler, s) ==> FlowState(Route(active, ev).flow, s)
  {
    RouteFromFirstMatch(Flows, active, ev);
    var r := Route(active, ev);
    var i :| 0 <= i < |Flows| && Flows[i] == r.flow
      && FlowHandler(Flows[i], StateIn(active, Flows[i]), ev) == Some(r.handler);
    FlowHandlerSound(r.flow, StateIn(active, r.flow), ev);
  }

  // ------------------------------------------------------------ results

  /** What a handler reports back: the next state, END, or an exception. */
  datatype Outcome = Goto(next: State) | End | Crash(error: PyError)

  /** The conversation's new state: END removes it, an exception leaves the
      state as it was, any other result becomes the new state. */
  function Step(active: Active, f: Flow, out: Outcome): (r: Active)
    ensures forall g :: g != f ==> StateIn(r, g) == StateIn(active, g)
    ensures out.Goto? ==> StateIn(r, f) == Some(out.next)
    ensures out.End? ==> StateIn(r, f) == None
    ensures out.Crash? ==> r == active
  {
    match out
    case Goto(s) => active[f := s]
    case End => active - {f}
    case Crash(_) => active
  }

  /** A result state from the conversation's own table keeps every active
      conversation in one of its own states. */
  lemma StepKeepsValid(active: Active, f: Flow, out: Outcome)
    requires ValidActive(active)
    requires out.Goto? ==> FlowState(f, out.next)
    ensures ValidActive(Step(active, f, out))
  {
  }

  // ------------------------------------------------------------ consequences

  /** While a conversation waits in a text state, every text message goes
      to a conversation and never to `handle_text`: the logout button and
      the item messages are then taken as input by that conversation. */
  lemma TextStateCapturesText(active: Active, f: Flow, t: string)
    requires f in active && TextState(active[f]) && FlowState(f, active[f])
    ensures Route(active, Text(t)).InFlow?
  {
    var i := if f == Login then 0 else if f == AddUser then 1 else if f == Menu then 2
      else if f == EditUser then 3 else if f == MyMeals then 4 else 5;
    assert Flows[i] == f;
    assert FlowHandler(Flows[i], StateIn(active, Flows[i]), Text(t)).Some?;
    RouteFromFirstMatch(Flows, active, Text(t));
  }

  /** The first conversation in registration order that is active. */
  function FirstActive(flows: seq<Flow>, active: Active): Option<Flow>
    decreases |flows|
  {
    if |flows| == 0 then None
    else if flows[0] in active then Some(flows[0])
    else FirstActive(flows[1..], active)
  }

  /** `/cancel` reaches the first active conversation, whatever its state,
      and is dropped when none is active. */
  lemma {:induction false} CancelGoesToFirstActive(flows: seq<Flow>, active: Active)
    requires ValidActive(active)
    ensures RouteFrom(flows, active, Command("cancel")) ==
      (if FirstActive(flows, active).Some? then InFlow(FirstActive(flows, active).value, OnCancel) else Unhandled)
    decreases |flows|
  {
    if |flows| > 0 {
      CancelGoesToFirstActive(flows[1..], active);
      if flows[0] in active {
        var s := active[flows[0]];
        assert StateHandler(flows[0], s, Command("cancel")).None?;
      }
    }
  }

  /** Buttons whose data no pattern accepts: the back button of the day
      menu (`menu_back`) and the section headers of the meal list
      (`ignore`) are dropped whatever the user's conversations. */
  lemma DeadButtons(active: Active)
    ensures Route(active, Press("menu_back")) == Unhandled
    ensures Route(active, Press("ignore")) == Unhandled
  {
    NoFlowAccepts(Flows, active, Press("menu_back"));
    NoFlowAccepts(Flows, active, Press("ignore"));
  }

  lemma {:induction false} NoFlowAccepts(flows: seq<Flow>, active: Active, ev: Event)
    requires ev == Press("menu_back") || ev == Press("ignore")
    ensures RouteFrom(flows, active, ev) == Unhandled
    decreases |flows|
  {
    if |flows| > 0 {
      var f := flows[0];
      var st := StateIn(active, f);
      if ev == Press("menu_back") {
        DiffersAt(ev.data, "menu_week_", 5);
        DiffersAt(ev.data, "menu_day_", 5);
      }
      assert !StartsWith(ev.data, "menu_week_") && !StartsWith(ev.data, "menu_day_");
      assert !StartsWith(ev.data, "delete_meal_") && !StartsWith(ev.data, "delete_dessert_");
      assert !StartsWith(ev.data, "confirm_delete_") && !StartsWith(ev.data, "edituser_");
      assert !StartsWith(ev.data, "edituser_week_") && !StartsWith(ev.data, "edituser_day_");
      assert !StartsWith(ev.data, "setmeal_") && !StartsWith(ev.data, "setdessert_");
      assert FlowHandler(f, st, ev).None?;
      NoFlowAccepts(flows[1..], active, ev);
    }
  }

  /** Branches the handlers test for that routing never lets through:
      `menu_select_day` never sees `menu_back`, `menu_select_week` never sees
      `menu_cancel`, `edit_user_select_day` never sees `edituser_done`, and
      `set_user_meal_dessert` never sees `ignore`. */
  lemma GuardedBranchesUnreachable(active: Active, ev: Event)
    requires ValidActive(active) && Route(active, ev).InFlow?
    ensures Route(active, ev).handler == OnMenuSelectDay ==> ev != Press("menu_back")
    ensures Route(active, ev).handler == OnMenuSelectWeek ==> ev != Press("menu_cancel")
    ensures Route(active, ev).handler == OnEditUserSelectDay ==> ev != Press("edituser_done")
    ensures Route(active, ev).handler == OnSetUserMealDessert ==> ev != Press("ignore")
  {
    RouteSound(active, ev);
    DiffersAt("menu_back", "menu_day_", 5);
    DiffersAt("menu_cancel", "menu_week_", 5);
    DiffersAt("edituser_done", "edituser_day_", 10);
  }
}
