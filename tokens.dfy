/** The callback tokens of the inline keyboards: how the handlers build them
    and how they take them apart again with `split('_')`
    (meal_bot.py:414, 461-463, 526-529, 542, 558-562, 600-603, 623, 653, 680,
    758, 767, 785-789). */
module Tokens {
  import opened Wrappers
  import opened PyText
  import opened Layout

  // ------------------------------------------------------------ token builders

  /** `f"menu_week_{w}"`, `f"menu_day_{d}"`, `f"edituser_week_{w}"`, `f"edituser_day_{d}"`. */
  function MenuWeekToken(w: string): string { "menu_week_" + w }
  function MenuDayToken(d: string): string { "menu_day_" + d }
  function EditWeekToken(w: string): string { "edituser_week_" + w }
  function EditDayToken(d: string): string { "edituser_day_" + d }

  /** The list names inside tokens: `meal` and `dessert`. */
  function TypeName(kind: Kind): string {
    if kind == Meal then "meal" else "dessert"
  }

  /** `f"delete_{meal|dessert}_{week}_{day}"`. */
  function DeleteToken(kind: Kind, w: string, d: string): string {
    "delete" + "_" + TypeName(kind) + "_" + w + "_" + d
  }

  /** `f"confirm_delete_{item_type}_{week}_{day}_{idx}"`. */
  function ConfirmDeleteToken(kind: Kind, w: string, d: string, idx: nat): string {
    "confirm" + "_" + "delete" + "_" + TypeName(kind) + "_" + w + "_" + d + "_" + NatToString(idx)
  }

  /** `f"setmeal_{week}_{day}_{meal}"` and `f"setdessert_{week}_{day}_{dessert}"`. */
  function SetToken(kind: Kind, w: string, d: string, item: string): string {
    (if kind == Meal then "setmeal" else "setdessert") + "_" + w + "_" + d + "_" + item
  }

  /** `f"edituser_{username}"`. */
  function EditUserToken(username: string): string { "edituser" + "_" + username }

  const EditCancelToken: string := "edituser_cancel"

  // ------------------------------------------------------------ parsers

  /** `query.data.split('_')[2]`: the week or day of a `menu_week_`,
      `menu_day_`, `edituser_week_` or `edituser_day_` token. */
  function ThirdPiece(data: string): (r: Result<string>)
    ensures r.Ok? <==> Count(data, '_') >= 2
    ensures r.Err? ==> r.error == IndexError
    ensures r.Ok? ==> '_' !in r.value
  {
    var parts := Split(data, '_');
    SplitPiecesHaveNoSep(data, '_');
    if |parts| < 3 then Err(IndexError) else Ok(parts[2])
  }

  /** What `delete_menu_item` reads: `parts[1]` chooses the list (anything but
      `meal` means desserts), `parts[2]` and `parts[3]` are week and day. */
  datatype DeleteRequest = DeleteRequest(kind: Kind, week: string, day: string)

  function ParseDelete(data: string): (r: Result<DeleteRequest>)
    ensures r.Ok? <==> Count(data, '_') >= 3
    ensures r.Err? ==> r.error == IndexError
  {
    var parts := Split(data, '_');
    if |parts| < 4 then Err(IndexError)
    else Ok(DeleteRequest(if parts[1] == "meal" then Meal else Dessert, parts[2], parts[3]))
  }

  /** What `confirm_delete` reads: `parts[2]` chooses the list, `parts[3]` and
      `parts[4]` are week and day, `int(parts[5])` is the index to pop. */
  datatype ConfirmRequest = ConfirmRequest(kind: Kind, week: string, day: string, index: int)

  function ParseConfirmDelete(data: string): (r: Result<ConfirmRequest>)
    ensures Count(data, '_') < 5 ==> r == Err(IndexError)
    ensures Count(data, '_') >= 5 ==> (r.Err? <==> ParseInt(Split(data, '_')[5]).Err?)
    ensures r.Err? ==> r.error in {IndexError, ValueError}
  {
    var parts := Split(data, '_');
    if |parts| < 6 then Err(IndexError)
    else
      match ParseInt(parts[5])
      case Err(e) => Err(e)
      case Ok(idx) => Ok(ConfirmRequest(if parts[2] == "meal" then Meal else Dessert, parts[3], parts[4], idx))
  }

  /** What `set_user_meal_dessert` reads: `parts[0]` chooses the column
      (anything but `setmeal` means the dessert column), `parts[1]` and
      `parts[2]` are week and day, and the item is `'_'.join(parts[3:])`. */
  datatype SetRequest = SetRequest(kind: Kind, week: string, day: string, item: string)

  function ParseSet(data: string): (r: Result<SetRequest>)
    ensures r.Ok? <==> Count(data, '_') >= 2
    ensures r.Err? ==> r.error == IndexError
  {
    var parts := Split(data, '_');
    if |parts| < 3 then Err(IndexError)
    else Ok(SetRequest(if parts[0] == "setmeal" then Meal else Dessert, parts[1], parts[2], Join(parts[3..], '_')))
  }

  /** `query.data.split('_')[1]`, as `edit_user_select_user` reads the user. */
  function EditUserNameAsWritten(data: string): (r: Result<string>)
    ensures r.Ok? <==> Count(data, '_') >= 1
    ensures r.Err? ==> r.error == IndexError
  {
    var parts := Split(data, '_');
    if |parts| < 2 then Err(IndexError) else Ok(parts[1])
  }

  /** `'_'.join(query.data.split('_')[1:])`: everything after the first `_`,
      the way `set_user_meal_dessert` reads its item. */
  function EditUserName(data: string): string {
    Join(Split(data, '_')[1..], '_')
  }

  // ------------------------------------------------------------ round trips

  /** Splitting at the first separator: the first piece and the pieces of the rest. */
  lemma SplitCons(a: string, rest: string)
    requires '_' !in a
    ensures Split(a + "_" + rest, '_') == [a] + Split(rest, '_')
  {
    SplitConcat(a, rest, '_');
    SplitNoSep(a, '_');
  }

  /** One more separator and a piece without it add one last piece. */
  lemma SplitAppend(x: string, y: string)
    requires '_' !in y
    ensures Split(x + "_" + y, '_') == Split(x, '_') + [y]
  {
    SplitConcat(x, y, '_');
    SplitNoSep(y, '_');
  }

  /** Six pieces without `_` joined by `_` split back into those pieces. */
  lemma SplitSixPieces(a: string, b: string, c: string, e: string, f: string, g: string)
    requires '_' !in a && '_' !in b && '_' !in c && '_' !in e && '_' !in f && '_' !in g
    ensures Split(a + "_" + b + "_" + c + "_" + e + "_" + f + "_" + g, '_') == [a, b, c, e, f, g]
  {
    SplitNoSep(a, '_');
    SplitAppend(a, b);
    SplitAppend(a + "_" + b, c);
    SplitAppend(a + "_" + b + "_" + c, e);
    SplitAppend(a + "_" + b + "_" + c + "_" + e, f);
    SplitAppend(a + "_" + b + "_" + c + "_" + e + "_" + f, g);
  }

  /** The week or day inside a week/day button comes back out unchanged. */
  lemma ThirdPieceOfToken(w: string)
    requires '_' !in w
    ensures ThirdPiece(MenuWeekToken(w)) == Ok(w)
    ensures ThirdPiece(MenuDayToken(w)) == Ok(w)
    ensures ThirdPiece(EditWeekToken(w)) == Ok(w)
    ensures ThirdPiece(EditDayToken(w)) == Ok(w)
  {
    assert MenuWeekToken(w) == "menu" + "_" + "week" + "_" + w;
    assert MenuDayToken(w) == "menu" + "_" + "day" + "_" + w;
    assert EditWeekToken(w) == "edituser" + "_" + "week" + "_" + w;
    assert EditDayToken(w) == "edituser" + "_" + "day" + "_" + w;
    ThirdPieceOf("menu", "week", w);
    ThirdPieceOf("menu", "day", w);
    ThirdPieceOf("edituser", "week", w);
    ThirdPieceOf("edituser", "day", w);
  }

  lemma ThirdPieceOf(a: string, b: string, w: string)
    requires '_' !in a && '_' !in b && '_' !in w
    ensures ThirdPiece(a + "_" + b + "_" + w) == Ok(w)
  {
    assert a + "_" + b + "_" + w == a + "_" + (b + "_" + w);
    SplitCons(a, b + "_" + w);
    SplitCons(b, w);
    SplitNoSep(w, '_');
  }

  /** A delete button names its list, week and day, and parsing gives them back. */
  lemma ParseDeleteToken(kind: Kind, w: string, d: string)
    requires '_' !in w && '_' !in d
    ensures ParseDelete(DeleteToken(kind, w, d)) == Ok(DeleteRequest(kind, w, d))
  {
    var t := TypeName(kind);
    assert DeleteToken(kind, w, d) == "delete" + "_" + (t + "_" + (w + "_" + d));
    SplitCons("delete", t + "_" + (w + "_" + d));
    SplitCons(t, w + "_" + d);
    SplitCons(w, d);
    SplitNoSep(d, '_');
  }

  /** The index a confirm-delete button carries is `int` of its last piece
      and comes back exactly. */
  lemma ParseConfirmDeleteToken(kind: Kind, w: string, d: string, idx: nat)
    requires '_' !in w && '_' !in d
    ensures ParseConfirmDelete(ConfirmDeleteToken(kind, w, d, idx)) == Ok(ConfirmRequest(kind, w, d, idx))
  {
    ConfirmTokenPieces(kind, w, d, idx);
    ParseConfirmOfPieces(ConfirmDeleteToken(kind, w, d, idx), kind, w, d, idx);
  }

  /** Any data with the six pieces of a confirm-delete button parses to its request. */
  lemma ParseConfirmOfPieces(data: string, kind: Kind, w: string, d: string, idx: nat)
    requires Split(data, '_') == ["confirm", "delete", TypeName(kind), w, d, NatToString(idx)]
    ensures ParseConfirmDelete(data) == Ok(ConfirmRequest(kind, w, d, idx))
  {
    ParseNatToString(idx);
  }

  /** A confirm-delete button splits into its six pieces. */
  lemma ConfirmTokenPieces(kind: Kind, w: string, d: string, idx: nat)
    requires '_' !in w && '_' !in d
    ensures Split(ConfirmDeleteToken(kind, w, d, idx), '_') == ["confirm", "delete", TypeName(kind), w, d, NatToString(idx)]
  {
    var t := TypeName(kind);
    var n := NatToString(idx);
    NatToStringNoSep(idx, '_');
    assert '_' !in "confirm" && '_' !in "delete" && '_' !in t;
    SplitSixPieces("confirm", "delete", t, w, d, n);
  }

  /** A set button gives back its week, day and item exactly, even when the
      item contains `_`: the item is joined back from all remaining pieces. */
  lemma ParseSetToken(kind: Kind, w: string, d: string, item: string)
    requires '_' !in w && '_' !in d
    ensures ParseSet(SetToken(kind, w, d, item)) == Ok(SetRequest(kind, w, d, item))
  {
    var k := if kind == Meal then "setmeal" else "setdessert";
    var data := SetToken(kind, w, d, item);
    assert data == k + "_" + (w + "_" + (d + "_" + item));
    SplitCons(k, w + "_" + (d + "_" + item));
    SplitCons(w, d + "_" + item);
    SplitCons(d, item);
    ParseSetOfPieces(data, k, kind, w, d, item);
  }

  /** Any data made of a set button's three leading pieces and the pieces
      of an item parses to that request. */
  lemma ParseSetOfPieces(data: string, k: string, kind: Kind, w: string, d: string, item: string)
    requires k == (if kind == Meal then "setmeal" else "setdessert")
    requires Split(data, '_') == [k, w, d] + Split(item, '_')
    ensures ParseSet(data) == Ok(SetRequest(kind, w, d, item))
  {
    var parts := Split(data, '_');
    assert parts[3..] == Split(item, '_');
    JoinSplit(item, '_');
  }

  /** The joined reading of a user button gives back the whole username. */
  lemma EditUserNameRoundTrip(username: string)
    ensures EditUserName(EditUserToken(username)) == username
  {
    SplitCons("edituser", username);
    assert Split(EditUserToken(username), '_')[1..] == Split(username, '_');
    JoinSplit(username, '_');
  }

  /** The two readings agree on usernames without `_`. */
  lemma EditUserNameAsWrittenNoSep(username: string)
    requires '_' !in username
    ensures EditUserNameAsWritten(EditUserToken(username)) == Ok(username)
  {
    SplitCons("edituser", username);
    SplitNoSep(username, '_');
  }

  /** `split('_')[1]` cuts a username that contains `_`: the button of user
      `ali_reza` selects `ali`. */
  lemma EditUserNameAsWrittenTruncates()
    ensures EditUserNameAsWritten(EditUserToken("ali_reza")) == Ok("ali")
    ensures EditUserName(EditUserToken("ali_reza")) == "ali_reza"
  {
    SplitCons("edituser", "ali_reza");
    assert "ali_reza" == "ali" + "_" + "reza";
    SplitCons("ali", "reza");
    EditUserNameRoundTrip("ali_reza");
  }

  /** The button of a user named `cancel` is the cancel button. */
  lemma CancelUserButton()
    ensures EditUserToken("cancel") == EditCancelToken
  {
  }
}
