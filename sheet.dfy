/** The meal-plan worksheet as the handlers see it after loading it afresh:
    rows 1 and 2 are headers, from row 3 on column 1 holds a user's full name
    and the slot columns of `Layout` hold that user's meal and dessert
    choices (meal_bot.py:69-100, 344-351, 721-732, 808-829). */
module Sheet {
  import opened Wrappers
  import Layout

  /** The non-empty cells by (row, column), and openpyxl's `max_row`. A cell
      that is absent is empty (`value` is None). */
  datatype Grid = Grid(cells: map<(int, int), string>, maxRow: int)

  /** `max_row` bounds every stored cell; openpyxl saves an empty string as an
      empty cell, so no stored value is empty. */
  ghost predicate WellFormed(g: Grid) {
    && g.maxRow >= 1
    && (forall k :: k in g.cells ==> 1 <= k.0 <= g.maxRow && 1 <= k.1)
    && (forall k :: k in g.cells ==> g.cells[k] != "")
  }

  /** `ws.cell(row, column=col, value=v)` followed by a save and a reload. */
  function Write(g: Grid, row: int, col: int, v: string): (h: Grid)
    requires row >= 1 && col >= 1
    ensures WellFormed(g) ==> WellFormed(h)
    ensures forall k :: k != (row, col) ==> (k in h.cells <==> k in g.cells)
    ensures forall k :: k != (row, col) && k in g.cells ==> h.cells[k] == g.cells[k]
    ensures (row, col) in h.cells <==> v != ""
    ensures v != "" ==> h.cells[(row, col)] == v
  {
    Grid(if v == "" then g.cells - {(row, col)} else g.cells[(row, col) := v],
         if row > g.maxRow then row else g.maxRow)
  }

  /** `create_excel`: a sheet holding only the two header rows. */
  method NewSheet() returns (g: Grid)
    ensures WellFormed(g) && g.maxRow == 2
    ensures forall k :: k in g.cells <==> Layout.IsHeaderCell(k.0, k.1)
    ensures forall w, d :: Layout.ValidSlot(w, d) ==> Layout.HasDayHeader(g.cells, w, d)
  {
    var cells := Layout.HeaderCells();
    Layout.HeaderValuesNonEmpty(cells);
    g := Grid(cells, 2);
  }

  /** Column 1 of `row` holds `name`. */
  predicate HasName(g: Grid, row: int, name: string) {
    (row, 1) in g.cells && g.cells[(row, 1)] == name
  }

  /** Column 1 of `row` is not empty (`ws.cell(row=row, column=1).value` is truthy). */
  predicate Filled(g: Grid, row: int) {
    (row, 1) in g.cells
  }

  /** `row` is the first row from 3 on whose name cell holds `name`. */
  ghost predicate IsUserRow(g: Grid, name: string, row: int) {
    3 <= row && HasName(g, row, name) && forall r :: 3 <= r < row ==> !HasName(g, r, name)
  }

  /** `row` is the first row from 3 on whose name cell is empty. */
  ghost predicate IsFirstEmptyRow(g: Grid, row: int) {
    3 <= row && !Filled(g, row) && forall r :: 3 <= r < row ==> Filled(g, r)
  }

  /** The rows from r to max_row+1, in order: the first whose name cell
      equals `name`. */
  function UserRowFrom(g: Grid, name: string, r: int): Option<int>
    decreases g.maxRow + 2 - r
  {
    if r >= g.maxRow + 2 then None
    else if HasName(g, r, name) then Some(r)
    else UserRowFrom(g, name, r + 1)
  }

  /** `for row in range(3, ws.max_row + 2)` with `break` at the first match. */
  function UserRow(g: Grid, name: string): Option<int> {
    UserRowFrom(g, name, 3)
  }

  /** The user-row lookup of `edit_user_select_day` and `set_user_meal_dessert`:
      rows 3 .. max_row+1 in order, the first whose name cell equals `name`,
      or None when no row from 3 on holds that name. */
  method FindUserRow(g: Grid, name: string) returns (row: Option<int>)
    requires WellFormed(g)
    ensures row == UserRow(g, name)
    ensures row.Some? ==> IsUserRow(g, name, row.value)
    ensures row.None? ==> forall r :: 3 <= r ==> !HasName(g, r, name)
  {
    var r := 3;
    while r < g.maxRow + 2
      invariant 3 <= r
      invariant forall r' :: 3 <= r' < r ==> !HasName(g, r', name)
      invariant UserRowFrom(g, name, r) == UserRow(g, name)
      decreases g.maxRow + 2 - r
    {
      if HasName(g, r, name) {
        return Some(r);
      }
      r := r + 1;
    }
    return None;
  }

  /** The lookup finds a name exactly at its user row, and finds nothing
      when no row from 3 on holds it. */
  lemma {:induction false} UserRowFromCorrect(g: Grid, name: string, r: int)
    requires WellFormed(g) && 3 <= r
    requires forall r' :: 3 <= r' < r ==> !HasName(g, r', name)
    ensures UserRowFrom(g, name, r).Some? ==> IsUserRow(g, name, UserRowFrom(g, name, r).value)
    ensures UserRowFrom(g, name, r).None? ==> forall r' :: 3 <= r' ==> !HasName(g, r', name)
    ensures forall row :: IsUserRow(g, name, row) ==> UserRowFrom(g, name, r) == Some(row)
    decreases g.maxRow + 2 - r
  {
    if r < g.maxRow + 2 && !HasName(g, r, name) {
      UserRowFromCorrect(g, name, r + 1);
    }
  }

  lemma UserRowCorrect(g: Grid, name: string)
    requires WellFormed(g)
    ensures UserRow(g, name).Some? <==> exists row :: IsUserRow(g, name, row)
    ensures UserRow(g, name).Some? ==> IsUserRow(g, name, UserRow(g, name).value)
    ensures forall row :: IsUserRow(g, name, row) ==> UserRow(g, name) == Some(row)
  {
    UserRowFromCorrect(g, name, 3);
  }

  /** From row r on, the first row whose name cell is empty. Rows past
      `max_row` are empty, so the search stops. */
  function FirstEmptyFrom(g: Grid, r: int): (row: int)
    requires WellFormed(g)
    ensures row >= r && !Filled(g, row)
    ensures forall r' :: r <= r' < row ==> Filled(g, r')
    decreases g.maxRow + 1 - r
  {
    if Filled(g, r) then FirstEmptyFrom(g, r + 1) else r
  }

  function FirstEmpty(g: Grid): (row: int)
    requires WellFormed(g)
    ensures IsFirstEmptyRow(g, row)
  {
    FirstEmptyFrom(g, 3)
  }

  /** The `while ws.cell(row=row, column=1).value: row += 1` loop of
      `add_user_password`: the first empty name cell from row 3 on. */
  method FirstEmptyRow(g: Grid) returns (row: int)
    requires WellFormed(g)
    ensures row == FirstEmpty(g)
    ensures IsFirstEmptyRow(g, row)
  {
    row := 3;
    while Filled(g, row)
      invariant 3 <= row
      invariant forall r :: 3 <= r < row ==> Filled(g, r)
      invariant FirstEmptyFrom(g, row) == FirstEmpty(g)
      decreases g.maxRow + 1 - row
    {
      row := row + 1;
    }
  }

  /** A name has at most one user row. */
  lemma UserRowUnique(g: Grid, name: string, r1: int, r2: int)
    requires IsUserRow(g, name, r1) && IsUserRow(g, name, r2)
    ensures r1 == r2
  {
  }

  /** A name written into the first empty row is found there by the lookup,
      unless the same name already sits in an earlier row; an empty name is
      never found. */
  lemma AddedNameIsFound(g: Grid, name: string, row: int)
    requires WellFormed(g) && IsFirstEmptyRow(g, row)
    requires forall r :: 3 <= r < row ==> !HasName(g, r, name)
    ensures name != "" ==> IsUserRow(Write(g, row, 1, name), name, row)
    ensures name != "" ==> UserRow(Write(g, row, 1, name), name) == Some(row)
    ensures name == "" ==> forall r :: !HasName(Write(g, row, 1, name), r, name)
  {
    var h := Write(g, row, 1, name);
    forall r | 3 <= r < row ensures !HasName(h, r, name) {
      assert !HasName(g, r, name);
      assert (r, 1) != (row, 1);
      assert (r, 1) in h.cells <==> (r, 1) in g.cells;
      assert (r, 1) in g.cells ==> h.cells[(r, 1)] == g.cells[(r, 1)];
      assert !HasName(h, r, name);
    }
    if name != "" {
      UserRowCorrect(h, name);
    }
  }

  /** Writing a slot cell (column 2 or beyond) moves no user: every name keeps
      its user row. */
  lemma SlotWriteKeepsUserRows(g: Grid, row: int, col: int, v: string, name: string, r: int)
    requires row >= 1 && col >= 2
    requires IsUserRow(g, name, r)
    ensures IsUserRow(Write(g, row, col, v), name, r)
  {
    var h := Write(g, row, col, v);
    forall r' | 3 <= r' <= r ensures HasName(h, r', name) <==> HasName(g, r', name) {
      assert (r', 1) != (row, col);
    }
  }
}
