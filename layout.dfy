/** The column layout of the meal-plan sheet: column 1 holds a user's full
    name, and the cycle of 4 weeks x 5 days occupies columns 2..41, two
    adjacent columns (meal, dessert) per day, ten per week
    (meal_bot.py:78-85, 735-737, 819-826). */
module Layout {
  import opened PyText

  datatype Kind = Meal | Dessert

  const Weeks: int := 4
  const Days: int := 5

  predicate ValidSlot(week: int, day: int) {
    1 <= week <= Weeks && 1 <= day <= Days
  }

  /** `2 + (week_idx * 10) + (day_idx * 2)` with 1-based week and day. */
  function Column(week: int, day: int): int {
    2 + (week - 1) * 10 + (day - 1) * 2
  }

  /** The meal cell is at `Column`, the dessert cell is the column after it. */
  function SlotColumn(week: int, day: int, kind: Kind): int {
    Column(week, day) + (if kind == Dessert then 1 else 0)
  }

  /** Every slot of the cycle lands in columns 2..41. */
  lemma SlotColumnInRange(week: int, day: int, kind: Kind)
    requires ValidSlot(week, day)
    ensures 2 <= SlotColumn(week, day, kind) <= 41
  {
  }

  /** The slot stored in column c, for every column 2..41: the inverse of
      `SlotColumn`, so that every one of those columns belongs to a slot. */
  function SlotAt(c: int): (s: (int, int, Kind))
    requires 2 <= c <= 41
    ensures ValidSlot(s.0, s.1) && SlotColumn(s.0, s.1, s.2) == c
  {
    var q := (c - 2) / 10;
    var r := (c - 2) % 10;
    var e := r / 2;
    var kind := if r % 2 == 0 then Meal else Dessert;
    assert c - 2 == q * 10 + e * 2 + r % 2;
    (q + 1, e + 1, kind)
  }

  /** Two slots of the cycle never share a column. */
  lemma {:induction false} SlotColumnInjective(w1: int, d1: int, k1: Kind, w2: int, d2: int, k2: Kind)
    requires ValidSlot(w1, d1) && ValidSlot(w2, d2)
    requires SlotColumn(w1, d1, k1) == SlotColumn(w2, d2, k2)
    ensures w1 == w2 && d1 == d2 && k1 == k2
  {
    var c := SlotColumn(w1, d1, k1);
    var b1 := if k1 == Dessert then 1 else 0;
    var b2 := if k2 == Dessert then 1 else 0;
    assert c - 2 == (w1 - 1) * 10 + ((d1 - 1) * 2 + b1);
    assert c - 2 == (w2 - 1) * 10 + ((d2 - 1) * 2 + b2);
    BlockUnique(w1 - 1, (d1 - 1) * 2 + b1, w2 - 1, (d2 - 1) * 2 + b2, 10);
    BlockUnique(d1 - 1, b1, d2 - 1, b2, 2);
  }

  /** Block and offset within a block of width m are determined by the position. */
  lemma BlockUnique(q1: int, r1: int, q2: int, r2: int, m: int)
    requires m == 10 || m == 2
    requires 0 <= r1 < m && 0 <= r2 < m && q1 * m + r1 == q2 * m + r2
    ensures q1 == q2 && r1 == r2
  {
  }

  /** `SlotAt` undoes `SlotColumn`: the map is a bijection between the 40
      slots and columns 2..41. */
  lemma SlotAtColumn(week: int, day: int, kind: Kind)
    requires ValidSlot(week, day)
    ensures SlotAt(SlotColumn(week, day, kind)) == (week, day, kind)
  {
    var c := SlotColumn(week, day, kind);
    var s := SlotAt(c);
    SlotColumnInjective(week, day, kind, s.0, s.1, s.2);
  }

  // ------------------------------------------------------------ header rows

  const NameHeader: string := "نام و نام خانوادگی"
  const MealHeader: string := "غذا"
  const DessertHeader: string := "دسر"
  const DayNames: seq<string> := ["شنبه", "یکشنبه", "دوشنبه", "سه\U{200C}شنبه", "چهارشنبه"]
  const WeekWord: string := " - هفته "

  /** The row-1 title of a day: `f"{day} - هفته {week+1}"`. */
  function HeaderTitle(week: int, day: int): string
    requires ValidSlot(week, day)
  {
    DayNames[day - 1] + WeekWord + NatToString(week)
  }

  /** The cells the header loop fills: A1, one title per day in row 1, and a
      meal/dessert label pair per day in row 2. */
  predicate IsHeaderCell(row: int, col: int) {
    || (row == 1 && col == 1)
    || (row == 1 && 2 <= col <= 40 && col % 2 == 0)
    || (row == 2 && 2 <= col <= 41)
  }

  /** The three header cells of one day are in place. */
  ghost predicate HasDayHeader(cells: map<(int, int), string>, week: int, day: int)
    requires ValidSlot(week, day)
  {
    && (1, Column(week, day)) in cells && cells[(1, Column(week, day))] == HeaderTitle(week, day)
    && (2, SlotColumn(week, day, Meal)) in cells && cells[(2, SlotColumn(week, day, Meal))] == MealHeader
    && (2, SlotColumn(week, day, Dessert)) in cells && cells[(2, SlotColumn(week, day, Dessert))] == DessertHeader
  }

  /** The header loop of `create_excel`: `col` starts at 2 and advances by 2
      per day, week after week; each day gets its title in row 1 and its
      meal/dessert labels in row 2.  The column it gives a day is exactly the
      one `Column` computes, and it writes no other cell. */
  method HeaderCells() returns (cells: map<(int, int), string>)
    ensures forall k :: k in cells <==> IsHeaderCell(k.0, k.1)
    ensures (1, 1) in cells && cells[(1, 1)] == NameHeader
    ensures forall w, d :: ValidSlot(w, d) ==> HasDayHeader(cells, w, d)
  {
    cells := map[(1, 1) := NameHeader];
    var week := 0;
    while week < 4
      invariant 0 <= week <= 4
      invariant HeadersBefore(cells, 2 + week * 10)
      invariant forall w, d :: ValidSlot(w, d) && w <= week ==> HasDayHeader(cells, w, d)
    {
      cells := WeekHeaders(cells, week);
      week := week + 1;
    }
  }

  /** The cells written before column `col`: A1, and the title and labels of
      every day left of `col`. */
  ghost predicate HeadersBefore(cells: map<(int, int), string>, col: int) {
    && (forall k :: k in cells <==>
         (k == (1, 1) || (k.0 == 1 && 2 <= k.1 < col && k.1 % 2 == 0) || (k.0 == 2 && 2 <= k.1 < col)))
    && (1, 1) in cells && cells[(1, 1)] == NameHeader
  }

  /** Writing one day's three cells at an even column extends the written
      block by two columns. */
  lemma HeadersStep(cells: map<(int, int), string>, col: int, next: map<(int, int), string>)
    requires 2 <= col && col % 2 == 0 && HeadersBefore(cells, col)
    requires next.Keys == cells.Keys + {(1, col), (2, col), (2, col + 1)}
    requires next[(1, 1)] == cells[(1, 1)]
    ensures HeadersBefore(next, col + 2)
  {
  }

  /** One pass of the inner loop of `create_excel`: the five days of week
      `week + 1`, left to right. */
  method WeekHeaders(cells0: map<(int, int), string>, week: int) returns (cells: map<(int, int), string>)
    requires 0 <= week < 4
    requires HeadersBefore(cells0, 2 + week * 10)
    requires forall w, d :: ValidSlot(w, d) && w <= week ==> HasDayHeader(cells0, w, d)
    ensures HeadersBefore(cells, 2 + (week + 1) * 10)
    ensures forall w, d :: ValidSlot(w, d) && w <= week + 1 ==> HasDayHeader(cells, w, d)
  {
    cells := cells0;
    var col := 2 + week * 10;
    var day := 0;
    while day < 5
      invariant 0 <= day <= 5 && col == 2 + week * 10 + day * 2
      invariant HeadersBefore(cells, col)
      invariant forall w, d :: ValidSlot(w, d) && (w <= week || (w == week + 1 && d <= day)) ==> HasDayHeader(cells, w, d)
    {
      ghost var before := cells;
      cells := cells[(1, col) := HeaderTitle(week + 1, day + 1)];
      cells := cells[(2, col) := MealHeader];
      cells := cells[(2, col + 1) := DessertHeader];
      HeadersStep(before, col, cells);
      forall w, d | ValidSlot(w, d) && (w <= week || (w == week + 1 && d <= day + 1))
        ensures HasDayHeader(cells, w, d)
      {
        if w <= week || d <= day {
          assert HasDayHeader(before, w, d);
          assert Column(w, d) + 1 < col;
        }
      }
      col := col + 2;
      day := day + 1;
    }
  }

  /** A sheet holding exactly the header cells has no empty value: every
      header cell is A1 or belongs to a day whose labels are in place. */
  lemma HeaderValuesNonEmpty(cells: map<(int, int), string>)
    requires forall k :: k in cells <==> IsHeaderCell(k.0, k.1)
    requires (1, 1) in cells && cells[(1, 1)] == NameHeader
    requires forall w, d :: ValidSlot(w, d) ==> HasDayHeader(cells, w, d)
    ensures forall k :: k in cells ==> cells[k] != ""
  {
    forall k | k in cells ensures cells[k] != "" {
      if k != (1, 1) {
        var s := SlotAt(k.1);
        assert HasDayHeader(cells, s.0, s.1);
        if k.0 == 1 {
          assert s.2 == Meal;
          assert |HeaderTitle(s.0, s.1)| > 0;
        }
      }
    }
  }

  /** Different days have different titles, so the header row pins down the
      day a column belongs to. */
  lemma HeaderTitleInjective(w1: int, d1: int, w2: int, d2: int)
    requires ValidSlot(w1, d1) && ValidSlot(w2, d2)
    requires HeaderTitle(w1, d1) == HeaderTitle(w2, d2)
    ensures w1 == w2 && d1 == d2
  {
    var t1 := HeaderTitle(w1, d1);
    var t2 := HeaderTitle(w2, d2);
    assert NatToString(w1) == [DigitChar(w1)];
    assert NatToString(w2) == [DigitChar(w2)];
    assert t1[|t1| - 1] == DigitChar(w1);
    assert t2[|t2| - 1] == DigitChar(w2);
    var n1 := DayNames[d1 - 1];
    var n2 := DayNames[d2 - 1];
    assert t1[..|t1| - |WeekWord| - 1] == n1;
    assert t2[..|t2| - |WeekWord| - 1] == n2;
  }
}
