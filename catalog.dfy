/** The daily menu catalog: for each of the 4 x 5 days of the cycle, an
    ordered list of meals and an ordered list of desserts, keyed by the
    `week_{w}` / `day_{d}` strings of the JSON file (meal_bot.py:50-56). */
module Catalog {
  import opened Wrappers
  import opened PyText
  import opened Layout

  datatype DayMenu = DayMenu(meals: seq<string>, desserts: seq<string>)

  /** `menu_data[f'week_{w}'][f'day_{d}']` is `menu[(w, d)]`: a key pair is
      present exactly when both JSON keys are. */
  type Menus = map<(string, string), DayMenu>

  const WeekKeys: set<string> := {"1", "2", "3", "4"}
  const DayKeys: set<string> := {"1", "2", "3", "4", "5"}

  /** The twenty (week, day) keys that `initialize_files` creates. */
  function CatalogKeys(): (ks: set<(string, string)>)
    ensures forall w, d :: (w, d) in ks <==> w in WeekKeys && d in DayKeys
  {
    set w, d | w in WeekKeys && d in DayKeys :: (w, d)
  }

  /** The default catalog: every day of every week with no meals and no desserts. */
  function InitialMenu(): (m: Menus)
    ensures m.Keys == CatalogKeys()
    ensures forall k :: k in m ==> m[k] == DayMenu([], [])
  {
    map k | k in CatalogKeys() :: DayMenu([], [])
  }

  /** A catalog key names a slot of the sheet: its strings are the decimal
      forms of a week 1..4 and a day 1..5. */
  lemma CatalogKeyIsSlot(w: string, d: string)
    requires (w, d) in CatalogKeys()
    ensures ParseInt(w).Ok? && ParseInt(d).Ok?
    ensures ValidSlot(ParseInt(w).value, ParseInt(d).value)
    ensures NatToString(ParseInt(w).value) == w && NatToString(ParseInt(d).value) == d
  {
    SmallKey(w);
    SmallKey(d);
  }

  /** Each key string is `str(n)` for its number n in 1..5, and `int` reads n back. */
  lemma SmallKey(k: string)
    requires k in DayKeys
    ensures ParseInt(k).Ok? && 1 <= ParseInt(k).value <= 5 && (k in WeekKeys <==> ParseInt(k).value <= 4)
    ensures NatToString(ParseInt(k).value) == k
  {
    var n: nat := if k == "1" then 1 else if k == "2" then 2 else if k == "3" then 3 else if k == "4" then 4 else 5;
    assert NatToString(n) == [DigitChar(n)];
    assert NatToString(n) == k;
    ParseNatToString(n);
  }

  /** The list of one kind: `meals` for Meal, `desserts` for Dessert. */
  function Items(dm: DayMenu, kind: Kind): seq<string> {
    if kind == Meal then dm.meals else dm.desserts
  }

  /** The day menu with the list of `kind` replaced and the other list kept. */
  function WithItems(dm: DayMenu, kind: Kind, items: seq<string>): (r: DayMenu)
    ensures Items(r, kind) == items
    ensures forall k :: k != kind ==> Items(r, k) == Items(dm, k)
  {
    if kind == Meal then dm.(meals := items) else dm.(desserts := items)
  }

  /** `list.pop(idx)`: an index in -len .. len-1 selects position idx (from
      the end when negative); any other index raises IndexError, as does
      every pop from an empty list. */
  function PopIndex(len: nat, idx: int): (r: Result<nat>)
    ensures r.Ok? <==> -(len as int) <= idx < len
    ensures r.Err? ==> r.error == IndexError
    ensures r.Ok? ==> r.value < len && (r.value == idx || r.value == idx + len)
  {
    if 0 <= idx < len then Ok(idx)
    else if -(len as int) <= idx < 0 then Ok(idx + len)
    else Err(IndexError)
  }

  /** The list with position i taken out: one shorter, the elements before i
      in place, the elements after i shifted down by one. */
  function RemoveAt<T>(s: seq<T>, i: nat): (r: seq<T>)
    requires i < |s|
    ensures |r| == |s| - 1
    ensures forall k :: 0 <= k < i ==> r[k] == s[k]
    ensures forall k :: i <= k < |r| ==> r[k] == s[k + 1]
  {
    s[..i] + s[i + 1..]
  }

  /** Removing position i loses exactly one copy of `s[i]` and nothing else. */
  lemma RemoveAtMultiset<T>(s: seq<T>, i: nat)
    requires i < |s|
    ensures multiset(RemoveAt(s, i)) + multiset{s[i]} == multiset(s)
  {
    assert s == s[..i] + [s[i]] + s[i + 1..];
    calc {
      multiset(s);
      multiset(s[..i] + [s[i]] + s[i + 1..]);
      multiset(s[..i]) + multiset{s[i]} + multiset(s[i + 1..]);
      multiset(RemoveAt(s, i)) + multiset{s[i]};
    }
  }

  /** Removing position i keeps every other element in its relative order:
      the result is the order-preserving subsequence of `s` that skips i. */
  lemma RemoveAtKeepsOrder<T>(s: seq<T>, i: nat, a: nat, b: nat)
    requires i < |s| && a < b < |s| && a != i && b != i
    ensures var r := RemoveAt(s, i);
      var a' := if a < i then a else a - 1;
      var b' := if b < i then b else b - 1;
      a' < b' && r[a'] == s[a] && r[b'] == s[b]
  {
  }

  // ------------------------------------------------------------ adding items

  const MealPrefix: string := "غذا:"
  const DessertPrefix: string := "دسر:"

  /** The message asks to add something: it starts with one of the two prefixes. */
  predicate IsAddRequest(text: string) {
    StartsWith(text, MealPrefix) || StartsWith(text, DessertPrefix)
  }

  /** The list an add request goes to: meals when the text starts with the
      meal prefix, desserts otherwise. */
  function AddKind(text: string): Kind {
    if StartsWith(text, MealPrefix) then Meal else Dessert
  }

  function PrefixOf(kind: Kind): (p: string)
    ensures |p| == 4
  {
    if kind == Meal then MealPrefix else DessertPrefix
  }

  /** The stored item name: `text.replace(prefix, '').strip()`. */
  function ItemName(text: string, kind: Kind): string {
    Strip(RemoveAll(text, PrefixOf(kind)))
  }

  /** For a message made of the prefix and a rest that does not contain the
      prefix again, the item is the rest with its surrounding whitespace
      removed. */
  lemma ItemNameOfRequest(kind: Kind, rest: string)
    requires !Occurs(rest, PrefixOf(kind))
    ensures ItemName(PrefixOf(kind) + rest, kind) == Strip(rest)
  {
    RemoveAllLeading(PrefixOf(kind), rest);
    RemoveAllNoOccurrence(rest, PrefixOf(kind));
  }

  /** `replace` removes the prefix wherever it occurs, not only at the start:
      "غذا:a غذا:b" is stored as "a b". */
  lemma ItemNameDropsInnerPrefix()
    ensures ItemName(MealPrefix + "a " + MealPrefix + "b", Meal) == "a b"
  {
    var p := MealPrefix;
    assert p + "a " + p + "b" == p + (['a'] + ([' '] + (p + "b")));
    RemoveAllLeading(p, ['a'] + ([' '] + (p + "b")));
    RemoveAllSkip('a', [' '] + (p + "b"), p);
    RemoveAllSkip(' ', p + "b", p);
    RemoveAllLeading(p, "b");
    assert RemoveAll("b", p) == "b";
    assert RemoveAll(p + "a " + p + "b", p) == "a b";
    StripUnchanged("a b");
  }
}
