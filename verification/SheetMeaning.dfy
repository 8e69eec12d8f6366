/**
 What the operations on sheet marks do to each row, told of the rows of the three lists
 (apps/web/src/lib/sheets.ts:48-207, 279-337).
 */
module SheetMeaning {
  import opened Options
  import opened JsText
  import opened TextLaws
  import opened SheetMarks
  import opened SheetProgress

  // ---- keys

  /** Ids are made of small letters, digits and hyphens. */
  lemma IdIs(s: string)
    ensures IdText(s) <==> s != "" && forall c :: c in s ==> c in "abcdefghijklmnopqrstuvwxyz" + "0123456789" + "-"
  {
    forall c ensures IdChar(c) <==> c in "abcdefghijklmnopqrstuvwxyz" + "0123456789" + "-" { IdCharIs(c); }
  }

  lemma IdCharIs(c: char)
    ensures IdChar(c) <==> c in "abcdefghijklmnopqrstuvwxyz" + "0123456789" + "-"
  {
    LettersAre(c);
  }

  lemma LettersAre(c: char)
    ensures 'a' <= c <= 'z' <==> c in "abcdefghijklmnopqrstuvwxyz"
    ensures '0' <= c <= '9' <==> c in "0123456789"
  {
  }

  /** A key is two ids and a number with slashes between them. */
  lemma KeyIff(k: string)
    ensures IsSheetKey(k) <==> exists a, b, n :: IdText(a) && IdText(b) && DigitText(n) && k == a + "/" + b + "/" + n
  {
    hide IdText, DigitText;
    if IsSheetKey(k) {
      var parts := Split(k, '/');
      JoinSplit(k, '/');
      JoinThree(parts);
      assert k == parts[0] + "/" + parts[1] + "/" + parts[2];
    }
    forall a, b, n | IdText(a) && IdText(b) && DigitText(n) && k == a + "/" + b + "/" + n ensures IsSheetKey(k) {
      DigitsHaveNoSlash(n);
      ItemKeySplits(a, b, n);
    }
  }

  lemma JoinThree(parts: seq<string>)
    requires |parts| == 3
    ensures Join(parts, "/") == parts[0] + "/" + parts[1] + "/" + parts[2]
  {
    assert parts[1..][1..] == [parts[2]] && parts[1..][0] == parts[1];
    assert Join(parts[1..], "/") == parts[1] + "/" + parts[2];
    Assoc(parts[0] + "/", parts[1] + "/", parts[2]);
    Assoc(parts[0] + "/", parts[1], "/");
  }

  lemma DigitsHaveNoSlash(n: string)
    requires DigitText(n)
    ensures Split(n, '/') == [n]
  {
  }

  // ---- lists

  /** Some text of the list is the key, but for white space, and the key can be stored. */
  predicate Listed(v: seq<string>, k: string) {
    (exists i :: 0 <= i < |v| && Trim(v[i]) == k) && k != "" && |k| <= 120 && IsSheetKey(k)
  }

  lemma {:induction false} InTrimEach(v: seq<string>, k: string)
    ensures k in TrimEach(v) <==> exists i :: 0 <= i < |v| && Trim(v[i]) == k
  {
    hide Trim;
    if v != [] {
      var front, last := v[..|v| - 1], v[|v| - 1];
      InTrimEach(front, k);
      assert forall i :: 0 <= i < |front| ==> front[i] == v[i];
    }
  }

  lemma NormalizeHas(v: seq<string>, k: string)
    ensures k in Normalize(v) <==> Listed(v, k)
  {
    hide IsSheetKey, Trim, TrimEach, TrimUnique;
    TrimUniqueMembers(v, Keeps, k);
    InTrimEach(v, k);
  }

  /** Cleaning keeps the storable keys of each list; manual marks win over automatic ones, and these over dismissals. */
  lemma CleanHas(m: Marks, k: string)
    ensures k in Clean(m).manual <==> Listed(m.manual, k)
    ensures k in Clean(m).auto <==> Listed(m.auto, k) && !Listed(m.manual, k)
    ensures k in Clean(m).dismissed <==> Listed(m.dismissed, k) && !Listed(m.manual, k) && !Listed(m.auto, k)
  {
    hide Listed, Normalize;
    NormalizeHas(m.manual, k);
    NormalizeHas(m.auto, k);
    NormalizeHas(m.dismissed, k);
  }

  /** Of the old list, only manual marks are taken over; text that does not parse leaves nothing. */
  lemma LoadedHas(v1: Stored<seq<string>>, v2: Stored<Marks>, k: string)
    ensures var m := Loaded(v1, v2);
      && (k in m.manual <==>
            (v2.Parsed? && Listed(v2.value.manual, k)) || (v2.Absent? && v1.Parsed? && Listed(v1.value, k)))
      && (k in m.auto <==> v2.Parsed? && k in Clean(v2.value).auto)
      && (k in m.dismissed <==> v2.Parsed? && k in Clean(v2.value).dismissed)
  {
    hide Listed, Normalize;
    if v1.Parsed? { NormalizeHas(v1.value, k); }
    if v2.Parsed? { NormalizeHas(v2.value.manual, k); }
  }

  // ---- one row

  datatype Place = Unmarked | Manually | Automatically | Dismissed

  /** Where a row stands in clean marks. */
  function PlaceOf(c: Marks, k: string): Place {
    if k in c.manual then Manually else if k in c.auto then Automatically
    else if k in c.dismissed then Dismissed else Unmarked
  }

  /** Where a toggle moves a row. */
  function Toggled(p: Place): Place {
    match p
    case Unmarked => Manually
    case Manually => Unmarked
    case Automatically => Dismissed
    case Dismissed => Manually
  }

  /** A toggle moves its row to its next place and no other row; without a key it moves none. */
  lemma ToggleMoves(base: Marks, key: string, x: string)
    ensures var k, c, t := Trim(key), Clean(base), Toggle(base, key);
      if !IsSheetKey(k) then t == base
      else PlaceOf(t, x) == (if x == k then Toggled(PlaceOf(c, k)) else PlaceOf(c, x)) && t.meta == base.meta
  {
    hide IsSheetKey, Trim, Normalize;
  }

  /** A feed marks the storable rows it brings that are unmarked, and moves no other row. */
  lemma FeedMoves(base: Marks, solved: seq<string>, meta: Option<string>, x: string)
    ensures var c, t := Clean(base), Feed(base, solved, meta);
      && PlaceOf(t, x) == (if PlaceOf(c, x).Unmarked? && Listed(solved, x) then Automatically else PlaceOf(c, x))
      && t.meta == (if meta.None? then base.meta else meta)
  {
    hide IsSheetKey, Trim, Normalize, Listed;
    NormalizeHas(solved, x);
  }

  /** A manual mark that is taken off is not held against the row: the next feed marks it again. An automatic one is. */
  lemma UnmarkedComesBack(base: Marks, k: string, meta: Option<string>)
    requires Storable(k) && PlaceOf(Clean(base), k) == Manually
    ensures PlaceOf(Toggle(base, k), k) == Unmarked
    ensures PlaceOf(Feed(Toggle(base, k), [k], meta), k) == Automatically
    ensures PlaceOf(Toggle(Feed(Toggle(base, k), [k], meta), k), k) == Dismissed
  {
    hide IsSheetKey, Normalize, Toggle, Feed, Clean, PlaceOf;
    var once := Toggle(base, k);
    ToggleMoves(base, k, k);
    FlippedIsClean(base, k);
    assert [k][0] == k;
    FeedMoves(once, [k], meta, k);
    FedIsClean(once, [k], meta);
    ToggleMoves(Feed(once, [k], meta), k, k);
  }

  lemma FlippedIsClean(base: Marks, k: string)
    requires Storable(k)
    ensures Clean(Toggle(base, k)) == Toggle(base, k)
  {
    hide IsSheetKey;
    FlipTidy(Clean(base), k);
    FlipStorable(Clean(base), k);
    CleanKeeps(Toggle(base, k));
  }

  lemma FedIsClean(base: Marks, solved: seq<string>, meta: Option<string>)
    ensures Clean(Feed(base, solved, meta)) == Feed(base, solved, meta)
  {
    hide IsSheetKey, Normalize;
    FeedTidy(base, solved, meta);
    CleanKeeps(Feed(base, solved, meta));
  }

  /** The rows shown as done are those marked, one way or the other. */
  lemma DoneIff(m: Marks, k: string)
    ensures k in Combined(m) <==> PlaceOf(Clean(m), k).Manually? || PlaceOf(Clean(m), k).Automatically?
  {
  }

  // ---- percentages

  /** `Math.round`: the nearest whole number, halves upwards. */
  lemma RoundIs(x: real, r: int)
    ensures r == Round(x) <==> r as real - 0.5 <= x < r as real + 0.5
  {
  }

  lemma PercentIs(done: nat, total: nat)
    ensures total == 0 ==> Percent(done, total) == 0
    ensures total > 0 ==> var p := Percent(done, total) as real;
      p - 0.5 <= 100.0 * done as real / total as real < p + 0.5
  {
    if total > 0 {
      var x := done as real / total as real * 100.0;
      RoundIs(x, Percent(done, total));
      assert x == 100.0 * done as real / total as real;
    }
  }
}
