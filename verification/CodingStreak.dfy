/** Current and longest activity streaks (apps/web/src/lib/codingStreak.ts:177-226). */
module CodingStreak {
  import opened Options
  import opened JsText
  import opened DayKeys
  import StableSort

  datatype StreakResult = StreakResult(current: nat, longest: nat, totalActiveDays: nat, lastActiveDate: Option<string>)

  // ---- what a streak is

  /** The days that the well-formed keys name. */
  function Days(active: seq<string>): set<int> {
    set k | k in active && ParseKey(k).Some? :: ParseKey(k).value
  }

  /** The `n` days from `lo` on are all active. */
  ghost predicate IsRun(days: set<int>, lo: int, n: nat) {
    forall d :: lo <= d < lo + n ==> d in days
  }

  ghost predicate IsLongestRun(days: set<int>, n: nat) {
    && (exists lo :: IsRun(days, lo, n))
    && (forall lo, m: nat :: IsRun(days, lo, m) ==> m <= n)
  }

  /** `n` is the length of the run that ends on day `last`, 0 if that day is inactive. */
  ghost predicate IsRunEnding(days: set<int>, last: int, n: nat) {
    IsRun(days, last - n + 1, n) && last - n !in days
  }

  /** Keys that neither parse nor are ever printed: the program passes over them. */
  ghost predicate Inert(key: string) {
    ParseKey(key).None? && forall n :: UtcKey(n) != key
  }

  ghost predicate ValidKeys(active: seq<string>) {
    && (forall i, j :: 0 <= i < j < |active| ==> active[i] != active[j])
    && (forall k :: k in active ==> RealKey(k) || Inert(k))
  }

  lemma {:induction false} IntervalSize(lo: int, n: nat, s: set<int>)
    requires forall d :: lo <= d < lo + n ==> d in s
    ensures n <= |s|
  {
    if n > 0 {
      var last := lo + n - 1;
      IntervalSize(lo, n - 1, s - {last});
    }
  }

  lemma ActiveKeysAreActiveDays(active: seq<string>, n: int)
    requires ValidKeys(active)
    ensures UtcKey(n) in active <==> n in Days(active)
  {
    var key := UtcKey(n);
    if key in active {
      assert RealKey(key);
      PrintedYear(n, key);
      PrintThenParse(n);
    }
    if n in Days(active) {
      var k :| k in active && ParseKey(k) == Some(n);
      ParseThenPrint(k);
    }
  }

  // ---- the sorted keys

  predicate KeyLeq(a: string, b: string) { !StringLess(b, a) }

  lemma KeyLeqTrans(x: string, y: string, z: string)
    requires KeyLeq(x, y) && KeyLeq(y, z)
    ensures KeyLeq(x, z)
  {
    StringLessTrichotomy(x, y);
    StringLessTrichotomy(y, z);
    if StringLess(z, x) {
      if StringLess(x, y) { StringLessTransitive(z, x, y); }
      if StringLess(y, z) { StringLessTransitive(y, z, x); }
    }
  }

  lemma KeyLeqIsTotalPreorder()
    ensures StableSort.TotalPreorder(KeyLeq)
  {
    forall x, y ensures KeyLeq(x, y) || KeyLeq(y, x) { StringLessTrichotomy(x, y); }
    forall x, y, z | KeyLeq(x, y) && KeyLeq(y, z) ensures KeyLeq(x, z) { KeyLeqTrans(x, y, z); }
  }

  function SortedKeys(active: seq<string>): seq<string> {
    StableSort.Sort(StableSort.Filter(active, WellFormed), KeyLeq)
  }

  /** `dayKeyToMs` gives a number. */
  predicate WellFormed(key: string) { KeyShaped(key) }

  function DayNumber(key: string): (r: int)
    requires WellFormed(key)
    ensures ParseKey(key) == Some(r)
  {
    ParseKey(key).value
  }

  function DayNumbers(keys: seq<string>): (r: seq<int>)
    requires forall i :: 0 <= i < |keys| ==> WellFormed(keys[i])
    ensures |r| == |keys|
    ensures forall i :: 0 <= i < |keys| ==> ParseKey(keys[i]) == Some(r[i])
  {
    if keys == [] then []
    else [DayNumber(keys[0])] + DayNumbers(keys[1..])
  }

  ghost predicate Ascending(days: seq<int>) {
    forall i, j :: 0 <= i < j < |days| ==> days[i] < days[j]
  }

  lemma RealKeysOrder(a: string, b: string)
    requires RealKey(a) && RealKey(b)
    ensures StringLess(a, b) <==> ParseKey(a).value < ParseKey(b).value
    ensures ParseKey(a) == ParseKey(b) ==> a == b
  {
    ParseThenPrint(a);
    ParseThenPrint(b);
    PrintedYear(ParseKey(a).value, a);
    PrintedYear(ParseKey(b).value, b);
    StringOrderIsTimeOrder(ParseKey(a).value, ParseKey(b).value);
  }

  lemma {:induction false} FilterKeepsDistinct(s: seq<string>, p: string -> bool)
    requires forall i, j :: 0 <= i < j < |s| ==> s[i] != s[j]
    ensures forall k :: multiset(StableSort.Filter(s, p))[k] <= 1
  {
    if s != [] {
      FilterKeepsDistinct(s[1..], p);
      assert s[0] !in s[1..];
      assert s[0] !in StableSort.Filter(s[1..], p);
    }
  }

  lemma SortedKeysAre(active: seq<string>)
    requires ValidKeys(active)
    ensures forall k :: k in SortedKeys(active) <==> k in active && WellFormed(k)
    ensures StableSort.Sorted(SortedKeys(active), KeyLeq)
    ensures forall i, j :: 0 <= i < j < |SortedKeys(active)| ==> SortedKeys(active)[i] != SortedKeys(active)[j]
  {
    var kept := StableSort.Filter(active, WellFormed);
    var keys := SortedKeys(active);
    KeyLeqIsTotalPreorder();
    StableSort.SortSorts(kept, KeyLeq);
    FilterKeepsDistinct(active, WellFormed);
    forall k ensures k in keys <==> k in kept { assert k in multiset(keys) <==> k in multiset(kept); }
    forall i, j | 0 <= i < j < |keys| ensures keys[i] != keys[j] {
      DistinctByMultiplicity(keys, i, j);
    }
  }

  lemma OrderedKeysOrderedDays(a: string, b: string)
    requires RealKey(a) && RealKey(b) && KeyLeq(a, b) && a != b
    ensures ParseKey(a).value < ParseKey(b).value
  {
    RealKeysOrder(a, b);
    StringLessTrichotomy(a, b);
  }

  /** String sorting puts the active days in order, each once. */
  lemma SortedKeysAscend(active: seq<string>)
    requires ValidKeys(active)
    ensures forall i :: 0 <= i < |SortedKeys(active)| ==> WellFormed(SortedKeys(active)[i])
    ensures Ascending(DayNumbers(SortedKeys(active)))
  {
    var keys := SortedKeys(active);
    SortedKeysAre(active);
    forall i | 0 <= i < |keys| ensures WellFormed(keys[i]) && RealKey(keys[i]) {
      assert keys[i] in keys;
    }
    var days := DayNumbers(keys);
    forall i, j | 0 <= i < j < |days| ensures days[i] < days[j] {
      OrderedKeysOrderedDays(keys[i], keys[j]);
    }
  }

  lemma DistinctByMultiplicity(s: seq<string>, i: nat, j: nat)
    requires i < j < |s| && multiset(s)[s[i]] <= 1
    ensures s[i] != s[j]
  {
    assert s == s[..j] + s[j..];
    assert s[i] in s[..j] && s[j] in s[j..];
  }

  lemma {:induction false} AscendingCount(keys: seq<int>, days: set<int>)
    requires Ascending(keys)
    requires forall d :: d in days <==> d in keys
    ensures |days| == |keys|
  {
    if keys == [] {
      assert forall d :: d !in days;
    } else {
      var n := |keys| - 1;
      AscendingCount(keys[..n], days - {keys[n]});
      assert keys[n] in days;
    }
  }

  // ---- the longest run

  ghost function Members(days: seq<int>): set<int> {
    set i | 0 <= i < |days| :: days[i]
  }

  /** The maximal run that ends at the last day has length `run`. */
  ghost predicate LastRun(days: seq<int>, run: nat)
    requires |days| > 0
  {
    1 <= run && IsRunEnding(Members(days), days[|days| - 1], run)
  }

  lemma MembersGrow(days: seq<int>, i: nat)
    requires i < |days|
    ensures Members(days[..i + 1]) == Members(days[..i]) + {days[i]}
  {
    assert days[..i + 1] == days[..i] + [days[i]];
    forall d ensures d in Members(days[..i + 1]) <==> d in Members(days[..i]) || d == days[i] {
      assert d in Members(days[..i]) <==> d in days[..i];
      assert d in Members(days[..i + 1]) <==> d in days[..i + 1];
    }
  }

  lemma NextDay(days: seq<int>, i: nat, run: nat)
    requires 1 <= i < |days| && Ascending(days) && LastRun(days[..i], run)
    ensures LastRun(days[..i + 1], if days[i] - days[i - 1] == 1 then run + 1 else 1)
  {
    var before, after := Members(days[..i]), Members(days[..i + 1]);
    MembersGrow(days, i);
    assert forall d :: d in before ==> d <= days[i - 1];
    assert days[..i + 1][i] == days[i];
  }

  lemma LongestGrows(before: set<int>, cur: int, run: nat, longest: nat)
    requires IsLongestRun(before, longest) && IsRunEnding(before + {cur}, cur, run)
    requires forall d :: d in before ==> d < cur
    ensures IsLongestRun(before + {cur}, if run > longest then run else longest)
  {
    var after := before + {cur};
    var lo :| IsRun(before, lo, longest);
    assert IsRun(after, lo, longest);
    assert IsRun(after, cur - run + 1, run);
    forall lo, m: nat | IsRun(after, lo, m) ensures m <= run || m <= longest {
      if lo <= cur < lo + m {
        assert cur + 1 !in after;
        assert m > run ==> cur - run in after;
      } else {
        assert IsRun(before, lo, m);
      }
    }
  }

  /** The longest run so far and the run in progress, if the days ascend. */
  ghost predicate RunsSoFar(days: seq<int>, i: nat, run: nat, longest: nat)
    requires 1 <= i <= |days|
  {
    Ascending(days) ==> LastRun(days[..i], run) && IsLongestRun(Members(days[..i]), longest)
  }

  lemma RunsGrow(days: seq<int>, i: nat, run: nat, longest: nat)
    requires 1 <= i < |days| && RunsSoFar(days, i, run, longest)
    ensures var next := if days[i] - days[i - 1] == 1 then run + 1 else 1;
      RunsSoFar(days, i + 1, next, if next > longest then next else longest)
  {
    if Ascending(days) {
      NextDay(days, i, run);
      MembersGrow(days, i);
      LongestGrows(Members(days[..i]), days[i], if days[i] - days[i - 1] == 1 then run + 1 else 1, longest);
    }
  }

  method LongestRun(sorted: seq<int>) returns (longest: nat)
    requires |sorted| > 0
    ensures Ascending(sorted) ==> IsLongestRun(Members(sorted), longest)
    ensures 1 <= longest <= |sorted|
  {
    hide LastRun, IsLongestRun, Ascending;
    longest := 1;
    var run := 1;
    if Ascending(sorted) { OneDay(sorted); }
    for i := 1 to |sorted|
      invariant 1 <= run <= longest <= i
      invariant Ascending(sorted) ==> RunsSoFar(sorted, i, run, longest)
    {
      var prev := sorted[i - 1];
      var cur := sorted[i];
      if Ascending(sorted) {
        RunsGrow(sorted, i, run, longest);
        Rising(sorted, i);
      }
      if cur - prev == 1 {
        run := run + 1;
        if run > longest { longest := run; }
      } else if cur != prev {
        run := 1;
      }
    }
    assert sorted[..|sorted|] == sorted;
  }

  lemma Rising(days: seq<int>, i: nat)
    requires 1 <= i < |days| && Ascending(days)
    ensures days[i - 1] < days[i]
  {
  }

  lemma OneDay(days: seq<int>)
    requires |days| > 0
    ensures LastRun(days[..1], 1) && IsLongestRun(Members(days[..1]), 1)
  {
    var d := days[0];
    assert Members(days[..1]) == {d};
    assert IsRun({d}, d, 1);
    forall lo, m: nat | IsRun({d}, lo, m) ensures m <= 1 {
      IntervalSize(lo, m, {d});
    }
  }

  // ---- the current run

  /** `days` are the days whose printed key is active. */
  ghost predicate Tracks(active: seq<string>, days: set<int>) {
    forall n {:trigger UtcKey(n)} :: UtcKey(n) in active <==> n in days
  }

  /** The days whose printed key is active, whatever the keys. */
  ghost function PrintedDays(active: seq<string>): (r: set<int>)
    ensures Tracks(active, r)
  {
    if active == [] then {}
    else
      var rest, key := PrintedDays(active[..|active| - 1]), active[|active| - 1];
      assert forall k :: k in active <==> k in active[..|active| - 1] || k == key;
      if exists n :: UtcKey(n) == key then
        var n :| UtcKey(n) == key;
        assert forall m {:trigger UtcKey(m)} :: UtcKey(m) == key ==> m == n by { OnlyOne(n, key); }
        rest + {n}
      else rest
  }

  lemma OnlyOne(n: int, key: string)
    requires UtcKey(n) == key
    ensures forall m {:trigger UtcKey(m)} :: UtcKey(m) == key ==> m == n
  {
    forall m | UtcKey(m) == key ensures m == n { UtcKeyInjective(m, n); }
  }

  /** `active.has(toUtcDayKey(new Date(cursor)))`. */
  method HasDay(active: seq<string>, day: int, ghost days: set<int>) returns (r: bool)
    requires Tracks(active, days)
    ensures r <==> day in days
  {
    r := UtcKey(day) in active;
  }

  method CurrentRun(active: seq<string>, today: int, ghost days: set<int>) returns (current: nat)
    requires Tracks(active, days)
    ensures IsRunEnding(days, if today in days then today else today - 1, current)
  {
    ghost var floor := Floor(days);
    var cursor := today;
    var has := HasDay(active, cursor, days);
    if !has {
      cursor := cursor - 1;
    }
    ghost var last := cursor;
    current := 0;
    has := HasDay(active, cursor, days);
    while has
      invariant cursor == last - current
      invariant IsRun(days, cursor + 1, current)
      invariant has <==> cursor in days
      decreases cursor - floor
    {
      current := current + 1;
      cursor := cursor - 1;
      has := HasDay(active, cursor, days);
    }
  }

  ghost function Floor(days: set<int>): (r: int)
    ensures forall d :: d in days ==> r <= d
  {
    if !exists d :: d in days then 0
    else
      var d :| d in days;
      var rest := Floor(days - {d});
      assert forall e :: e in days ==> e == d || e in days - {d};
      if rest <= d then rest else d
  }

  // ---- the result

  method LastActive(active: seq<string>) returns (last: Option<string>)
    ensures last == None <==> forall k :: k in active ==> !WellFormed(k)
    ensures last.Some? ==> last.value in active && WellFormed(last.value)
    ensures last.Some? ==> forall k :: k in active && WellFormed(k) ==> KeyLeq(k, last.value)
  {
    last := None;
    for i := 0 to |active|
      invariant last == None <==> forall k :: 0 <= k < i ==> !WellFormed(active[k])
      invariant last.Some? ==> last.value in active && WellFormed(last.value)
      invariant last.Some? ==> forall k :: 0 <= k < i && WellFormed(active[k]) ==> KeyLeq(active[k], last.value)
    {
      var key := active[i];
      if !WellFormed(key) { continue; }
      if last == None || StringLess(last.value, key) {
        if last.Some? { StringLessTrichotomy(last.value, key); }
        forall k | 0 <= k < i && WellFormed(active[k]) ensures KeyLeq(active[k], key) {
          KeyLeqTrans(active[k], last.value, key);
        }
        StringLessTrichotomy(key, key);
        last := Some(key);
      }
    }
  }

  /** How many keys are well-formed. */
  function WellFormedCount(active: seq<string>): nat { |StableSort.Filter(active, WellFormed)| }

  /** What the result says of any keys at all. */
  ghost predicate Answers(active: seq<string>, today: int, r: StreakResult) {
    && (r.lastActiveDate == None <==> WellFormedCount(active) == 0)
    && (r.lastActiveDate.Some? ==>
          && r.lastActiveDate.value in active && WellFormed(r.lastActiveDate.value)
          && forall k :: k in active && WellFormed(k) ==> KeyLeq(k, r.lastActiveDate.value))
    && r.totalActiveDays == WellFormedCount(active) && r.longest <= r.totalActiveDays
    && if r.lastActiveDate == None then r.current == 0
       else
         var days := PrintedDays(active);
         IsRunEnding(days, if today in days then today else today - 1, r.current)
  }

  /** What it says when the keys are those of real dates, apart from inert ones. */
  ghost predicate AnswersByDays(days: set<int>, today: int, r: StreakResult) {
    && IsLongestRun(days, r.longest)
    && IsRunEnding(days, if today in days then today else today - 1, r.current)
    && r.totalActiveDays == |days|
    && r.current <= r.longest <= r.totalActiveDays
    && (r.lastActiveDate == None <==> days == {})
    && (r.lastActiveDate.Some? ==>
          var last := ParseKey(r.lastActiveDate.value);
          last.Some? && last.value in days && forall d :: d in days ==> d <= last.value)
  }

  method CalcStreaks(active: seq<string>, today: int) returns (r: StreakResult)
    requires FourDigitYear(today)
    ensures Answers(active, today, r)
    ensures ValidKeys(active) ==> AnswersByDays(Days(active), today, r)
  {
    hide AnswersByDays, IsRunEnding, IsLongestRun, Members, Ascending, WellFormedCount, SortedKeys, ValidKeys, UtcKey,
        PrintedDays, KeyLeq, WellFormed, Days, DayNumbers, Tracks;
    var last := LastActive(active);
    CountWellFormed(active);
    if last == None {
      r := StreakResult(0, 0, 0, None);
      NoWellFormed(active, today);
      return;
    }
    var sorted := SortedKeys(active);
    SortedKeysFormed(active);
    var longest := LongestRun(DayNumbers(sorted));
    var endDay := ParsedToday(today);
    var current := CurrentRun(active, endDay, PrintedDays(active));
    r := StreakResult(current, longest, |sorted|, last);
    if ValidKeys(active) { ValidAnswers(active, today, r); }
  }

  lemma CountWellFormed(active: seq<string>)
    ensures WellFormedCount(active) == 0 <==> forall k :: k in active ==> !WellFormed(k)
  {
    var kept := StableSort.Filter(active, WellFormed);
    assert kept != [] ==> kept[0] in kept;
  }

  lemma SortedKeysFormed(active: seq<string>)
    ensures |SortedKeys(active)| == WellFormedCount(active)
    ensures forall i :: 0 <= i < |SortedKeys(active)| ==> WellFormed(SortedKeys(active)[i])
  {
    hide WellFormed;
    var kept, sorted := StableSort.Filter(active, WellFormed), SortedKeys(active);
    KeyLeqIsTotalPreorder();
    StableSort.SortSorts(kept, KeyLeq);
    assert |sorted| == |multiset(sorted)| == |multiset(kept)| == |kept|;
    forall i | 0 <= i < |sorted| ensures WellFormed(sorted[i]) {
      assert sorted[i] in multiset(sorted);
      assert sorted[i] in multiset(kept);
      assert sorted[i] in kept;
    }
  }

  lemma NoWellFormed(active: seq<string>, today: int)
    requires forall k :: k in active ==> !WellFormed(k)
    ensures ValidKeys(active) ==> AnswersByDays(Days(active), today, StreakResult(0, 0, 0, None))
  {
    assert Days(active) == {};
    NoDays();
  }

  lemma PrintedDaysAreDays(active: seq<string>)
    requires ValidKeys(active)
    ensures PrintedDays(active) == Days(active)
  {
    hide Days, ValidKeys;
    forall n ensures n in PrintedDays(active) <==> n in Days(active) {
      assert UtcKey(n) in active <==> n in PrintedDays(active);
      ActiveKeysAreActiveDays(active, n);
    }
  }

  lemma ValidAnswers(active: seq<string>, today: int, r: StreakResult)
    requires ValidKeys(active) && Answers(active, today, r) && r.lastActiveDate.Some?
    requires forall i :: 0 <= i < |SortedKeys(active)| ==> WellFormed(SortedKeys(active)[i])
    requires r.totalActiveDays == |SortedKeys(active)|
    requires Ascending(DayNumbers(SortedKeys(active))) ==>
      IsLongestRun(Members(DayNumbers(SortedKeys(active))), r.longest)
    ensures AnswersByDays(Days(active), today, r)
  {
    hide ValidKeys, Days, SortedKeys, DayNumbers, IsLongestRun, Ascending, IsRunEnding, WellFormedCount, UtcKey,
        WellFormed, ParseKey, KeyLeq, PrintedDays, Members;
    SortedKeysAscend(active);
    SortedKeysAre(active);
    SameDays(active, SortedKeys(active));
    PrintedDaysAreDays(active);
    var days := Days(active);
    CurrentWithinLongest(days, if today in days then today else today - 1, r.current, r.longest);
    LastIsLatest(active, r.lastActiveDate.value);
  }

  lemma NoDays()
    ensures IsLongestRun({}, 0)
  {
    assert IsRun({}, 0, 0);
    forall lo, m: nat | IsRun({}, lo, m) ensures m <= 0 { IntervalSize(lo, m, {}); }
  }

  lemma SameImage(active: seq<string>, sorted: seq<string>, days: seq<int>, all: set<int>, parse: string -> Option<int>)
    requires |days| == |sorted| && forall i :: 0 <= i < |sorted| ==> parse(sorted[i]) == Some(days[i])
    requires forall k :: k in sorted <==> k in active && parse(k).Some?
    requires forall d :: d in all <==> exists k :: k in active && parse(k) == Some(d)
    ensures forall d :: d in all <==> d in days
  {
    forall d ensures d in all <==> d in days {
      if d in all {
        var k :| k in active && parse(k) == Some(d);
        var i :| 0 <= i < |sorted| && sorted[i] == k;
        assert days[i] == d;
      }
      if d in days {
        var i :| 0 <= i < |days| && days[i] == d;
        assert sorted[i] in sorted && parse(sorted[i]) == Some(d);
      }
    }
  }

  lemma SameDays(active: seq<string>, sorted: seq<string>)
    requires forall i :: 0 <= i < |sorted| ==> WellFormed(sorted[i])
    requires Ascending(DayNumbers(sorted))
    requires forall k :: k in sorted <==> k in active && WellFormed(k)
    ensures Members(DayNumbers(sorted)) == Days(active) && |sorted| == |Days(active)|
  {
    SameImage(active, sorted, DayNumbers(sorted), Days(active), ParseKey);
    AscendingCount(DayNumbers(sorted), Days(active));
  }

  lemma CurrentWithinLongest(days: set<int>, last: int, current: nat, longest: nat)
    requires IsRunEnding(days, last, current) && IsLongestRun(days, longest)
    ensures current <= longest <= |days|
  {
    var lo :| IsRun(days, lo, longest);
    IntervalSize(lo, longest, days);
  }

  lemma LastIsLatest(active: seq<string>, last: string)
    requires ValidKeys(active) && last in active && WellFormed(last)
    requires forall k :: k in active && WellFormed(k) ==> KeyLeq(k, last)
    ensures ParseKey(last).Some? && ParseKey(last).value in Days(active)
    ensures forall d :: d in Days(active) ==> d <= ParseKey(last).value
  {
    forall d | d in Days(active) ensures d <= ParseKey(last).value {
      var k :| k in active && ParseKey(k) == Some(d);
      RealKeysOrder(last, k);
    }
  }
}
