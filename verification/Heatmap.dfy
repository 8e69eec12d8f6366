/** The activity heatmap: bucketing, the day list and its week columns (apps/web/src/lib/codingStreak.ts:79-157). */
module Heatmap {
  import opened Options
  import opened Calendar
  import opened DayKeys
  import JsText

  const DAY_MS: int := 24 * 60 * 60 * 1000

  datatype HeatmapDay = HeatmapDay(date: string, count: nat, level: nat)

  /** How a day is printed. The program prints days with `UtcKey`. */
  type Printer = int -> string

  /** On the days `valid`, printing keeps the order of days as string order; no other day prints as one of them. */
  ghost predicate OrderedKeys(key: Printer, valid: int -> bool) {
    && (forall m, n :: valid(m) && valid(n) ==> (JsText.StringLess(key(m), key(n)) <==> m < n))
    && (forall m, n :: valid(n) && key(m) == key(n) ==> m == n)
  }

  lemma UtcKeysAreOrdered()
    ensures OrderedKeys(UtcKey, FourDigitYear)
  {
    forall m, n | FourDigitYear(m) && FourDigitYear(n)
      ensures JsText.StringLess(UtcKey(m), UtcKey(n)) <==> m < n
    {
      StringOrderIsTimeOrder(m, n);
    }
    forall m, n | FourDigitYear(n) && UtcKey(m) == UtcKey(n) ensures m == n { UtcKeyInjective(m, n); }
  }

  // ---- bucketing

  /** The UTC day of an instant in milliseconds. */
  function DayOfInstant(ms: int): int { ms / DAY_MS }

  /** The day an instant falls in: 86,400 seconds each, day 0 beginning at instant 0, also before it. */
  lemma InstantIsInDay(ms: int, day: int)
    ensures DayOfInstant(ms) == day <==> 86400 * 1000 * day <= ms < 86400 * 1000 * (day + 1)
  {
  }

  /** How many of the instants fall in the days from `lo` to `hi`; missing or invalid ones count nowhere. */
  function CountBetween(items: seq<Option<int>>, lo: int, hi: int): nat {
    if items == [] then 0
    else
      var x := items[|items| - 1];
      CountBetween(items[..|items| - 1], lo, hi) + (if x.Some? && lo <= DayOfInstant(x.value) <= hi then 1 else 0)
  }

  /** An instant in the days counts once, any other and a missing one not at all. */
  lemma {:induction false} CountIs(items: seq<Option<int>>, more: seq<Option<int>>, ms: int, lo: int, hi: int)
    ensures CountBetween(items + more, lo, hi) == CountBetween(items, lo, hi) + CountBetween(more, lo, hi)
    ensures CountBetween([Some(ms)], lo, hi) == (if lo <= DayOfInstant(ms) <= hi then 1 else 0)
    ensures CountBetween([None], lo, hi) == 0
  {
    hide DayOfInstant;
    if more == [] {
      assert items + more == items;
    } else {
      var n := |more| - 1;
      CountIs(items, more[..n], ms, lo, hi);
      assert (items + more)[..|items| + n] == items + more[..n];
    }
  }

  function CountOn(items: seq<Option<int>>, day: int): nat {
    CountBetween(items, day, day)
  }

  function Lookup(counts: map<string, nat>, key: string): nat {
    if key in counts then counts[key] else 0
  }

  /** `counts` are the true daily counts up to `today`, and empty after it. */
  ghost predicate BucketsOf(counts: map<string, nat>, items: seq<Option<int>>, today: int, key: Printer,
      valid: int -> bool) {
    forall n :: valid(n) ==> Lookup(counts, key(n)) == if n <= today then CountOn(items, n) else 0
  }

  method BucketWith(items: seq<Option<int>>, today: int, key: Printer,
      ghost valid: int -> bool) returns (out: map<string, nat>)
    requires valid(today) && OrderedKeys(key, valid)
    ensures BucketsOf(out, items, today, key, valid)
  {
    out := map[];
    var maxKey := key(today);
    for i := 0 to |items|
      invariant BucketsOf(out, items[..i], today, key, valid)
    {
      assert items[..i + 1][..i] == items[..i];
      if items[i].None? { continue; }
      var day := key(DayOfInstant(items[i].value));
      if JsText.StringLess(maxKey, day) { continue; }
      out := out[day := (if day in out then out[day] else 0) + 1];
    }
    assert items[..|items|] == items;
  }

  method BucketParticipationsByDay(items: seq<Option<int>>, today: int) returns (out: map<string, nat>)
    requires FourDigitYear(today)
    ensures BucketsOf(out, items, today, UtcKey, FourDigitYear)
  {
    UtcKeysAreOrdered();
    out := BucketWith(items, today, UtcKey, FourDigitYear);
  }

  // ---- the day list

  function CountToLevel(count: nat): nat {
    if count == 0 then 0 else if count == 1 then 1 else if count == 2 then 2 else if count <= 4 then 3 else 4
  }

  /** The level rises at one, two, three and five. */
  lemma LevelsRise(count: nat)
    ensures CountToLevel(count) <= 4
    ensures CountToLevel(count) >= 1 <==> count >= 1
    ensures CountToLevel(count) >= 2 <==> count >= 2
    ensures CountToLevel(count) >= 3 <==> count >= 3
    ensures CountToLevel(count) >= 4 <==> count >= 5
  {
  }

  /** The list covers the days from `first` on without a hole. */
  ghost predicate Consecutive(days: seq<HeatmapDay>, first: int, key: Printer) {
    forall i :: 0 <= i < |days| ==> days[i].date == key(first + i)
  }

  ghost predicate Counted(days: seq<HeatmapDay>, counts: map<string, nat>) {
    forall i :: 0 <= i < |days| ==>
      days[i].count == Lookup(counts, days[i].date) && days[i].level == CountToLevel(days[i].count)
  }

  method DayList(counts: map<string, nat>, end: int, windowDays: nat, key: Printer) returns (days: seq<HeatmapDay>)
    ensures |days| == windowDays
    ensures Consecutive(days, end - windowDays + 1, key) && Counted(days, counts)
  {
    days := [];
    var i := windowDays - 1;
    while i >= 0
      invariant -1 <= i < windowDays && |days| == windowDays - 1 - i
      invariant Consecutive(days, end - windowDays + 1, key) && Counted(days, counts)
    {
      var date := key(end - i);
      var count := Lookup(counts, date);
      days := days + [HeatmapDay(date, count, CountToLevel(count))];
      i := i - 1;
    }
  }

  method BuildHeatmapDays(counts: map<string, nat>, today: int, window: int) returns (days: seq<HeatmapDay>)
    requires FourDigitYear(today)
    ensures |days| == if window < 1 then 1 else window
    ensures Consecutive(days, today - |days| + 1, UtcKey) && Counted(days, counts)
  {
    hide UtcKey, Counted;
    var endDay := ParsedToday(today);
    var windowDays := if window < 1 then 1 else window;
    days := DayList(counts, endDay, windowDays, UtcKey);
    assert endDay - windowDays + 1 == today - |days| + 1;
  }

  function SumCounts(days: seq<HeatmapDay>): nat {
    if days == [] then 0 else SumCounts(days[..|days| - 1]) + days[|days| - 1].count
  }

  lemma {:induction false} CountSplits(items: seq<Option<int>>, lo: int, hi: int)
    requires lo <= hi + 1
    ensures CountBetween(items, lo, hi + 1) == CountBetween(items, lo, hi) + CountOn(items, hi + 1)
  {
    if items != [] { CountSplits(items[..|items| - 1], lo, hi); }
  }

  lemma {:induction false} CountNone(items: seq<Option<int>>, lo: int)
    ensures CountBetween(items, lo, lo - 1) == 0
  {
    if items != [] { CountNone(items[..|items| - 1], lo); }
  }

  /** The cells add up to the participations of the window: none is lost, none is counted twice. */
  lemma {:induction false} HeatmapConserves(
      items: seq<Option<int>>, counts: map<string, nat>, days: seq<HeatmapDay>, first: int, today: int,
      key: Printer, valid: int -> bool)
    requires BucketsOf(counts, items, today, key, valid)
    requires Consecutive(days, first, key) && Counted(days, counts)
    requires first + |days| - 1 <= today && forall n :: first <= n <= today ==> valid(n)
    ensures SumCounts(days) == CountBetween(items, first, first + |days| - 1)
    decreases |days|
  {
    if days == [] {
      CountNone(items, first);
    } else {
      var k := |days| - 1;
      HeatmapConserves(items, counts, days[..k], first, today, key, valid);
      CountSplits(items, first, first + k - 1);
      assert valid(first + k);
    }
  }

  // ---- week columns

  type Cell = Option<HeatmapDay>

  function Blanks(n: nat): (r: seq<Cell>)
    ensures |r| == n && forall i :: 0 <= i < n ==> r[i] == None
  {
    seq(n, _ => None)
  }

  function Cells(days: seq<HeatmapDay>): (r: seq<Cell>)
    ensures |r| == |days| && forall i :: 0 <= i < |r| ==> r[i] == Some(days[i])
  {
    seq(|days|, i requires 0 <= i < |days| => Some(days[i]))
  }

  function Flatten(weeks: seq<seq<Cell>>): seq<Cell> {
    if weeks == [] then [] else Flatten(weeks[..|weeks| - 1]) + weeks[|weeks| - 1]
  }

  /** The blanks before the first day: its week day, or none when its key is malformed. */
  function LeadBlanks(first: string): (r: nat)
    ensures r < 7
  {
    match ParseKey(first)
    case Some(n) => WeekDay(n)
    case None => 0
  }

  /** Rows of seven: `lead` blanks, the days in order, and fewer than seven blanks. */
  ghost predicate IsGrid(weeks: seq<seq<Cell>>, lead: nat, days: seq<HeatmapDay>) {
    && (forall w :: w in weeks ==> |w| == 7)
    && (exists trail: nat :: trail < 7 && Flatten(weeks) == Blanks(lead) + Cells(days) + Blanks(trail))
  }

  lemma CellsNext(done: seq<Cell>, week: seq<Cell>, blanks: seq<Cell>, days: seq<HeatmapDay>, i: nat)
    requires i < |days| && done + week == blanks + Cells(days[..i])
    ensures done + (week + [Some(days[i])]) == blanks + Cells(days[..i + 1])
  {
    assert Cells(days[..i + 1]) == Cells(days[..i]) + [Some(days[i])];
    assert done + (week + [Some(days[i])]) == (done + week) + [Some(days[i])];
  }

  lemma FlattenMore(weeks: seq<seq<Cell>>, week: seq<Cell>)
    ensures Flatten(weeks + [week]) == Flatten(weeks) + week
  {
    assert (weeks + [week])[..|weeks|] == weeks;
  }

  method FillWeeks(days: seq<HeatmapDay>, leadBlanks: nat) returns (weeks: seq<seq<Cell>>, week: seq<Cell>)
    requires leadBlanks < 7
    ensures |week| < 7 && forall w :: w in weeks ==> |w| == 7
    ensures Flatten(weeks) + week == Blanks(leadBlanks) + Cells(days)
  {
    weeks := [];
    week := [];
    for i := 0 to leadBlanks
      invariant week == Blanks(i)
    {
      week := week + [None];
    }
    for i := 0 to |days|
      invariant |week| < 7 && forall w :: w in weeks ==> |w| == 7
      invariant Flatten(weeks) + week == Blanks(leadBlanks) + Cells(days[..i])
    {
      CellsNext(Flatten(weeks), week, Blanks(leadBlanks), days, i);
      week := week + [Some(days[i])];
      if |week| == 7 {
        FlattenMore(weeks, week);
        weeks := weeks + [week];
        week := [];
      }
    }
    assert days[..|days|] == days;
  }

  method GroupHeatmapByWeeks(days: seq<HeatmapDay>) returns (weeks: seq<seq<Cell>>)
    ensures days == [] ==> weeks == []
    ensures days != [] ==> IsGrid(weeks, LeadBlanks(days[0].date), days)
  {
    if days == [] { return []; }
    var leadBlanks := LeadBlanks(days[0].date);
    var week;
    weeks, week := FillWeeks(days, leadBlanks);
    weeks := CloseWeek(weeks, week, leadBlanks, days);
  }

  method CloseWeek(full: seq<seq<Cell>>, partial: seq<Cell>, ghost lead: nat, ghost days: seq<HeatmapDay>)
    returns (weeks: seq<seq<Cell>>)
    requires |partial| < 7 && forall w :: w in full ==> |w| == 7
    requires Flatten(full) + partial == Blanks(lead) + Cells(days)
    ensures IsGrid(weeks, lead, days)
  {
    weeks := full;
    var week := partial;
    ghost var trail: nat := 0;
    if |week| > 0 {
      while |week| < 7
        invariant |week| <= 7 && trail == |week| - |partial| && week == partial + Blanks(trail)
      {
        week := week + [None];
        trail := trail + 1;
      }
      FlattenMore(weeks, week);
      weeks := weeks + [week];
    }
    assert Flatten(weeks) == Blanks(lead) + Cells(days) + Blanks(trail);
  }

  lemma {:induction false} FlattenAt(weeks: seq<seq<Cell>>, p: nat)
    requires forall w :: w in weeks ==> |w| == 7
    ensures |Flatten(weeks)| == 7 * |weeks|
    ensures p < 7 * |weeks| ==> Flatten(weeks)[p] == weeks[p / 7][p % 7]
  {
    if weeks != [] {
      var n := |weeks| - 1;
      assert weeks[n] in weeks;
      FlattenAt(weeks[..n], p);
      if 7 * n <= p < 7 * n + 7 {
        assert p / 7 == n && p % 7 == p - 7 * n;
      } else if p < 7 * n {
        assert p / 7 < n;
      }
    }
  }

  lemma CellOfDay(weeks: seq<seq<Cell>>, lead: nat, days: seq<HeatmapDay>, i: nat)
    requires IsGrid(weeks, lead, days) && i < |days|
    ensures (lead + i) / 7 < |weeks| && |weeks[(lead + i) / 7]| == 7
    ensures weeks[(lead + i) / 7][(lead + i) % 7] == Some(days[i])
  {
    var trail: nat :| trail < 7 && Flatten(weeks) == Blanks(lead) + Cells(days) + Blanks(trail);
    FlattenAt(weeks, lead + i);
    assert Flatten(weeks)[lead + i] == Some(days[i]);
    assert weeks[(lead + i) / 7] in weeks;
  }

  /** A first day whose key is malformed starts its own week. */
  lemma MalformedLead(first: string)
    requires !KeyShaped(first)
    ensures LeadBlanks(first) == 0
  {
  }

  lemma LeadOfPrinted(first: int)
    requires FourDigitYear(first)
    ensures LeadBlanks(UtcKey(first)) == WeekDay(first)
  {
    PrintThenParse(first);
  }

  lemma SameColumn(first: int, i: nat)
    ensures (WeekDay(first) + i) % 7 == WeekDay(first + i)
  {
  }

  lemma ColumnFrom(weeks: seq<seq<Cell>>, lead: nat, days: seq<HeatmapDay>, first: int, i: nat)
    requires i < |days| && lead == WeekDay(first) && IsGrid(weeks, lead, days)
    ensures exists row :: 0 <= row < |weeks| && |weeks[row]| == 7 && weeks[row][WeekDay(first + i)] == Some(days[i])
  {
    CellOfDay(weeks, lead, days, i);
    SameColumn(first, i);
  }

  /** When the first day is `first`, the day `i` days later stands in the column of its week day, Sunday first. */
  lemma DaysStandInTheirColumn(weeks: seq<seq<Cell>>, days: seq<HeatmapDay>, first: int, i: nat)
    requires i < |days| && days[0].date == UtcKey(first) && FourDigitYear(first)
    requires IsGrid(weeks, LeadBlanks(days[0].date), days)
    ensures exists row :: 0 <= row < |weeks| && |weeks[row]| == 7 && weeks[row][WeekDay(first + i)] == Some(days[i])
  {
    LeadOfPrinted(first);
    ColumnFrom(weeks, LeadBlanks(days[0].date), days, first, i);
  }
}
