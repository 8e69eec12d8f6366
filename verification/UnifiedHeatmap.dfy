/**
 The heatmap over three sources, each of which can be switched off
 (apps/web/src/lib/codingStreak.ts:315-351).
 */
module UnifiedHeatmap {
  import opened DayKeys
  import opened Heatmap

  datatype Toggles = Toggles(contests: bool, coding: bool, git: bool)

  /** Whole, non-negative counts per day key. */
  datatype Sources = Sources(contests: map<string, nat>, coding: map<string, nat>, git: map<string, nat>)

  datatype UnifiedDay = UnifiedDay(date: string, count: nat, level: nat, contests: nat, coding: nat, git: nat)

  function If(on: bool, n: nat): nat { if on then n else 0 }

  /** The raw counts of the day, whatever is switched off. */
  predicate Raw(d: UnifiedDay, s: Sources) {
    d.contests == Lookup(s.contests, d.date) && d.coding == Lookup(s.coding, d.date) && d.git == Lookup(s.git, d.date)
  }

  /** The count of the sources switched on, and its level. */
  predicate Totalled(d: UnifiedDay, t: Toggles) {
    && d.count == If(t.contests, d.contests) + If(t.coding, d.coding) + If(t.git, d.git)
    && d.level == CountToLevel(d.count)
  }

  /** One entry per day from `first` on, without a hole. */
  ghost predicate Lists(days: seq<UnifiedDay>, first: int, s: Sources, t: Toggles, key: Printer) {
    forall i :: 0 <= i < |days| ==> days[i].date == key(first + i) && Raw(days[i], s) && Totalled(days[i], t)
  }

  method UnifiedDayList(s: Sources, t: Toggles, end: int, windowDays: nat, key: Printer) returns (days: seq<UnifiedDay>)
    ensures |days| == windowDays && Lists(days, end - windowDays + 1, s, t, key)
  {
    days := [];
    var i := windowDays - 1;
    while i >= 0
      invariant -1 <= i < windowDays && |days| == windowDays - 1 - i
      invariant Lists(days, end - windowDays + 1, s, t, key)
    {
      var date := key(end - i);
      var contests, coding, git := Lookup(s.contests, date), Lookup(s.coding, date), Lookup(s.git, date);
      var count := If(t.contests, contests) + If(t.coding, coding) + If(t.git, git);
      days := days + [UnifiedDay(date, count, CountToLevel(count), contests, coding, git)];
      i := i - 1;
    }
  }

  method BuildUnifiedHeatmapDays(s: Sources, t: Toggles, today: int, window: int) returns (days: seq<UnifiedDay>)
    requires FourDigitYear(today)
    ensures |days| == if window < 1 then 1 else window
    ensures Lists(days, today - |days| + 1, s, t, UtcKey)
  {
    hide Raw, Totalled, UtcKey;
    var endDay := ParsedToday(today);
    var windowDays := if window < 1 then 1 else window;
    days := UnifiedDayList(s, t, endDay, windowDays, UtcKey);
    assert endDay - windowDays + 1 == today - |days| + 1;
  }

  // ---- the grid is the sum of the grids of its sources

  function Total(days: seq<UnifiedDay>): nat {
    if days == [] then 0 else Total(days[..|days| - 1]) + days[|days| - 1].count
  }

  /** A source's own total over `n` days. */
  function SourceTotal(counts: map<string, nat>, first: int, n: nat, key: Printer): nat {
    if n == 0 then 0 else SourceTotal(counts, first, n - 1, key) + Lookup(counts, key(first + n - 1))
  }

  /** The cells add up to the totals of exactly the sources that are switched on. */
  lemma {:induction false} UnifiedConserves(days: seq<UnifiedDay>, first: int, s: Sources, t: Toggles, key: Printer)
    requires Lists(days, first, s, t, key)
    ensures Total(days) == If(t.contests, SourceTotal(s.contests, first, |days|, key))
                         + If(t.coding, SourceTotal(s.coding, first, |days|, key))
                         + If(t.git, SourceTotal(s.git, first, |days|, key))
  {
    if days != [] {
      var n := |days| - 1;
      assert Lists(days[..n], first, s, t, key);
      UnifiedConserves(days[..n], first, s, t, key);
      assert days[n].date == key(first + n) && Raw(days[n], s) && Totalled(days[n], t);
    }
  }

  /** The single-source heatmap is the unified one with the other sources off. */
  lemma {:induction false} OneSourceAgrees(single: seq<HeatmapDay>, days: seq<UnifiedDay>, first: int, s: Sources,
      key: Printer)
    requires |single| == |days| && Consecutive(single, first, key) && Counted(single, s.contests)
    requires Lists(days, first, s, Toggles(true, false, false), key)
    ensures forall i :: 0 <= i < |days| ==> single[i] == HeatmapDay(days[i].date, days[i].count, days[i].level)
    ensures Total(days) == SumCounts(single)
  {
    if days != [] {
      var n := |days| - 1;
      OneSourceAgrees(single[..n], days[..n], first, s, key);
      assert days[n].date == key(first + n) && Raw(days[n], s) && Totalled(days[n], Toggles(true, false, false));
      assert single[n].date == key(first + n);
    }
  }

  lemma LevelMonotone(m: nat, n: nat)
    requires m <= n
    ensures CountToLevel(m) <= CountToLevel(n) <= 4
  {
  }

  /** Switching further sources on never cools a cell and never changes the raw counts. */
  lemma MoreSourcesNeverCooler(a: seq<UnifiedDay>, b: seq<UnifiedDay>, first: int, s: Sources, t: Toggles,
      u: Toggles, key: Printer, i: nat)
    requires |a| == |b| && i < |a| && Lists(a, first, s, t, key) && Lists(b, first, s, u, key)
    requires (t.contests ==> u.contests) && (t.coding ==> u.coding) && (t.git ==> u.git)
    ensures a[i].count <= b[i].count && a[i].level <= b[i].level
    ensures a[i].date == b[i].date && a[i].contests == b[i].contests && a[i].coding == b[i].coding && a[i].git
        == b[i].git
  {
    assert a[i].date == key(first + i) && b[i].date == key(first + i) && Raw(a[i], s) && Raw(b[i], s);
    assert Totalled(a[i], t) && Totalled(b[i], u);
    LevelMonotone(a[i].count, b[i].count);
  }
}
