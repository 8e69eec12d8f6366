/** Clash detection over timetable entries (apps/web/src/lib/timetableMerge.ts:141-164). */
module TimetableClashes {
  import opened Options
  import opened JsText

  datatype Meeting = Meeting(
    id: string, startMinutes: Option<int>, endMinutes: Option<int>, startTime: string, endTime: string,
    location: string)

  /** `toMinutes`, given as a parameter. */
  type Clock = string -> Option<int>

  datatype Slot = Slot(id: string, s: int, e: int, room: string)

  datatype Warning = Overlap(first: string, second: string) | Room(place: string, first: string, second: string)

  function Minute(given: Option<int>, time: string, clock: Clock): int {
    if given.Some? then given.value else match clock(time) case Some(m) => m case None => -1
  }

  function SlotOf(m: Meeting, clock: Clock): Slot {
    Slot(m.id, Minute(m.startMinutes, m.startTime, clock), Minute(m.endMinutes, m.endTime, clock),
        Lower(Trim(m.location)))
  }

  predicate ValidSlot(x: Slot) { x.s >= 0 && x.e > x.s }

  /** The entries with usable times, in order. */
  function Slots(entries: seq<Meeting>, clock: Clock): (r: seq<Slot>)
    ensures forall i :: 0 <= i < |r| ==> ValidSlot(r[i])
  {
    if entries == [] then []
    else
      var x := SlotOf(entries[0], clock);
      (if ValidSlot(x) then [x] else []) + Slots(entries[1..], clock)
  }

  predicate Overlapping(a: Slot, b: Slot) { a.s < b.e && b.s < a.e }

  predicate SameRoom(a: Slot, b: Slot) { a.room != "" && a.room == b.room }

  /** The location as first written for this id. */
  function RoomLabel(entries: seq<Meeting>, a: Slot): string {
    if entries == [] then a.room
    else if entries[0].id == a.id then (if entries[0].location == "" then a.room else entries[0].location)
    else RoomLabel(entries[1..], a)
  }

  // ---- what is reported

  datatype Pair = Pair(i: nat, j: nat)

  predicate Before(p: Pair, q: Pair) { p.i < q.i || (p.i == q.i && p.j < q.j) }

  predicate IsClash(list: seq<Slot>, p: Pair) { p.i < p.j < |list| && Overlapping(list[p.i], list[p.j]) }

  /** Clashing index pairs before `end`, each once, in order. */
  ghost predicate Lists(pairs: seq<Pair>, list: seq<Slot>, end: Pair) {
    && (forall k :: 0 <= k < |pairs| ==> IsClash(list, pairs[k]) && Before(pairs[k], end))
    && (forall k, m :: 0 <= k < m < |pairs| ==> Before(pairs[k], pairs[m]))
  }

  /** All of them. */
  ghost predicate Complete(pairs: seq<Pair>, list: seq<Slot>, end: Pair) {
    forall p :: IsClash(list, p) && Before(p, end) ==> p in pairs
  }

  ghost predicate Enumerates(pairs: seq<Pair>, list: seq<Slot>, end: Pair) {
    Lists(pairs, list, end) && Complete(pairs, list, end)
  }

  function WarningsFor(entries: seq<Meeting>, a: Slot, b: Slot): seq<Warning> {
    [Overlap(a.id, b.id)] + (if SameRoom(a, b) then [Room(RoomLabel(entries, a), a.id, b.id)] else [])
  }

  /** One overlap warning per pair, followed by a room warning when the rooms agree. */
  function Report(entries: seq<Meeting>, list: seq<Slot>, pairs: seq<Pair>): seq<Warning> {
    if pairs == [] then []
    else
      var p := pairs[|pairs| - 1];
      Report(entries, list, pairs[..|pairs| - 1])
      + (if p.i < |list| && p.j < |list| then WarningsFor(entries, list[p.i], list[p.j]) else [])
  }

  /** The report on exactly the clashing pairs, each once, in order. */
  ghost predicate IsReport(entries: seq<Meeting>, list: seq<Slot>, warnings: seq<Warning>) {
    exists pairs :: Enumerates(pairs, list, Pair(|list|, |list|)) && warnings == Report(entries, list, pairs)
  }

  lemma ReportMore(entries: seq<Meeting>, list: seq<Slot>, pairs: seq<Pair>, i: nat, j: nat)
    requires i < |list| && j < |list|
    ensures Report(entries, list, pairs + [Pair(i, j)]) == Report(entries, list, pairs)
        + WarningsFor(entries, list[i], list[j])
  {
    assert (pairs + [Pair(i, j)])[..|pairs|] == pairs;
  }

  lemma EnumerateOne(pairs: seq<Pair>, list: seq<Slot>, i: nat, j: nat)
    requires i < j < |list| && Enumerates(pairs, list, Pair(i, j))
    ensures Enumerates(if Overlapping(list[i], list[j]) then pairs + [Pair(i, j)] else pairs, list, Pair(i, j + 1))
  {
    hide Overlapping;
    var here := Pair(i, j);
    forall p | IsClash(list, p) && Before(p, Pair(i, j + 1)) ensures p == here || p in pairs {
      if p != here { assert Before(p, here); }
    }
  }

  lemma SamePairsBefore(pairs: seq<Pair>, list: seq<Slot>, from: Pair, to: Pair)
    requires Enumerates(pairs, list, from)
    requires forall p: Pair :: p.i < p.j < |list| ==> (Before(p, from) <==> Before(p, to))
    ensures Enumerates(pairs, list, to)
  {
    forall p | IsClash(list, p) && Before(p, to) ensures p in pairs { assert Before(p, from); }
  }

  method Warn(entries: seq<Meeting>, warnings: seq<Warning>, a: Slot, b: Slot) returns (r: seq<Warning>)
    ensures r == warnings + WarningsFor(entries, a, b)
  {
    r := warnings + [Overlap(a.id, b.id)];
    if SameRoom(a, b) {
      r := r + [Room(RoomLabel(entries, a), a.id, b.id)];
    }
  }

  /** The inner loop: entry `i` against the later ones. */
  method ScanRow(entries: seq<Meeting>, list: seq<Slot>, i: nat, before: seq<Warning>, ghost found: seq<Pair>)
    returns (warnings: seq<Warning>, ghost pairs: seq<Pair>)
    requires i < |list| && Enumerates(found, list, Pair(i, i + 1)) && before == Report(entries, list, found)
    ensures Enumerates(pairs, list, Pair(i, |list|)) && warnings == Report(entries, list, pairs)
  {
    warnings, pairs := before, found;
    for j := i + 1 to |list|
      invariant Enumerates(pairs, list, Pair(i, j))
      invariant warnings == Report(entries, list, pairs)
    {
      EnumerateOne(pairs, list, i, j);
      if !Overlapping(list[i], list[j]) { continue; }
      ReportMore(entries, list, pairs, i, j);
      pairs := pairs + [Pair(i, j)];
      warnings := Warn(entries, warnings, list[i], list[j]);
    }
  }

  lemma NothingYet(entries: seq<Meeting>, list: seq<Slot>)
    ensures Enumerates([], list, Pair(0, 1)) && Report(entries, list, []) == []
  {
  }

  lemma ReportDone(entries: seq<Meeting>, list: seq<Slot>, pairs: seq<Pair>)
    requires Enumerates(pairs, list, Pair(|list|, |list| + 1))
    ensures IsReport(entries, list, Report(entries, list, pairs))
  {
    SamePairsBefore(pairs, list, Pair(|list|, |list| + 1), Pair(|list|, |list|));
  }

  lemma NextRow(pairs: seq<Pair>, list: seq<Slot>, i: nat)
    requires Enumerates(pairs, list, Pair(i, |list|))
    ensures Enumerates(pairs, list, Pair(i + 1, i + 2))
  {
    SamePairsBefore(pairs, list, Pair(i, |list|), Pair(i + 1, i + 2));
  }

  /** Every overlapping pair of valid entries is reported exactly once, and no other pair is. */
  method FindClashes(entries: seq<Meeting>, clock: Clock) returns (warnings: seq<Warning>)
    ensures IsReport(entries, Slots(entries, clock), warnings)
  {
    hide Enumerates, Report, IsReport, Slots;
    var list := Slots(entries, clock);
    ghost var pairs := [];
    warnings := [];
    NothingYet(entries, list);
    for i := 0 to |list|
      invariant Enumerates(pairs, list, Pair(i, i + 1))
      invariant warnings == Report(entries, list, pairs)
    {
      warnings, pairs := ScanRow(entries, list, i, warnings, pairs);
      NextRow(pairs, list, i);
    }
    ReportDone(entries, list, pairs);
  }

  ghost predicate Ascending(p: seq<Pair>) { forall k, m :: 0 <= k < m < |p| ==> Before(p[k], p[m]) }

  lemma LastSame(p: seq<Pair>, q: seq<Pair>)
    requires Ascending(p) && Ascending(q) && p != [] && q != [] && forall x :: x in p <==> x in q
    ensures p[|p| - 1] == q[|q| - 1]
  {
    assert p[|p| - 1] in q && q[|q| - 1] in p;
  }

  lemma FrontWithin(p: seq<Pair>, q: seq<Pair>, x: Pair)
    requires Ascending(p) && p != [] && q != [] && p[|p| - 1] == q[|q| - 1]
    requires x in p[..|p| - 1] && x in q
    ensures x in q[..|q| - 1]
  {
    var k :| 0 <= k < |p| - 1 && p[k] == x;
    var j :| 0 <= j < |q| && q[j] == x;
    assert Before(p[k], p[|p| - 1]);
    assert q[..|q| - 1][j] == x;
  }

  /** Two ascending lists of the same pairs are one list. */
  lemma {:induction false} SamePairs(p: seq<Pair>, q: seq<Pair>)
    requires Ascending(p) && Ascending(q) && forall x :: x in p <==> x in q
    ensures p == q
  {
    assert q != [] ==> q[0] in q;
    if p != [] {
      assert p[0] in p;
      var front, rest := p[..|p| - 1], q[..|q| - 1];
      LastSame(p, q);
      forall x ensures x in front <==> x in rest {
        if x in front { FrontWithin(p, q, x); }
        if x in rest { FrontWithin(q, p, x); }
      }
      SamePairs(front, rest);
      assert p == front + [p[|p| - 1]] && q == rest + [q[|q| - 1]];
    }
  }

  /** The warnings are determined by the entries: which pairs, how often, and in which order. */
  lemma ReportIsUnique(entries: seq<Meeting>, list: seq<Slot>, v: seq<Warning>, w: seq<Warning>)
    requires IsReport(entries, list, v) && IsReport(entries, list, w)
    ensures v == w
  {
    var end := Pair(|list|, |list|);
    var p :| Enumerates(p, list, end) && v == Report(entries, list, p);
    var q :| Enumerates(q, list, end) && w == Report(entries, list, q);
    forall x ensures x in p <==> x in q {
      if x in p { assert IsClash(list, x) && Before(x, end); }
      if x in q { assert IsClash(list, x) && Before(x, end); }
    }
    SamePairs(p, q);
  }

  /** A room warning comes only with an overlap warning of the same two entries. */
  lemma {:induction false} RoomOnlyWithOverlap(entries: seq<Meeting>, list: seq<Slot>, pairs: seq<Pair>, w: Warning)
    requires w in Report(entries, list, pairs) && w.Room?
    ensures Overlap(w.first, w.second) in Report(entries, list, pairs)
  {
    var n := |pairs| - 1;
    if w in Report(entries, list, pairs[..n]) {
      RoomOnlyWithOverlap(entries, list, pairs[..n], w);
    }
  }

  lemma {:induction false} ReportAtLeast(entries: seq<Meeting>, list: seq<Slot>, pairs: seq<Pair>, end: Pair)
    requires Lists(pairs, list, end)
    ensures |Report(entries, list, pairs)| >= |pairs|
  {
    if pairs != [] {
      assert IsClash(list, pairs[|pairs| - 1]);
      ReportAtLeast(entries, list, pairs[..|pairs| - 1], end);
    }
  }

  // ---- no warnings: the day is long enough

  function TotalMinutes(list: seq<Slot>): int {
    if list == [] then 0 else TotalMinutes(list[..|list| - 1]) + list[|list| - 1].e - list[|list| - 1].s
  }

  function Minutes(lo: int, hi: int): (r: set<int>)
    ensures forall m :: m in r <==> lo <= m < hi
    decreases hi - lo
  {
    if lo >= hi then {} else Minutes(lo, hi - 1) + {hi - 1}
  }

  lemma {:induction false} MinutesSize(lo: int, hi: int)
    requires lo <= hi
    ensures |Minutes(lo, hi)| == hi - lo
    decreases hi - lo
  {
    if lo < hi {
      MinutesSize(lo, hi - 1);
    }
  }

  function Busy(list: seq<Slot>): set<int> {
    if list == [] then {} else Busy(list[..|list| - 1]) + Minutes(list[|list| - 1].s, list[|list| - 1].e)
  }

  lemma {:induction false} BusyApart(list: seq<Slot>, x: Slot)
    requires forall i :: 0 <= i < |list| ==> !Overlapping(list[i], x)
    ensures Busy(list) !! Minutes(x.s, x.e)
  {
    if list != [] {
      var n := |list| - 1;
      BusyApart(list[..n], x);
      assert !Overlapping(list[n], x);
    }
  }

  lemma {:induction false} DisjointBusy(list: seq<Slot>)
    requires forall i :: 0 <= i < |list| ==> ValidSlot(list[i])
    requires forall i, j :: 0 <= i < j < |list| ==> !Overlapping(list[i], list[j])
    ensures |Busy(list)| == TotalMinutes(list)
  {
    if list != [] {
      var n := |list| - 1;
      DisjointBusy(list[..n]);
      MinutesSize(list[n].s, list[n].e);
      BusyApart(list[..n], list[n]);
    }
  }

  lemma {:induction false} BusySubset(list: seq<Slot>, limit: int)
    requires forall i :: 0 <= i < |list| ==> 0 <= list[i].s && list[i].e <= limit
    ensures Busy(list) <= Minutes(0, limit)
  {
    if list != [] { BusySubset(list[..|list| - 1], limit); }
  }

  lemma SubsetSize(a: set<int>, b: set<int>)
    requires a <= b
    ensures |a| <= |b|
  {
    assert b == a + (b - a);
  }

  /** When nothing is reported for entries within one day, they last at most 1440 minutes in all. */
  lemma QuietDayFits(entries: seq<Meeting>, list: seq<Slot>)
    requires IsReport(entries, list, []) && forall i :: 0 <= i < |list| ==> ValidSlot(list[i]) && list[i].e <= 1440
    ensures TotalMinutes(list) <= 1440
  {
    var pairs :| Enumerates(pairs, list, Pair(|list|, |list|)) && [] == Report(entries, list, pairs);
    ReportAtLeast(entries, list, pairs, Pair(|list|, |list|));
    forall i, j | 0 <= i < j < |list| ensures !Overlapping(list[i], list[j]) {
      var p := Pair(i, j);
      assert IsClash(list, p) ==> p in pairs;
    }
    DisjointBusy(list);
    BusySubset(list, 1440);
    MinutesSize(0, 1440);
    SubsetSize(Busy(list), Minutes(0, 1440));
  }
}
