/**
 Which entries the clash report names (apps/web/src/lib/timetableMerge.ts:141-164): those that are on
 at the same minute, and of these the ones in the same room.
 */
module ClashMeaning {
  import opened Options
  import opened JsText
  import opened TextLaws
  import opened TimetableClashes

  /** The minute an entry starts or ends at: the one it gives, else the one the clock reads off its time. */
  function MinuteOf(given: Option<int>, time: string, clock: Clock): Option<int> {
    if given.Some? then given else clock(time)
  }

  /** The entry is on at minute `x` of the day: its start and end are known; it has started and not ended. */
  predicate IsOn(m: Meeting, x: int, clock: Clock) {
    match (MinuteOf(m.startMinutes, m.startTime, clock), MinuteOf(m.endMinutes, m.endTime, clock))
    case (Some(s), Some(e)) => 0 <= s <= x < e
    case _ => false
  }

  /** Both entries name a room, and the same one but for white space around it and the case of letters. */
  predicate SharesRoom(a: Meeting, b: Meeting) {
    var r, q := Trim(a.location), Trim(b.location);
    !AllSpace(a.location) && |r| == |q| && forall i :: 0 <= i < |r| ==> SameLetter(r[i], q[i])
  }

  lemma OnIff(m: Meeting, x: int, clock: Clock)
    ensures var s := SlotOf(m, clock);
      IsOn(m, x, clock) <==> ValidSlot(s) && s.s <= x < s.e
  {
    hide Trim, Lower;
  }

  /** Two valid entries overlap exactly when some minute falls in both. */
  lemma OverlapIff(a: Meeting, b: Meeting, clock: Clock)
    ensures var p, q := SlotOf(a, clock), SlotOf(b, clock);
      ValidSlot(p) && ValidSlot(q) && Overlapping(p, q) <==> exists x :: IsOn(a, x, clock) && IsOn(b, x, clock)
  {
    hide SlotOf, IsOn;
    var p, q := SlotOf(a, clock), SlotOf(b, clock);
    forall x ensures IsOn(a, x, clock) <==> ValidSlot(p) && p.s <= x < p.e { OnIff(a, x, clock); }
    forall x ensures IsOn(b, x, clock) <==> ValidSlot(q) && q.s <= x < q.e { OnIff(b, x, clock); }
    if ValidSlot(p) && ValidSlot(q) && Overlapping(p, q) {
      var x := if p.s > q.s then p.s else q.s;
      assert IsOn(a, x, clock) && IsOn(b, x, clock);
    }
  }

  lemma RoomIff(a: Meeting, b: Meeting, clock: Clock)
    ensures SameRoom(SlotOf(a, clock), SlotOf(b, clock)) <==> SharesRoom(a, b)
  {
    hide Trim, Lower, AllSpace;
    BlankIff(a.location);
    LowerSameIff(Trim(a.location), Trim(b.location));
    LowerSameIff(Trim(a.location), "");
    LowerNothing();
  }

  lemma LowerNothing()
    ensures Lower("") == ""
  {
  }

  // ---- where an entry stands in the list of valid entries

  ghost predicate UniqueEntries(entries: seq<Meeting>) {
    forall i, j :: 0 <= i < j < |entries| ==> entries[i].id != entries[j].id
  }

  /** Where the slot of a valid entry stands. */
  lemma {:induction false} PlaceOf(entries: seq<Meeting>, clock: Clock, i: nat) returns (p: nat)
    requires i < |entries| && ValidSlot(SlotOf(entries[i], clock))
    ensures p < |Slots(entries, clock)| && Slots(entries, clock)[p] == SlotOf(entries[i], clock)
  {
    hide SlotOf, ValidSlot;
    if i == 0 {
      p := 0;
    } else {
      p := PlaceOf(entries[1..], clock, i - 1);
      p := p + |Slots(entries, clock)| - |Slots(entries[1..], clock)|;
    }
  }

  /** The slots of two valid entries stand in the order of the entries. */
  lemma {:induction false} PlacesOf(entries: seq<Meeting>, clock: Clock, i: nat, j: nat) returns (p: nat, q: nat)
    requires i < j < |entries| && ValidSlot(SlotOf(entries[i], clock)) && ValidSlot(SlotOf(entries[j], clock))
    ensures p < q < |Slots(entries, clock)|
    ensures Slots(entries, clock)[p] == SlotOf(entries[i], clock)
    ensures Slots(entries, clock)[q] == SlotOf(entries[j], clock)
  {
    hide SlotOf, ValidSlot;
    if i == 0 {
      p := 0;
      q := PlaceOf(entries[1..], clock, j - 1);
      q := q + 1;
    } else {
      p, q := PlacesOf(entries[1..], clock, i - 1, j - 1);
      var first := |Slots(entries, clock)| - |Slots(entries[1..], clock)|;
      p, q := p + first, q + first;
    }
  }

  /** The entry that a slot comes from. */
  lemma {:induction false} SourceOf(entries: seq<Meeting>, clock: Clock, p: nat) returns (i: nat)
    requires p < |Slots(entries, clock)|
    ensures i < |entries| && Slots(entries, clock)[p] == SlotOf(entries[i], clock)
  {
    hide SlotOf, ValidSlot;
    var first := |Slots(entries, clock)| - |Slots(entries[1..], clock)|;
    if p < first {
      i := 0;
    } else {
      i := SourceOf(entries[1..], clock, p - first);
      i := i + 1;
    }
  }

  /** Two slots come from entries in the same order. */
  lemma {:induction false} SourcesOf(entries: seq<Meeting>, clock: Clock, p: nat, q: nat) returns (i: nat, j: nat)
    requires p < q < |Slots(entries, clock)|
    ensures i < j < |entries|
    ensures Slots(entries, clock)[p] == SlotOf(entries[i], clock)
    ensures Slots(entries, clock)[q] == SlotOf(entries[j], clock)
  {
    hide SlotOf, ValidSlot;
    var first := |Slots(entries, clock)| - |Slots(entries[1..], clock)|;
    if p < first {
      i := 0;
      j := SourceOf(entries[1..], clock, q - first);
      j := j + 1;
    } else {
      i, j := SourcesOf(entries[1..], clock, p - first, q - first);
      i, j := i + 1, j + 1;
    }
  }

  // ---- the report

  lemma {:induction false} ReportHas(entries: seq<Meeting>, list: seq<Slot>, pairs: seq<Pair>, w: Warning)
    requires forall k :: 0 <= k < |pairs| ==> pairs[k].i < |list| && pairs[k].j < |list|
    ensures w in Report(entries, list, pairs)
       <==> exists p :: p in pairs && p.i < |list| && p.j < |list| && w in WarningsFor(entries, list[p.i], list[p.j])
  {
    hide WarningsFor;
    if pairs != [] {
      var front, p := pairs[..|pairs| - 1], pairs[|pairs| - 1];
      assert pairs == front + [p];
      ReportHas(entries, list, front, w);
    }
  }

  lemma {:induction false} LabelOf(entries: seq<Meeting>, i: nat, clock: Clock)
    requires UniqueEntries(entries) && i < |entries| && entries[i].location != ""
    ensures RoomLabel(entries, SlotOf(entries[i], clock)) == entries[i].location
  {
    hide Trim, Lower;
    if i > 0 {
      assert entries[0].id != entries[i].id && entries[1..][i - 1] == entries[i];
      LabelOf(entries[1..], i - 1, clock);
    }
  }

  /** Two entries, in this order, give a warning exactly when their slots are valid and overlap. */
  lemma {:induction false} PairReported(entries: seq<Meeting>, clock: Clock, warnings: seq<Warning>, i: nat, j: nat,
                                        w: Warning)
    requires UniqueEntries(entries) && i < j < |entries| && IsReport(entries, Slots(entries, clock), warnings)
    requires w.first == entries[i].id && w.second == entries[j].id
    ensures var a, b := SlotOf(entries[i], clock), SlotOf(entries[j], clock);
      w in warnings <==> ValidSlot(a) && ValidSlot(b) && Overlapping(a, b) && w in WarningsFor(entries, a, b)
  {
    hide SlotOf, ValidSlot, Overlapping, Report, Slots, WarningsFor;
    var list := Slots(entries, clock);
    var pairs: seq<Pair> :| Enumerates(pairs, list, Pair(|list|, |list|)) && warnings == Report(entries, list, pairs);
    forall k | 0 <= k < |pairs| ensures pairs[k].i < |list| && pairs[k].j < |list| {
      assert IsClash(list, pairs[k]);
    }
    ReportHas(entries, list, pairs, w);
    if w in warnings {
      var p: Pair :| p in pairs && p.i < |list| && p.j < |list| && w in WarningsFor(entries, list[p.i], list[p.j]);
      PairIs(entries, clock, p.i, p.j, i, j, w);
    }
    var a, b := SlotOf(entries[i], clock), SlotOf(entries[j], clock);
    if ValidSlot(a) && ValidSlot(b) && Overlapping(a, b) && w in WarningsFor(entries, a, b) {
      var p, q := PlacesOf(entries, clock, i, j);
      assert IsClash(list, Pair(p, q)) && Before(Pair(p, q), Pair(|list|, |list|));
    }
  }

  lemma NamedIn(entries: seq<Meeting>, a: Slot, b: Slot, w: Warning)
    requires w in WarningsFor(entries, a, b)
    ensures w.first == a.id && w.second == b.id
  {
  }

  lemma SlotId(m: Meeting, clock: Clock)
    ensures SlotOf(m, clock).id == m.id
  {
  }

  lemma {:induction false} PairIs(entries: seq<Meeting>, clock: Clock, p: nat, q: nat, i: nat, j: nat, w: Warning)
    requires UniqueEntries(entries) && i < j < |entries| && p < q < |Slots(entries, clock)|
    requires w in WarningsFor(entries, Slots(entries, clock)[p], Slots(entries, clock)[q])
    requires w.first == entries[i].id && w.second == entries[j].id
    ensures Slots(entries, clock)[p] == SlotOf(entries[i], clock)
    ensures Slots(entries, clock)[q] == SlotOf(entries[j], clock)
  {
    hide SlotOf, ValidSlot, Slots, WarningsFor;
    NamedIn(entries, Slots(entries, clock)[p], Slots(entries, clock)[q], w);
    var k, m := SourcesOf(entries, clock, p, q);
    SlotId(entries[k], clock);
    SlotId(entries[m], clock);
    assert k == i && m == j;
  }

  /**
   With unique ids, two entries are reported as overlapping exactly when some minute falls in both, and as a
   room clash, under the room as the first one writes it, exactly when moreover they share a room.
   */
  lemma {:induction false} ReportedIff(entries: seq<Meeting>, clock: Clock, warnings: seq<Warning>, i: nat, j: nat,
                                       place: string)
    requires UniqueEntries(entries) && i < j < |entries| && IsReport(entries, Slots(entries, clock), warnings)
    ensures var a, b := entries[i], entries[j];
      && (Overlap(a.id, b.id) in warnings <==> exists x :: IsOn(a, x, clock) && IsOn(b, x, clock))
      && (Room(place, a.id, b.id) in warnings <==>
            SharesRoom(a, b) && place == a.location && exists x :: IsOn(a, x, clock) && IsOn(b, x, clock))
  {
    hide IsOn, ValidSlot, Overlapping, SlotOf, SameRoom, SharesRoom, IsReport, RoomLabel, Slots;
    var a, b := entries[i], entries[j];
    var s, t := SlotOf(a, clock), SlotOf(b, clock);
    PairReported(entries, clock, warnings, i, j, Overlap(a.id, b.id));
    PairReported(entries, clock, warnings, i, j, Room(place, a.id, b.id));
    OverlapIff(a, b, clock);
    RoomIff(a, b, clock);
    SlotId(a, clock);
    SlotId(b, clock);
    if SharesRoom(a, b) {
      NamesARoom(a, b);
      LabelOf(entries, i, clock);
    }
    assert Overlap(a.id, b.id) in WarningsFor(entries, s, t);
    assert Room(place, a.id, b.id) in WarningsFor(entries, s, t) <==> SameRoom(s, t) && place == RoomLabel(entries, s);
  }

  lemma NamesARoom(a: Meeting, b: Meeting)
    requires SharesRoom(a, b)
    ensures a.location != ""
  {
  }
}
