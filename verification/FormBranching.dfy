/**
 Which fields of a form are shown (apps/web/src/lib/formLogic.ts:255-318, 381-393).

 The specification is a plain walk: start at the first field, show it unless its rules hide it,
 then go to the field its jump names, or to the next field. `GetVisibleFields` is the one-pass
 program with skip flags, proved to show exactly what the walk shows.
 */
module FormBranching {
  import opened Options
  import opened FormRules
  import StableSort

  const JUMP_END := "__END__"

  ghost predicate UniqueIds(fields: seq<Field>) {
    forall i, j :: 0 <= i < j < |fields| ==> fields[i].id != fields[j].id
  }

  function SortByOrder(fields: seq<Field>): seq<Field> {
    StableSort.Sort(fields, (a: Field, b: Field) => a.order <= b.order)
  }

  function IndexOf(fields: seq<Field>, id: string): (r: nat)
    ensures r <= |fields|
    ensures r < |fields| ==> fields[r].id == id
    ensures forall k :: 0 <= k < r ==> fields[k].id != id
  {
    if fields == [] then 0
    else if fields[0].id == id then 0
    else 1 + IndexOf(fields[1..], id)
  }

  // ---- the walk

  /** Where a walk standing at field `i` goes next. Only a later field can be a target. */
  function NextStop(fields: seq<Field>, answers: Answers, i: nat): (r: nat)
    requires i < |fields|
    ensures i < r <= |fields|
  {
    if IsHiddenByRules(fields[i], answers) then i + 1
    else
      match ResolveJumpTarget(fields[i], answers)
      case None => i + 1
      case Some(target) =>
        if target == JUMP_END then |fields|
        else
          var t := IndexOf(fields, target);
          if i < t < |fields| then t else i + 1
  }

  /** The fields that a walk from position `i` shows, in order. */
  function Walk(fields: seq<Field>, answers: Answers, i: nat): seq<Field>
    decreases |fields| - i
  {
    if i >= |fields| then []
    else (if IsHiddenByRules(fields[i], answers) then [] else [fields[i]])
         + Walk(fields, answers, NextStop(fields, answers, i))
  }

  /** A walk from `i` stops at position `k`. */
  predicate Visits(fields: seq<Field>, answers: Answers, i: nat, k: nat)
    decreases |fields| - i
  {
    i < |fields| && i <= k && (k == i || Visits(fields, answers, NextStop(fields, answers, i), k))
  }

  function VisibleFields(fields: seq<Field>, answers: Answers): seq<Field> {
    Walk(SortByOrder(fields), answers, 0)
  }

  function Ids(fields: seq<Field>): (r: seq<string>)
    ensures |r| == |fields|
    ensures forall i :: 0 <= i < |r| ==> r[i] == fields[i].id
  {
    seq(|fields|, i requires 0 <= i < |fields| => fields[i].id)
  }

  // ---- the walk as a filter of the field list

  lemma {:induction false} FilterDropsSkipped(fields: seq<Field>, gone: set<string>, i: nat, m: nat)
    requires i <= m <= |fields|
    requires forall k :: i <= k < m ==> fields[k].id in gone
    ensures StableSort.Filter(fields[i..], (f: Field) => f.id !in gone)
         == StableSort.Filter(fields[m..], (f: Field) => f.id !in gone)
    decreases m - i
  {
    if i < m {
      assert fields[i..][1..] == fields[i + 1..];
      FilterDropsSkipped(fields, gone, i + 1, m);
    }
  }

  lemma {:induction false} VisitsStep(fields: seq<Field>, answers: Answers, i: nat, k: nat)
    requires i < |fields| && k > i
    ensures Visits(fields, answers, i, k) == Visits(fields, answers, NextStop(fields, answers, i), k)
  {
  }

  lemma {:induction false} WalkIsFilter(fields: seq<Field>, answers: Answers, gone: set<string>, i: nat)
    requires i <= |fields|
    requires forall k :: i <= k < |fields| ==>
      (fields[k].id in gone <==> !Visits(fields, answers, i, k) || IsHiddenByRules(fields[k], answers))
    ensures Walk(fields, answers, i) == StableSort.Filter(fields[i..], (f: Field) => f.id !in gone)
    decreases |fields| - i
  {
    if i < |fields| {
      var m := NextStop(fields, answers, i);
      forall k | m <= k < |fields|
        ensures fields[k].id in gone <==> !Visits(fields, answers, m, k) || IsHiddenByRules(fields[k], answers)
      {
        VisitsStep(fields, answers, i, k);
      }
      WalkIsFilter(fields, answers, gone, m);
      forall k | i + 1 <= k < m ensures fields[k].id in gone {
        VisitsStep(fields, answers, i, k);
      }
      FilterDropsSkipped(fields, gone, i + 1, m);
      assert fields[i..][1..] == fields[i + 1..];
    }
  }

  // ---- the one-pass program

  datatype VisibleResult = VisibleResult(
    visible: seq<Field>, hiddenIds: seq<string>, visibleIds: seq<string>, jumpsFired: map<string, string>)

  /** The jump of the field at `p`, if it is shown and asks for one. */
  function JumpFrom(fields: seq<Field>, answers: Answers, p: nat): Option<string>
    requires p < |fields|
  {
    if IsHiddenByRules(fields[p], answers) then None else ResolveJumpTarget(fields[p], answers)
  }

  /** For each position, the jump the walk takes there. */
  function Jumps(fields: seq<Field>, answers: Answers): (r: seq<Option<string>>)
    ensures |r| == |fields|
    ensures forall k :: 0 <= k < |r| ==>
      r[k] == if Visits(fields, answers, 0, k) then JumpFrom(fields, answers, k) else None
  {
    seq(|fields|, k requires 0 <= k < |fields| => if Visits(fields, answers, 0, k) then JumpFrom(fields, answers, k)
        else None)
  }

  /** Of the first `upTo` ids, `fired` maps exactly those with a jump, to that jump. */
  ghost predicate Records(fired: map<string, string>, ids: seq<string>, jumps: seq<Option<string>>, upTo: nat)
    requires upTo <= |ids| == |jumps|
  {
    && (forall k :: 0 <= k < upTo ==> (ids[k] in fired <==> jumps[k].Some?))
    && (forall k :: 0 <= k < upTo && jumps[k].Some? ==> ids[k] in fired && fired[ids[k]] == jumps[k].value)
    && (forall id :: id in fired ==> id in ids[..upTo])
  }

  lemma RecordOne(fired: map<string, string>, ids: seq<string>, jumps: seq<Option<string>>, p: nat)
    requires p < |ids| == |jumps| && Records(fired, ids, jumps, p)
    requires forall i, j :: 0 <= i < j < |ids| ==> ids[i] != ids[j]
    ensures Records(if jumps[p].Some? then fired[ids[p] := jumps[p].value] else fired, ids, jumps, p + 1)
  {
    assert ids[..p + 1] == ids[..p] + [ids[p]];
    assert ids[p] !in ids[..p];
  }

  lemma RecordField(fired: map<string, string>, fields: seq<Field>, answers: Answers, p: nat)
    requires p < |fields| && UniqueIds(fields) && Records(fired, Ids(fields), Jumps(fields, answers), p)
    ensures var jump := Jumps(fields, answers)[p];
      Records(if jump.Some? then fired[fields[p].id := jump.value] else fired,
              Ids(fields), Jumps(fields, answers), p + 1)
  {
    RecordOne(fired, Ids(fields), Jumps(fields, answers), p);
  }

  /** `ids` are the ids of the first `upTo` fields that their own rules hide. */
  ghost predicate RuleHiddenIds(ids: set<string>, fields: seq<Field>, answers: Answers, upTo: nat)
    requires upTo <= |fields|
  {
    && (forall k :: 0 <= k < upTo && IsHiddenByRules(fields[k], answers) ==> fields[k].id in ids)
    && (forall id :: id in ids ==>
          exists k :: 0 <= k < upTo && fields[k].id == id && IsHiddenByRules(fields[k], answers))
  }

  method CollectRuleHidden(sorted: seq<Field>, answers: Answers) returns (ruleHidden: set<string>)
    ensures RuleHiddenIds(ruleHidden, sorted, answers, |sorted|)
    ensures forall id :: id in ruleHidden <==> exists f :: f in sorted && f.id == id && !MayShow(f, answers)
  {
    hide IsHiddenByRules, MayShow;
    ruleHidden := {};
    for p := 0 to |sorted|
      invariant RuleHiddenIds(ruleHidden, sorted, answers, p)
    {
      if IsHiddenByRules(sorted[p], answers) {
        ruleHidden := ruleHidden + {sorted[p].id};
      }
    }
    HiddenIds(ruleHidden, sorted, answers);
  }

  lemma HiddenIds(ids: set<string>, fields: seq<Field>, answers: Answers)
    requires RuleHiddenIds(ids, fields, answers, |fields|)
    ensures forall id :: id in ids <==> exists f :: f in fields && f.id == id && !MayShow(f, answers)
  {
    hide IsHiddenByRules, MayShow;
    forall f ensures IsHiddenByRules(f, answers) <==> !MayShow(f, answers) { HiddenIff(f, answers); }
    forall id | id in ids ensures exists f :: f in fields && f.id == id && !MayShow(f, answers) {
      var k :| 0 <= k < |fields| && fields[k].id == id && IsHiddenByRules(fields[k], answers);
      assert fields[k] in fields;
    }
  }

  /** After the pass has looked at `p` fields, the rest of the walk is the walk from `next`. */
  ghost predicate Resumes(fields: seq<Field>, answers: Answers, p: nat, next: nat) {
    && p <= next <= |fields|
    && forall k :: p <= k < |fields| ==> Visits(fields, answers, 0, k) == Visits(fields, answers, next, k)
  }

  /** Of the first `upTo` fields, `ids` are those the walk does not visit. */
  ghost predicate SkippedIds(ids: set<string>, fields: seq<Field>, answers: Answers, upTo: nat)
    requires upTo <= |fields|
  {
    && (forall k :: 0 <= k < upTo ==> (fields[k].id in ids <==> !Visits(fields, answers, 0, k)))
    && (forall id :: id in ids ==> exists k :: 0 <= k < upTo && fields[k].id == id)
  }

  lemma NotAmongEarlier(ids: set<string>, fields: seq<Field>, answers: Answers, p: nat)
    requires UniqueIds(fields) && p < |fields| && SkippedIds(ids, fields, answers, p)
    ensures fields[p].id !in ids
  {
  }

  lemma VisitsAtEnd(fields: seq<Field>, answers: Answers, i: nat, k: nat)
    requires k < i
    ensures !Visits(fields, answers, i, k)
  {
  }

  lemma PassOver(fields: seq<Field>, answers: Answers, p: nat, next: nat, ids: set<string>)
    requires UniqueIds(fields) && p < next && Resumes(fields, answers, p, next) && p < |fields|
    requires SkippedIds(ids, fields, answers, p)
    ensures Resumes(fields, answers, p + 1, next)
    ensures SkippedIds(ids + {fields[p].id}, fields, answers, p + 1)
    ensures !Visits(fields, answers, 0, p)
  {
    VisitsAtEnd(fields, answers, next, p);
  }

  lemma StopAt(fields: seq<Field>, answers: Answers, p: nat, ids: set<string>)
    requires UniqueIds(fields) && p < |fields| && Resumes(fields, answers, p, p)
    requires SkippedIds(ids, fields, answers, p)
    ensures Visits(fields, answers, 0, p)
    ensures Resumes(fields, answers, p + 1, NextStop(fields, answers, p))
    ensures SkippedIds(ids, fields, answers, p + 1) && fields[p].id !in ids
  {
    NotAmongEarlier(ids, fields, answers, p);
    forall k | p + 1 <= k < |fields|
      ensures Visits(fields, answers, 0, k) == Visits(fields, answers, NextStop(fields, answers, p), k)
    {
      VisitsStep(fields, answers, p, k);
    }
  }

  lemma SameField(fields: seq<Field>, i: nat, j: nat)
    requires UniqueIds(fields) && i < |fields| && j < |fields| && fields[i].id == fields[j].id
    ensures i == j
  {
  }

  /** With unique ids, an id finds its own field again. */
  lemma KnownHere(fields: seq<Field>, answers: Answers, ruleHidden: set<string>, p: nat)
    requires UniqueIds(fields) && p < |fields| && RuleHiddenIds(ruleHidden, fields, answers, |fields|)
    ensures fields[p].id in ruleHidden <==> IsHiddenByRules(fields[p], answers)
    ensures IndexOf(fields, fields[p].id) == p
  {
    if fields[p].id in ruleHidden {
      var k :| 0 <= k < |fields| && fields[k].id == fields[p].id && IsHiddenByRules(fields[k], answers);
      assert k == p;
    }
    assert IndexOf(fields, fields[p].id) <= p;
  }

  lemma NothingRead(sorted: seq<Field>, answers: Answers)
    ensures SkippedIds({}, sorted, answers, 0) && Records(map[], Ids(sorted), Jumps(sorted, answers), 0)
  {
  }

  /** One pass over the sorted fields: which fields jumps skip, and which jumps fired. */
  method SkipPass(sorted: seq<Field>, answers: Answers, ruleHidden: set<string>)
    returns (jumpHidden: set<string>, jumpsFired: map<string, string>)
    requires RuleHiddenIds(ruleHidden, sorted, answers, |sorted|)
    ensures UniqueIds(sorted) ==> SkippedIds(jumpHidden, sorted, answers, |sorted|)
    ensures UniqueIds(sorted) ==> Records(jumpsFired, Ids(sorted), Jumps(sorted, answers), |sorted|)
  {
    hide IsHiddenByRules, ResolveJumpTarget, Visits, UniqueIds, RuleHiddenIds, IndexOf, SkippedIds, Records;
    NothingRead(sorted, answers);
    ghost var unique := UniqueIds(sorted);
    ghost var next: nat := 0;  // where the walk will stop next
    jumpHidden, jumpsFired := {}, map[];
    var skipUntilId: Option<string> := None;
    var skippingToEnd := false;
    var skipping := false;
    for p := 0 to |sorted|
      invariant unique ==> Resumes(sorted, answers, p, next)
      invariant unique && !skippingToEnd && !skipping ==> next == p
      invariant unique && skippingToEnd ==> next == |sorted|
      invariant unique && !skippingToEnd && skipping ==> next < |sorted| && skipUntilId == Some(sorted[next].id)
      invariant unique ==> SkippedIds(jumpHidden, sorted, answers, p)
      invariant unique ==> Records(jumpsFired, Ids(sorted), Jumps(sorted, answers), p)
    {
      var fid := sorted[p].id;
      if unique { RecordField(jumpsFired, sorted, answers, p); }
      if skippingToEnd {
        if unique { PassOver(sorted, answers, p, next, jumpHidden); }
        jumpHidden := jumpHidden + {fid};
        continue;
      }
      if skipping {
        if skipUntilId == Some(fid) {
          if unique { SameField(sorted, p, next); }
          skipping := false;
          skipUntilId := None;
        } else {
          if unique { PassOver(sorted, answers, p, next, jumpHidden); }
          jumpHidden := jumpHidden + {fid};
          continue;
        }
      }
      if unique {
        StopAt(sorted, answers, p, jumpHidden);
        KnownHere(sorted, answers, ruleHidden, p);
      }
      next := NextStop(sorted, answers, p);
      if fid in ruleHidden || fid in jumpHidden {
        continue;
      }
      var target := ResolveJumpTarget(sorted[p], answers);
      if target.Some? {
        jumpsFired := jumpsFired[fid := target.value];
        if target.value == JUMP_END {
          skippingToEnd := true;
        } else {
          var curIdx := IndexOf(sorted, fid);
          var tgtIdx := IndexOf(sorted, target.value);
          if tgtIdx < |sorted| && tgtIdx > curIdx {
            skipping := true;
            skipUntilId := target;
          }
        }
      }
    }
  }

  /** With unique ids a field is shown exactly when the walk stops at it and nothing hides it. */
  lemma ShownIff(fields: seq<Field>, a: Answers, k: nat)
    requires UniqueIds(fields) && k < |SortByOrder(fields)|
    ensures var f := SortByOrder(fields)[k];
      f in VisibleFields(fields, a) <==> Visits(SortByOrder(fields), a, 0, k) && MayShow(f, a)
  {
    hide IsHiddenByRules, MayShow, SortByOrder;
    SortByOrderKeeps(fields);
    var sorted := SortByOrder(fields);
    HiddenIff(sorted[k], a);
    WalkHas(sorted, a, 0, sorted[k]);
    forall j | 0 <= j < |sorted| && sorted[j] == sorted[k] ensures j == k { SameField(sorted, j, k); }
  }

  /** The walk shows the fields that it stops at and that are not hidden. */
  lemma {:induction false} WalkHas(fields: seq<Field>, a: Answers, i: nat, f: Field)
    ensures f in Walk(fields, a, i)
       <==> exists k :: 0 <= k < |fields| && fields[k] == f && Visits(fields, a, i, k) && !IsHiddenByRules(f, a)
    decreases |fields| - i
  {
    hide IsHiddenByRules;
    if i < |fields| {
      var m := NextStop(fields, a, i);
      WalkHas(fields, a, m, f);
      forall k | 0 <= k < |fields| ensures Visits(fields, a, i, k) <==> k == i || Visits(fields, a, m, k) {
        if k > i { VisitsStep(fields, a, i, k); } else { VisitsAtEnd(fields, a, m, k); }
      }
    }
  }

  lemma FiredByShown(fields: seq<Field>, answers: Answers, visible: seq<Field>, fired: map<string, string>)
    requires UniqueIds(SortByOrder(fields)) && visible == VisibleFields(fields, answers)
    requires forall f :: f in fields ==> f in SortByOrder(fields)
    requires var sorted := SortByOrder(fields); Records(fired, Ids(sorted), Jumps(sorted, answers), |sorted|)
    requires var sorted := SortByOrder(fields);
      forall k :: 0 <= k < |sorted| ==>
        (sorted[k] in visible <==> Visits(sorted, answers, 0, k) && MayShow(sorted[k], answers))
    ensures forall f :: f in fields ==>
      && (f.id in fired <==> f in visible && ResolveJumpTarget(f, answers).Some?)
      && (f.id in fired ==> ResolveJumpTarget(f, answers) == Some(fired[f.id]))
  {
    hide MayShow, IsHiddenByRules, ResolveJumpTarget, SortByOrder, Visits, VisibleFields;
    var sorted := SortByOrder(fields);
    forall f | f in fields
      ensures f.id in fired <==> f in visible && ResolveJumpTarget(f, answers).Some?
      ensures f.id in fired ==> ResolveJumpTarget(f, answers) == Some(fired[f.id])
    {
      var k :| 0 <= k < |sorted| && sorted[k] == f;
      HiddenIff(f, answers);
      assert Ids(sorted)[k] == f.id;
      assert Jumps(sorted, answers)[k] == if Visits(sorted, answers, 0, k) then JumpFrom(sorted, answers, k) else None;
    }
  }

  method GetVisibleFields(fields: seq<Field>, answers: Answers) returns (r: VisibleResult)
    ensures UniqueIds(fields) ==> r.visible == VisibleFields(fields, answers)
    ensures UniqueIds(fields) ==>
      var sorted := SortByOrder(fields);
      Records(r.jumpsFired, Ids(sorted), Jumps(sorted, answers), |sorted|)
    // Every field is listed once, as visible or as hidden, in the order of the form.
    ensures r.visible == StableSort.Filter(SortByOrder(fields), (f: Field) => f.id !in r.hiddenIds)
    ensures r.hiddenIds == Ids(StableSort.Filter(SortByOrder(fields), (f: Field) => f.id in r.hiddenIds))
    ensures r.visibleIds == Ids(r.visible)
    // A field is shown when the walk stops at it and nothing hides it; what is hidden is never shown.
    ensures forall f :: f in r.visible ==> MayShow(f, answers)
    ensures UniqueIds(fields) ==>
      var sorted := SortByOrder(fields);
      forall k :: 0 <= k < |sorted| ==>
        (sorted[k] in r.visible <==> Visits(sorted, answers, 0, k) && MayShow(sorted[k], answers))
    // The jumps that fired are those of the shown fields.
    ensures UniqueIds(fields) ==> forall f :: f in fields ==>
      && (f.id in r.jumpsFired <==> f in r.visible && ResolveJumpTarget(f, answers).Some?)
      && (f.id in r.jumpsFired ==> ResolveJumpTarget(f, answers) == Some(r.jumpsFired[f.id]))
  {
    hide MayShow, IsHiddenByRules, ResolveJumpTarget, Visits, Records, Jumps, SkippedIds, RuleHiddenIds, SortByOrder,
        VisibleFields;
    var sorted := SortByOrder(fields);
    ghost var unique := UniqueIds(fields);
    SortByOrderKeeps(fields);

    var ruleHidden := CollectRuleHidden(sorted, answers);
    var jumpHidden, jumpsFired := SkipPass(sorted, answers, ruleHidden);
    var visible, hiddenIds := Partition(sorted, ruleHidden + jumpHidden);
    if unique {
      WalkShows(fields, answers, ruleHidden, jumpHidden, visible);
      forall f | f in fields ensures f in sorted { assert f in multiset(fields); }
      FiredByShown(fields, answers, visible, jumpsFired);
    }
    VisibleMayShow(sorted, answers, ruleHidden, jumpHidden, visible);
    r := VisibleResult(visible, hiddenIds, Ids(visible), jumpsFired);
  }

  lemma WalkShows(fields: seq<Field>, answers: Answers, ruleHidden: set<string>, jumpHidden: set<string>,
                  visible: seq<Field>)
    requires UniqueIds(fields) && RuleHiddenIds(ruleHidden, SortByOrder(fields), answers, |SortByOrder(fields)|)
    requires UniqueIds(SortByOrder(fields)) ==>
      SkippedIds(jumpHidden, SortByOrder(fields), answers, |SortByOrder(fields)|)
    requires visible == StableSort.Filter(SortByOrder(fields), (f: Field) => f.id !in ruleHidden + jumpHidden)
    ensures UniqueIds(SortByOrder(fields)) && visible == VisibleFields(fields, answers)
    ensures var sorted := SortByOrder(fields);
      forall k :: 0 <= k < |sorted| ==>
        (sorted[k] in visible <==> Visits(sorted, answers, 0, k) && MayShow(sorted[k], answers))
  {
    hide MayShow, IsHiddenByRules, Visits, SortByOrder;
    var sorted := SortByOrder(fields);
    SortByOrderKeeps(fields);
    WalkIsFilter(sorted, answers, ruleHidden + jumpHidden, 0);
    assert sorted[0..] == sorted;
    forall k | 0 <= k < |sorted|
      ensures sorted[k] in visible <==> Visits(sorted, answers, 0, k) && MayShow(sorted[k], answers)
    {
      ShownIff(fields, answers, k);
    }
  }

  lemma VisibleMayShow(sorted: seq<Field>, answers: Answers, ruleHidden: set<string>, jumpHidden: set<string>,
                       visible: seq<Field>)
    requires RuleHiddenIds(ruleHidden, sorted, answers, |sorted|)
    requires visible == StableSort.Filter(sorted, (f: Field) => f.id !in ruleHidden + jumpHidden)
    ensures forall f :: f in visible ==> MayShow(f, answers)
  {
    hide MayShow, IsHiddenByRules;
    forall f | f in visible ensures MayShow(f, answers) {
      HiddenIff(f, answers);
      var k :| 0 <= k < |sorted| && sorted[k] == f;
    }
  }

  lemma IdsAppend(fields: seq<Field>, f: Field)
    ensures Ids(fields + [f]) == Ids(fields) + [f.id]
  {
  }

  method Partition(sorted: seq<Field>, gone: set<string>) returns (visible: seq<Field>, hiddenIds: seq<string>)
    ensures visible == StableSort.Filter(sorted, (f: Field) => f.id !in gone)
    ensures hiddenIds == Ids(StableSort.Filter(sorted, (f: Field) => f.id in gone))
    ensures visible == StableSort.Filter(sorted, (f: Field) => f.id !in hiddenIds)
    ensures hiddenIds == Ids(StableSort.Filter(sorted, (f: Field) => f.id in hiddenIds))
  {
    visible, hiddenIds := [], [];
    for k := 0 to |sorted|
      invariant visible == StableSort.Filter(sorted[..k], (f: Field) => f.id !in gone)
      invariant hiddenIds == Ids(StableSort.Filter(sorted[..k], (f: Field) => f.id in gone))
    {
      StableSort.FilterNext(sorted, k, (f: Field) => f.id !in gone);
      StableSort.FilterNext(sorted, k, (f: Field) => f.id in gone);
      if sorted[k].id in gone {
        IdsAppend(StableSort.Filter(sorted[..k], (f: Field) => f.id in gone), sorted[k]);
        hiddenIds := hiddenIds + [sorted[k].id];
      } else {
        visible := visible + [sorted[k]];
      }
    }
    assert sorted[..|sorted|] == sorted;
    PartitionByHidden(sorted, gone, hiddenIds);
  }

  lemma PartitionByHidden(sorted: seq<Field>, gone: set<string>, ids: seq<string>)
    requires ids == Ids(StableSort.Filter(sorted, (f: Field) => f.id in gone))
    ensures StableSort.Filter(sorted, (f: Field) => f.id !in gone)
        == StableSort.Filter(sorted, (f: Field) => f.id !in ids)
    ensures StableSort.Filter(sorted, (f: Field) => f.id in gone)
        == StableSort.Filter(sorted, (f: Field) => f.id in ids)
  {
    HiddenExactly(sorted, gone, ids);
    StableSort.FilterAgrees(sorted, (f: Field) => f.id !in gone, (f: Field) => f.id !in ids);
    StableSort.FilterAgrees(sorted, (f: Field) => f.id in gone, (f: Field) => f.id in ids);
  }

  lemma HiddenExactly(sorted: seq<Field>, gone: set<string>, hiddenIds: seq<string>)
    requires hiddenIds == Ids(StableSort.Filter(sorted, (f: Field) => f.id in gone))
    ensures forall f :: f in sorted ==> (f.id in gone <==> f.id in hiddenIds)
  {
    var hidden := StableSort.Filter(sorted, (f: Field) => f.id in gone);
    assert forall i :: 0 <= i < |hidden| ==> hidden[i] in hidden;
    forall f | f in sorted ensures f.id in gone <==> f.id in hiddenIds {
      if f.id in gone {
        assert f in hidden;
        var i :| 0 <= i < |hidden| && hidden[i] == f;
        assert hiddenIds[i] == f.id;
      }
    }
  }

  lemma {:induction false} UniqueMultiplicity(fields: seq<Field>, f: Field)
    requires UniqueIds(fields)
    ensures multiset(fields)[f] <= 1
  {
    if fields != [] {
      UniqueMultiplicity(fields[1..], f);
      assert fields == [fields[0]] + fields[1..];
      assert f == fields[0] ==> f !in fields[1..];
    }
  }

  lemma Repeated(fields: seq<Field>, i: nat, j: nat)
    requires i < j < |fields| && fields[i] == fields[j]
    ensures multiset(fields)[fields[i]] >= 2
  {
    assert fields == fields[..j] + fields[j..];
    assert fields[i] in fields[..j] && fields[j] in fields[j..];
  }

  lemma PermutationKeepsUniqueIds(fields: seq<Field>, other: seq<Field>)
    requires UniqueIds(fields) && multiset(fields) == multiset(other)
    ensures UniqueIds(other)
  {
    forall i, j | 0 <= i < j < |other| ensures other[i].id != other[j].id {
      assert other[i] in multiset(fields) && other[j] in multiset(fields);
      if other[i] == other[j] {
        Repeated(other, i, j);
        UniqueMultiplicity(fields, other[i]);
      }
    }
  }

  lemma SortByOrderKeeps(fields: seq<Field>)
    ensures multiset(SortByOrder(fields)) == multiset(fields)
    ensures UniqueIds(fields) ==> UniqueIds(SortByOrder(fields))
  {
    StableSort.SortSorts(fields, (a: Field, b: Field) => a.order <= b.order);
    if UniqueIds(fields) { PermutationKeepsUniqueIds(fields, SortByOrder(fields)); }
  }
}
