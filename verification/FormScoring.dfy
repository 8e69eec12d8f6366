/**
 Scoring and validation of form answers (apps/web/src/lib/formLogic.ts:102-121, 320-393), and
 the non-interference theorem: answers of hidden fields that no condition names are not seen.
 */
module FormScoring {
  import opened Options
  import opened FormRules
  import opened FormBranching
  import StableSort

  /** The points of the last option labelled `name`. */
  function LastPoints(options: seq<(string, real)>, name: string): Option<real> {
    if options == [] then None
    else
      var later := LastPoints(options[1..], name);
      if later.Some? then later else if options[0].0 == name then Some(options[0].1) else None
  }

  /** Points per label: the score map overrides the options, a later option an earlier one. */
  function OptionPoints(f: Field, name: string): real {
    if name in f.scoreMap then f.scoreMap[name] else
      match LastPoints(f.options, name)
      case Some(p) => p
      case None => 0.0
  }

  lemma {:induction false} LastPointsAppend(options: seq<(string, real)>, o: (string, real), name: string)
    ensures LastPoints(options + [o], name) == if o.0 == name then Some(o.1) else LastPoints(options, name)
  {
    if options == [] {
      assert options + [o] == [o] && [o][1..] == [];
    } else {
      LastPointsAppend(options[1..], o, name);
      assert (options + [o])[1..] == options[1..] + [o];
    }
  }

  /** The map holds the points of the last option with each label. */
  ghost predicate HoldsLast(merged: map<string, real>, options: seq<(string, real)>) {
    forall name :: LastPoints(options, name) == if name in merged then Some(merged[name]) else None
  }

  lemma HoldsOneMore(merged: map<string, real>, options: seq<(string, real)>, i: nat)
    requires i < |options| && HoldsLast(merged, options[..i])
    ensures HoldsLast(merged[options[i].0 := options[i].1], options[..i + 1])
  {
    hide LastPoints;
    var more := merged[options[i].0 := options[i].1];
    assert options[..i + 1] == options[..i] + [options[i]];
    forall name ensures LastPoints(options[..i + 1], name) == if name in more then Some(more[name]) else None {
      assert LastPoints(options[..i], name) == if name in merged then Some(merged[name]) else None;
      LastPointsAppend(options[..i], options[i], name);
    }
  }

  method ResolveOptionPoints(f: Field) returns (merged: map<string, real>)
    ensures forall name :: (if name in merged then merged[name] else 0.0) == OptionPoints(f, name)
  {
    merged := map[];
    for i := 0 to |f.options|
      invariant HoldsLast(merged, f.options[..i])
    {
      HoldsOneMore(merged, f.options, i);
      merged := merged[f.options[i].0 := f.options[i].1];
    }
    assert f.options[..|f.options|] == f.options;
    merged := merged + f.scoreMap;
  }

  /** The sum of what each token is worth. */
  function TokenPoints(f: Field, tokens: seq<string>): real {
    if tokens == [] then 0.0 else TokenPoints(f, tokens[..|tokens| - 1]) + OptionPoints(f, tokens[|tokens| - 1])
  }

  lemma OneToken(f: Field, tokens: seq<string>)
    ensures |tokens| == 1 ==> TokenPoints(f, tokens) == OptionPoints(f, tokens[0])
  {
    if |tokens| == 1 { assert tokens[..0] == []; }
  }

  function AnswerPoints(f: Field, v: Value): real {
    if IsAnswerEmpty(v) then 0.0
    else if v.Number? then OptionPoints(f, v.shown)
    else
      var tokens := SplitAnswerTokens(v);
      if tokens == [] then OptionPoints(f, Norm(v)) else TokenPoints(f, tokens)
  }

  method PointsForAnswer(f: Field, optionPoints: map<string, real>, v: Value) returns (points: real)
    requires forall name :: (if name in optionPoints then optionPoints[name] else 0.0) == OptionPoints(f, name)
    ensures points == AnswerPoints(f, v)
  {
    if IsAnswerEmpty(v) { return 0.0; }
    if v.Number? {
      return if v.shown in optionPoints then optionPoints[v.shown] else 0.0;
    }
    var tokens := SplitAnswerTokens(v);
    if |tokens| <= 1 {
      var key := if |tokens| == 1 then tokens[0] else Norm(v);
      points := if key in optionPoints then optionPoints[key] else 0.0;
      OneToken(f, tokens);
      return;
    }
    points := SumTokens(f, optionPoints, tokens);
  }

  method SumTokens(f: Field, optionPoints: map<string, real>, tokens: seq<string>) returns (sum: real)
    requires forall name :: (if name in optionPoints then optionPoints[name] else 0.0) == OptionPoints(f, name)
    ensures sum == TokenPoints(f, tokens)
  {
    sum := 0.0;
    for i := 0 to |tokens|
      invariant sum == TokenPoints(f, tokens[..i])
    {
      assert tokens[..i + 1][..i] == tokens[..i];
      if tokens[i] in optionPoints {
        sum := sum + optionPoints[tokens[i]];
      }
    }
    assert tokens[..|tokens|] == tokens;
  }

  // ---- the score of a form

  /** What a field contributes: nothing unless the walk shows it (or all fields are counted). */
  function Contribution(fields: seq<Field>, answers: Answers, onlyVisible: bool, f: Field): real {
    if onlyVisible && f !in VisibleFields(fields, answers) then 0.0
    else AnswerPoints(f, Answer(answers, f.id))
  }

  /** The sum of the breakdown entries of the given fields. Fields without an id have no entry. */
  function SumOfBreakdown(breakdown: map<string, real>, fields: seq<Field>): real {
    if fields == [] then 0.0
    else
      var f := fields[|fields| - 1];
      SumOfBreakdown(breakdown, fields[..|fields| - 1]) + (if f.id in breakdown then breakdown[f.id] else 0.0)
  }

  /** The contributions of the fields of `part`, a part of the form `fields`. */
  function TotalScore(fields: seq<Field>, answers: Answers, onlyVisible: bool, part: seq<Field>): real {
    if part == [] then 0.0
    else
      var f := part[|part| - 1];
      TotalScore(fields, answers, onlyVisible, part[..|part| - 1])
      + (if f.id == "" then 0.0 else Contribution(fields, answers, onlyVisible, f))
  }

  lemma {:induction false} SumIgnoresOthers(breakdown: map<string, real>, id: string, v: real, fields: seq<Field>)
    requires forall i :: 0 <= i < |fields| ==> fields[i].id != id
    ensures SumOfBreakdown(breakdown[id := v], fields) == SumOfBreakdown(breakdown, fields)
  {
    if fields != [] { SumIgnoresOthers(breakdown, id, v, fields[..|fields| - 1]); }
  }

  lemma {:induction false} BreakdownAddsUp(
      fields: seq<Field>, answers: Answers, onlyVisible: bool, breakdown: map<string, real>, part: seq<Field>)
    requires forall f :: f in part && f.id != "" ==>
      f.id in breakdown && breakdown[f.id] == Contribution(fields, answers, onlyVisible, f)
    requires "" !in breakdown
    ensures SumOfBreakdown(breakdown, part) == TotalScore(fields, answers, onlyVisible, part)
  {
    if part != [] { BreakdownAddsUp(fields, answers, onlyVisible, breakdown, part[..|part| - 1]); }
  }

  /** The breakdown and total after the first `i` fields. */
  ghost predicate ScoredSoFar(
      fields: seq<Field>, contribution: Field -> real, breakdown: map<string, real>, total: real, i: nat)
    requires i <= |fields|
  {
    && "" !in breakdown
    && (forall k :: 0 <= k < i && fields[k].id != "" ==>
          fields[k].id in breakdown && breakdown[fields[k].id] == contribution(fields[k]))
    && total == SumOfBreakdown(breakdown, fields[..i])
  }

  lemma ScoreOne(
      fields: seq<Field>, contribution: Field -> real, breakdown: map<string, real>, total: real, i: nat)
    requires UniqueIds(fields) && i < |fields| && ScoredSoFar(fields, contribution, breakdown, total, i)
    ensures var f := fields[i];
      if f.id == "" then ScoredSoFar(fields, contribution, breakdown, total, i + 1)
      else ScoredSoFar(fields, contribution, breakdown[f.id := contribution(f)], total + contribution(f), i + 1)
  {
    var f := fields[i];
    assert fields[..i + 1][..i] == fields[..i];
    if f.id != "" { SumIgnoresOthers(breakdown, f.id, contribution(f), fields[..i]); }
  }

  function ContributionOf(fields: seq<Field>, answers: Answers, onlyVisible: bool): Field -> real {
    (f: Field) => Contribution(fields, answers, onlyVisible, f)
  }

  lemma ScoredAll(fields: seq<Field>, answers: Answers, onlyVisible: bool, breakdown: map<string, real>, total: real)
    requires ScoredSoFar(fields, ContributionOf(fields, answers, onlyVisible), breakdown, total, |fields|)
    ensures forall f :: f in fields && f.id != "" ==>
      f.id in breakdown && breakdown[f.id] == Contribution(fields, answers, onlyVisible, f)
    ensures total == SumOfBreakdown(breakdown, fields) == TotalScore(fields, answers, onlyVisible, fields)
  {
    assert fields[..|fields|] == fields;
    BreakdownAddsUp(fields, answers, onlyVisible, breakdown, fields);
  }

  /** What a field adds when the fields with the ids in `hidden` add nothing. */
  function ScoreUnless(hidden: set<string>, answers: Answers): Field -> real {
    (f: Field) => if f.id in hidden then 0.0 else AnswerPoints(f, Answer(answers, f.id))
  }

  method ScoreFields(fields: seq<Field>, answers: Answers, hidden: set<string>)
    returns (total: real, breakdown: map<string, real>)
    ensures UniqueIds(fields) ==>
      ScoredSoFar(fields, ScoreUnless(hidden, answers), breakdown, total, |fields|)
    ensures forall id :: id in breakdown ==> id != "" && id in Ids(fields)
  {
    hide AnswerPoints;
    ghost var unique := UniqueIds(fields);
    ghost var contribution := ScoreUnless(hidden, answers);
    breakdown := map[];
    total := 0.0;
    for i := 0 to |fields|
      invariant unique ==> ScoredSoFar(fields, contribution, breakdown, total, i)
      invariant forall id :: id in breakdown ==> id != "" && id in Ids(fields)
    {
      var f := fields[i];
      assert Ids(fields)[i] == f.id;
      if unique { ScoreOne(fields, contribution, breakdown, total, i); }
      if f.id == "" { continue; }
      if f.id in hidden {
        breakdown := breakdown[f.id := 0.0];
      } else {
        var points := ResolveOptionPoints(f);
        var s := PointsForAnswer(f, points, Answer(answers, f.id));
        breakdown := breakdown[f.id := s];
        total := total + s;
      }
    }
  }

  lemma SameScores(
      fields: seq<Field>, f: Field -> real, g: Field -> real, breakdown: map<string, real>, total: real)
    requires ScoredSoFar(fields, f, breakdown, total, |fields|)
    requires forall x :: x in fields ==> f(x) == g(x)
    ensures ScoredSoFar(fields, g, breakdown, total, |fields|)
  {
  }

  lemma ScoresAreContributions(fields: seq<Field>, answers: Answers, onlyVisible: bool, hidden: set<string>)
    requires forall f :: f in fields ==>
      (f.id in hidden <==> onlyVisible && f !in VisibleFields(fields, answers))
    ensures forall f :: f in fields ==>
      ScoreUnless(hidden, answers)(f) == ContributionOf(fields, answers, onlyVisible)(f)
  {
    hide AnswerPoints, VisibleFields;
  }

  method ComputeScore(fields: seq<Field>, answers: Answers, onlyVisible: bool)
    returns (total: real, breakdown: map<string, real>)
    ensures UniqueIds(fields) ==> forall f :: f in fields && f.id != "" ==>
      f.id in breakdown && breakdown[f.id] == Contribution(fields, answers, onlyVisible, f)
    ensures forall id :: id in breakdown ==> id != "" && id in Ids(fields)
    ensures UniqueIds(fields) ==> total == SumOfBreakdown(breakdown, fields)
    ensures UniqueIds(fields) ==> total == TotalScore(fields, answers, onlyVisible, fields)
  {
    hide AnswerPoints, VisibleFields;
    var hidden: set<string> := {};
    if onlyVisible {
      var r := GetVisibleFields(fields, answers);
      hidden := set id | id in r.hiddenIds;
      if UniqueIds(fields) { HiddenIsNotVisible(fields, answers, r); }
    }
    total, breakdown := ScoreFields(fields, answers, hidden);
    if UniqueIds(fields) {
      ScoresAreContributions(fields, answers, onlyVisible, hidden);
      SameScores(fields, ScoreUnless(hidden, answers), ContributionOf(fields, answers, onlyVisible), breakdown, total);
      ScoredAll(fields, answers, onlyVisible, breakdown, total);
    }
  }

  lemma HiddenIsNotVisible(fields: seq<Field>, answers: Answers, r: VisibleResult)
    requires r.visible == VisibleFields(fields, answers)
    requires r.visible == StableSort.Filter(SortByOrder(fields), (f: Field) => f.id !in r.hiddenIds)
    ensures forall f :: f in fields ==> (f.id in r.hiddenIds <==> f !in VisibleFields(fields, answers))
  {
    SortByOrderKeeps(fields);
    forall f | f in fields ensures f.id in r.hiddenIds <==> f !in VisibleFields(fields, answers) {
      assert f in multiset(SortByOrder(fields));
    }
  }

  // ---- validation

  datatype ValidationResult = ValidationResult(
    ok: bool, errors: set<string>, hiddenIds: seq<string>, visibleIds: seq<string>)

  predicate Missing(f: Field, answers: Answers) {
    IsRequiredLive(f, answers) && IsAnswerEmpty(Answer(answers, f.id))
  }

  method RequiredErrors(visible: seq<Field>, answers: Answers) returns (errors: set<string>)
    ensures forall f :: f in visible && Missing(f, answers) ==> f.id in errors
    ensures forall id :: id in errors ==> exists f :: f in visible && f.id == id && Missing(f, answers)
  {
    errors := {};
    for i := 0 to |visible|
      invariant forall k :: 0 <= k < i && Missing(visible[k], answers) ==> visible[k].id in errors
      invariant forall id :: id in errors ==> exists f :: f in visible && f.id == id && Missing(f, answers)
    {
      if Missing(visible[i], answers) {
        assert visible[i] in visible;
        errors := errors + {visible[i].id};
      }
    }
  }

  /** Errors are reported for exactly the shown fields that are required now and left empty. */
  method ValidateAnswers(fields: seq<Field>, answers: Answers) returns (r: ValidationResult)
    ensures UniqueIds(fields) ==> r.visibleIds == Ids(VisibleFields(fields, answers))
    ensures UniqueIds(fields) ==> forall f :: f in fields ==> (f.id in r.errors <==>
      f in VisibleFields(fields, answers) && IsRequiredLive(f, answers) && IsAnswerEmpty(Answer(answers, f.id)))
    ensures r.errors <= set id | id in r.visibleIds
    ensures r.ok <==> r.errors == {}
  {
    var v := GetVisibleFields(fields, answers);
    var errors := RequiredErrors(v.visible, answers);
    VisibleAreFields(fields, answers, v.visible);
    forall id | id in errors ensures id in v.visibleIds {
      var f :| f in v.visible && f.id == id;
      var k :| 0 <= k < |v.visible| && v.visible[k] == f;
      assert v.visibleIds[k] == id;
    }
    r := ValidationResult(errors == {}, errors, v.hiddenIds, v.visibleIds);
  }

  lemma VisibleAreFields(fields: seq<Field>, answers: Answers, visible: seq<Field>)
    requires forall f :: f in visible ==> f in SortByOrder(fields)
    ensures forall f :: f in visible ==> f in fields
  {
    SortByOrderKeeps(fields);
    forall f | f in visible ensures f in fields { assert f in multiset(SortByOrder(fields)); }
  }

  // ---- non-interference

  lemma {:induction false} WalkAgrees(fields: seq<Field>, a: Answers, b: Answers, ids: set<string>, i: nat)
    requires AgreeOutside(a, b, ids)
    requires forall f :: f in fields ==> RulesAvoid(f, ids)
    requires forall f :: f in Walk(fields, a, i) ==> f.id !in ids
    ensures Walk(fields, a, i) == Walk(fields, b, i)
    decreases |fields| - i
  {
    hide IsHiddenByRules, FirstFiring, AgreeOutside, IndexOf;
    if i < |fields| {
      var f := fields[i];
      HiddenAgrees(f, a, b, ids);
      if !IsHiddenByRules(f, a) {
        assert f in Walk(fields, a, i);
        FirstFiringAgrees(f.id, f.jumps, a, b, ids);
      }
      WalkAgrees(fields, a, b, ids, NextStop(fields, a, i));
    }
  }

  /**
   Change the answers of any set of fields that the walk does not show and that no show, hide or
   jump-if condition names: the shown fields, each field's contribution and the total stay the same.
   */
  lemma HiddenAnswersDoNotMatter(fields: seq<Field>, a: Answers, b: Answers, ids: set<string>)
    requires AgreeOutside(a, b, ids)
    requires forall f :: f in fields ==> RulesAvoid(f, ids)
    requires forall f :: f in VisibleFields(fields, a) ==> f.id !in ids
    ensures VisibleFields(fields, b) == VisibleFields(fields, a)
    ensures forall f :: Contribution(fields, b, true, f) == Contribution(fields, a, true, f)
    ensures TotalScore(fields, b, true, fields) == TotalScore(fields, a, true, fields)
  {
    SortByOrderKeeps(fields);
    forall f | f in SortByOrder(fields) ensures RulesAvoid(f, ids) {
      assert f in multiset(SortByOrder(fields));
    }
    WalkAgrees(SortByOrder(fields), a, b, ids, 0);
    TotalAgrees(fields, a, b, fields);
  }

  lemma {:induction false} TotalAgrees(fields: seq<Field>, a: Answers, b: Answers, part: seq<Field>)
    requires forall f :: Contribution(fields, b, true, f) == Contribution(fields, a, true, f)
    ensures TotalScore(fields, b, true, part) == TotalScore(fields, a, true, part)
  {
    if part != [] { TotalAgrees(fields, a, b, part[..|part| - 1]); }
  }
}
