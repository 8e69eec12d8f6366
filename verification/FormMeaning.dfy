/**
 What the conditions, rules and jumps of a form mean, said of the answers and lists they are given
 (apps/web/src/lib/formLogic.ts:123-253, 266-393).
 */
module FormMeaning {
  import opened Options
  import opened JsText
  import opened TextLaws
  import opened FormRules
  import opened FormBranching
  import opened FormScoring

  // ---- answers

  predicate IsSeparator(c: char) { c == ',' || c == ';' || c == '\n' }

  predicate OnePart(t: string) { forall i :: 0 <= i < |t| ==> !IsSeparator(t[i]) }

  /** An answer is empty when it is missing, or consists of white space, item by item in a list. */
  lemma EmptyIff(t: string, items: seq<string>)
    ensures IsAnswerEmpty(Absent) && !IsAnswerEmpty(Number(t)) && !IsAnswerEmpty(Scalar(t))
    ensures IsAnswerEmpty(Text(t)) <==> AllSpace(t)
    ensures IsAnswerEmpty(List(items)) <==> forall i :: 0 <= i < |items| ==> AllSpace(items[i])
  {
    hide AllSpace, Trim;
    BlankIff(t);
    forall i | 0 <= i < |items| ensures Trim(items[i]) == "" <==> AllSpace(items[i]) { BlankIff(items[i]); }
  }

  lemma {:induction false} SeparatorsMeet(a: string, c: char, b: string)
    requires IsSeparator(c)
    ensures OneSeparator(a + [c] + b) == OneSeparator(a) + [','] + OneSeparator(b)
  {
  }

  /** The tokens of a text are those of the parts that a separator divides it into. */
  lemma TokensOfParts(a: string, c: char, b: string)
    requires IsSeparator(c)
    ensures SplitAnswerTokens(Text(a + [c] + b)) == SplitAnswerTokens(Text(a)) + SplitAnswerTokens(Text(b))
  {
    SeparatorsMeet(a, c, b);
    SplitBoth(OneSeparator(a), OneSeparator(b), ',');
    NonEmptyAfterBoth(Split(OneSeparator(a), ','), Split(OneSeparator(b), ','), Trim);
  }

  lemma SeparatorsNone(t: string)
    requires OnePart(t)
    ensures OneSeparator(t) == t && ',' !in t
  {
  }

  /** A text without separators is one token, trimmed, or none if it is white space. */
  lemma TokensOfOne(t: string)
    requires OnePart(t)
    ensures SplitAnswerTokens(Text(t)) == if AllSpace(t) then [] else [Trim(t)]
  {
    hide OneSeparator, AllSpace, Trim;
    SeparatorsNone(t);
    BlankIff(t);
    OneTrimmed(t);
  }

  lemma OneTrimmed(t: string)
    ensures TrimmedNonEmpty([t]) == if Trim(t) == "" then [] else [Trim(t)]
  {
    hide Trim;
    NonEmptyAfterCons(t, [], Trim);
    assert [t] + [] == [t];
  }

  /** The tokens of a list are its items, trimmed, without those of white space. */
  lemma TokensOfList(items: seq<string>, x: string)
    ensures SplitAnswerTokens(List([])) == [] && SplitAnswerTokens(Absent) == []
    ensures SplitAnswerTokens(List(items + [x]))
         == SplitAnswerTokens(List(items)) + (if AllSpace(x) then [] else [Trim(x)])
  {
    hide AllSpace, Trim;
    NonEmptyAfterBoth(items, [x], Trim);
    OneTrimmed(x);
    BlankIff(x);
    NoTokens();
  }

  lemma NoTokens()
    ensures SplitAnswerTokens(Absent) == []
  {
    assert OneSeparator("") == "";
    assert Trim("") == "";
  }

  lemma TokensOfScalar(t: string)
    ensures SplitAnswerTokens(Number(t)) == SplitAnswerTokens(Text(t)) == SplitAnswerTokens(Scalar(t))
  {
    hide OneSeparator, Split, TrimmedNonEmpty;
  }

  // ---- operators

  const EQUALS: string -> Test := x => NO_TEST.(equals := Some(x))
  const IS_IN: seq<string> -> Test := xs => NO_TEST.(isIn := Some(xs))
  const CONTAINS: string -> Test := x => NO_TEST.(contains := Some(x))

  /** One choice equals a text when they agree but for white space at the ends; of several, one must. */
  lemma EqualsIff(t: string, v: Value, x: string)
    ensures OnePart(t) ==> (Holds(EQUALS(x), Text(t)) <==> Trim(t) == Trim(x))
    ensures OnePart(t) ==> (Holds(EQUALS(x), Number(t)) <==> Trim(t) == Trim(x))
    ensures Holds(EQUALS(x), List([t])) <==> Trim(t) == Trim(x)
    ensures |SplitAnswerTokens(v)| >= 2 ==> (Holds(EQUALS(x), v) <==> Trim(x) in SplitAnswerTokens(v))
    ensures Holds(EQUALS(x), Absent) <==> AllSpace(x)
  {
    hide Trim, AllSpace, SplitAnswerTokens;
    if OnePart(t) { TokensOfOne(t); TokensOfScalar(t); }
    TokensOfList([], t);
    assert [] + [t] == [t];
    BlankIff(x);
    NormOfOne(t);
  }

  /** A single choice beside a blank item is compared as the text of the whole list. */
  lemma ChoiceBesideBlank(t: string, x: string)
    requires t != "" && Trimmed(t)
    ensures Holds(EQUALS(x), List([t, ""])) <==> Trim(x) == t + ","
  {
    hide SplitAnswerTokens, Trim, AllSpace;
    BlankIff(t);
    BlankIff("");
    TokensOfList([], t);
    TokensOfList([t], "");
    assert [] + [t] == [t] && [t] + [""] == [t, ""];
    NormBesideBlank(t);
  }

  lemma NormBesideBlank(t: string)
    requires t != "" && Trimmed(t)
    ensures Norm(List([t, ""])) == t + "," && Trim(t) == t && Trim("") == ""
  {
    assert [t, ""][1..] == [""];
    assert Join([t, ""], ",") == t + "," + "";
    assert Trimmed(t + ",");
  }

  lemma NormOfOne(t: string)
    ensures Norm(Text(t)) == Norm(Number(t)) == Norm(List([t])) == Trim(t) && Norm(Absent) == ""
  {
    assert Trim("") == "";
  }

  /** Membership in a list is equality with one of its texts. */
  lemma InIff(v: Value, xs: seq<string>)
    ensures Holds(IS_IN(xs), v) <==> exists i :: 0 <= i < |xs| && Holds(EQUALS(xs[i]), v)
  {
    hide Trim, SplitAnswerTokens, Norm;
    forall w ensures w in TrimAll(xs) <==> exists i :: 0 <= i < |xs| && w == Trim(xs[i]) {
      assert forall i :: 0 <= i < |xs| ==> TrimAll(xs)[i] == Trim(xs[i]);
    }
  }

  /** `m` occurs in the text at position `i`, letters of either case being the same. */
  predicate OccursAt(t: string, m: string, i: nat) {
    i + |m| <= |t| && forall k :: 0 <= k < |m| ==> SameLetter(t[i + k], m[k])
  }

  /** `contains` looks for its text anywhere in the trimmed answer, whatever the case of the letters. */
  lemma ContainsIff(t: string, x: string)
    requires x != ""
    ensures Holds(CONTAINS(x), Text(t)) <==> exists i :: OccursAt(Trim(t), x, i)
  {
    hide Trim, Lower;
    var s := Trim(t);
    LowerSize(s);
    LowerSize(x);
    forall i | 0 <= i <= |s| - |x| ensures Lower(x) <= Lower(s)[i..] <==> OccursAt(s, x, i) { LowerAt(s, x, i); }
  }

  lemma LowerSize(s: string)
    ensures |Lower(s)| == |s|
  {
  }

  lemma LowerAt(s: string, x: string, i: nat)
    requires i + |x| <= |s|
    ensures Lower(x) <= Lower(s)[i..] <==> OccursAt(s, x, i)
  {
    var part := s[i..i + |x|];
    LowerSameIff(part, x);
    assert Lower(part) == Lower(s)[i..i + |x|];
    assert Lower(x) <= Lower(s)[i..] <==> Lower(s)[i..i + |x|] == Lower(x);
  }

  /** Of several operators the first counts, in a fixed order; an unset flag and an empty `contains` do not. */
  lemma FirstOperatorCounts(t: Test, v: Value)
    ensures t.empty == Some(true) ==> (Holds(t, v) <==> IsAnswerEmpty(v))
    ensures t.empty != Some(true) ==> Holds(t, v) == Holds(t.(empty := None), v)
    ensures t.empty.None? && t.notEmpty == Some(true) ==> (Holds(t, v) <==> !IsAnswerEmpty(v))
    ensures t.notEmpty != Some(true) ==> Holds(t, v) == Holds(t.(notEmpty := None), v)
    ensures var u := t.(empty := None, notEmpty := None);
      && (u.equals.Some? ==> Holds(u, v) == Holds(EQUALS(u.equals.value), v))
      && (u.equals.None? && u.notEquals.Some? ==> Holds(u, v) == !Holds(EQUALS(u.notEquals.value), v))
    ensures var u := t.(empty := None, notEmpty := None, equals := None, notEquals := None);
      && (u.isIn.Some? ==> Holds(u, v) == Holds(IS_IN(u.isIn.value), v))
      && (u.isIn.None? && u.notIn.Some? ==> Holds(u, v) == !Holds(IS_IN(u.notIn.value), v))
    ensures var u := NO_TEST.(contains := t.contains);
      u.contains.None? || u.contains == Some("") ==> Holds(u, v) == !IsAnswerEmpty(v)
  {
    hide Matches, IsAnswerEmpty, Includes, TrimAll, Trim, Lower, Norm;
  }

  /** A condition looks at the answer stored for the field it names; one that names no field never holds. */
  lemma ConditionIff(a: Answers, c: Condition)
    ensures c.source in a && c.source != "" ==> (EvaluateCondition(a, c) <==> Holds(c.test, a[c.source]))
    ensures c.source !in a && c.source != "" ==> (EvaluateCondition(a, c) <==> Holds(c.test, Absent))
    ensures c.source == "" ==> !EvaluateCondition(a, c)
  {
  }

  // ---- fields shown and required

  /** A field must be answered when it is not hidden and is marked required, or has require conditions that all hold. */
  lemma RequiredIff(f: Field, a: Answers)
    ensures IsRequiredLive(f, a) <==>
      MayShow(f, a) && (f.required || (f.requireIf != [] && forall c :: c in f.requireIf ==> EvaluateCondition(a, c)))
  {
    hide IsHiddenByRules, MayShow, EvaluateConditions, EvaluateCondition;
    HiddenIff(f, a);
    AllHold(f.requireIf, a);
  }

  // ---- jumps

  /** The rule has a target, and its guard, else its own operators, else any answer at all, is met. */
  predicate Asks(id: string, rule: JumpRule, a: Answers) {
    && !AllSpace(rule.to)
    && match rule.guard
       case Some(c) => EvaluateCondition(a, c)
       case None =>
         if rule.own == NO_TEST then !IsAnswerEmpty(Answer(a, id)) else EvaluateCondition(a, Condition(id, rule.own))
  }

  lemma AsksIff(id: string, rule: JumpRule, a: Answers)
    ensures Asks(id, rule, a) <==> Trim(rule.to) != "" && Fires(id, rule, a)
  {
    hide AllSpace, Trim;
    BlankIff(rule.to);
    assert rule.own.HasOperator() <==> rule.own != NO_TEST;
  }

  /** The `k`-th rule is the first that asks for a jump. */
  predicate FirstAsking(id: string, rules: seq<JumpRule>, a: Answers, k: nat) {
    k < |rules| && Asks(id, rules[k], a) && forall j :: 0 <= j < k ==> !Asks(id, rules[j], a)
  }

  /** A field's jump is the target of its first rule that asks for one. */
  lemma {:induction false} FirstFiringIff(id: string, rules: seq<JumpRule>, a: Answers)
    ensures FirstFiring(id, rules, a).None? <==> forall k :: 0 <= k < |rules| ==> !Asks(id, rules[k], a)
    ensures forall k: nat :: FirstAsking(id, rules, a, k) ==> FirstFiring(id, rules, a) == Some(Trim(rules[k].to))
  {
    hide Asks, Fires, Trim;
    if rules != [] {
      FirstFiringIff(id, rules[1..], a);
      AsksIff(id, rules[0], a);
      assert forall j :: 1 <= j < |rules| ==> rules[j] == rules[1..][j - 1];
      forall k | k > 0 && FirstAsking(id, rules, a, k) ensures FirstAsking(id, rules[1..], a, k - 1) {
        assert forall j :: 0 <= j < k - 1 ==> rules[1..][j] == rules[j + 1];
      }
    }
  }

  predicate NoneLater(fields: seq<Field>, i: nat, id: string) {
    forall k :: i < k < |fields| ==> fields[k].id != id
  }

  /** Where the walk goes from a field: to the end, to a later field that its jump names, or to the next one. */
  lemma WalkOn(fields: seq<Field>, a: Answers, i: nat, t: nat)
    requires UniqueIds(fields) && i < |fields|
    ensures var jump := if MayShow(fields[i], a) then ResolveJumpTarget(fields[i], a) else None;
      && (jump == Some("__END__") ==> NextStop(fields, a, i) == |fields|)
      && (i < t < |fields| && jump == Some(fields[t].id) && fields[t].id != "__END__" ==> NextStop(fields, a, i) == t)
      && (jump.None? ==> NextStop(fields, a, i) == i + 1)
      && (jump.Some? && jump.value != "__END__" && NoneLater(fields, i, jump.value) ==> NextStop(fields, a, i) == i + 1)
  {
    hide IsHiddenByRules, MayShow, ResolveJumpTarget;
    HiddenIff(fields[i], a);
    var jump := ResolveJumpTarget(fields[i], a);
    if jump.Some? && i < t < |fields| && jump == Some(fields[t].id) {
      SameField(fields, IndexOf(fields, fields[t].id), t);
    }
  }

  /** The walk starts at the first field, and from each stop goes to the next one, passing over all between. */
  lemma StopsAre(fields: seq<Field>, a: Answers, i: nat, k: nat)
    ensures fields != [] ==> Visits(fields, a, 0, 0)
    ensures i < |fields| && Visits(fields, a, 0, i) && NextStop(fields, a, i) < |fields|
      ==> Visits(fields, a, 0, NextStop(fields, a, i))
    ensures i < |fields| && Visits(fields, a, 0, i) && i < k < NextStop(fields, a, i) ==> !Visits(fields, a, 0, k)
  {
    if i < |fields| && Visits(fields, a, 0, i) {
      var m := NextStop(fields, a, i);
      if m < |fields| { VisitsVia(fields, a, 0, i, m); }
      if i < k < m { VisitsVia(fields, a, 0, i, k); VisitsAtEnd(fields, a, m, k); }
    }
  }

  /** Past a stop, the walk is the walk from its next stop. */
  lemma {:induction false} VisitsVia(fields: seq<Field>, a: Answers, from: nat, i: nat, k: nat)
    requires i < k < |fields| && from <= i && Visits(fields, a, from, i)
    ensures Visits(fields, a, from, k) == Visits(fields, a, NextStop(fields, a, i), k)
    decreases |fields| - from
  {
    hide NextStop;
    VisitsStep(fields, a, from, k);
    if from < i {
      VisitsLater(fields, a, from, i);
      VisitsVia(fields, a, NextStop(fields, a, from), i, k);
    }
  }

  lemma VisitsLater(fields: seq<Field>, a: Answers, from: nat, i: nat)
    requires from < i < |fields| && Visits(fields, a, from, i)
    ensures NextStop(fields, a, from) <= i && Visits(fields, a, NextStop(fields, a, from), i)
  {
  }

  // ---- points

  /** Of the options with the label, `k` is the last. */
  predicate LastOption(options: seq<(string, real)>, name: string, k: nat) {
    k < |options| && options[k].0 == name && forall j :: k < j < |options| ==> options[j].0 != name
  }

  /** The points of a label: those of the score map, else of the last option with the label, else none. */
  lemma OptionPointsAre(f: Field, name: string)
    ensures name in f.scoreMap ==> OptionPoints(f, name) == f.scoreMap[name]
    ensures forall k: nat :: (name !in f.scoreMap && LastOption(f.options, name, k)) ==>
      OptionPoints(f, name) == f.options[k].1
    ensures name !in f.scoreMap && (forall k :: 0 <= k < |f.options| ==> f.options[k].0 != name)
      ==> OptionPoints(f, name) == 0.0
  {
    LastPointsAre(f.options, name);
  }

  lemma {:induction false} LastPointsAre(options: seq<(string, real)>, name: string)
    ensures forall k: nat :: LastOption(options, name, k) ==> LastPoints(options, name) == Some(options[k].1)
    ensures (forall k :: 0 <= k < |options| ==> options[k].0 != name) ==> LastPoints(options, name) == None
  {
    if options != [] {
      var front, o := options[..|options| - 1], options[|options| - 1];
      assert options == front + [o];
      LastPointsAre(front, name);
      LastPointsAppend(front, o, name);
      forall k: nat | k < |front| && LastOption(options, name, k) ensures LastOption(front, name, k) {
        assert forall j :: 0 <= j < |front| ==> front[j] == options[j];
      }
    }
  }

  /** Nothing is worth nothing, a number the points of its text, and one choice its points. */
  lemma PointsAre(f: Field, t: string)
    ensures AnswerPoints(f, Absent) == 0.0 && (AllSpace(t) ==> AnswerPoints(f, Text(t)) == 0.0)
    ensures AnswerPoints(f, Number(t)) == OptionPoints(f, t)
    ensures OnePart(t) && !AllSpace(t) ==> AnswerPoints(f, Text(t)) == OptionPoints(f, Trim(t))
    ensures AnswerPoints(f, List([t])) == if AllSpace(t) then 0.0 else OptionPoints(f, Trim(t))
  {
    hide AllSpace, Trim, SplitAnswerTokens, OptionPoints, IsAnswerEmpty;
    EmptyIff(t, [t]);
    assert [t][0] == t;
    TokensOfList([], t);
    assert [] + [t] == [t];
    OneToken(f, [Trim(t)]);
    if OnePart(t) { TokensOfOne(t); }
  }

  lemma {:induction false} TokenPointsBoth(f: Field, a: seq<string>, b: seq<string>)
    ensures TokenPoints(f, a + b) == TokenPoints(f, a) + TokenPoints(f, b)
  {
    if b == [] {
      assert a + b == a;
    } else {
      var front := b[..|b| - 1];
      TokenPointsBoth(f, a, front);
      assert (a + b)[..|a + b| - 1] == a + front;
    }
  }

  lemma TextPoints(f: Field, v: Value)
    requires !v.Number? && SplitAnswerTokens(v) != []
    ensures AnswerPoints(f, v) == TokenPoints(f, SplitAnswerTokens(v))
  {
    hide OptionPoints, SplitAnswerTokens;
    if IsAnswerEmpty(v) { EmptyHasNoTokens(v); }
  }

  lemma EmptyHasNoTokens(v: Value)
    requires !v.Number? && IsAnswerEmpty(v)
    ensures SplitAnswerTokens(v) == []
  {
    match v
    case Absent => NoTokens();
    case Text(t) =>
      EmptyIff(t, []);
      SpaceHasNoTokens(t);
    case List(items) => BlankItems(items);
    case _ =>
  }

  lemma {:induction false} BlankItems(items: seq<string>)
    requires forall i :: 0 <= i < |items| ==> Trim(items[i]) == ""
    ensures SplitAnswerTokens(List(items)) == []
  {
    hide Trim;
    if items != [] {
      BlankItems(items[1..]);
      NonEmptyAfterCons(items[0], items[1..], Trim);
      assert [items[0]] + items[1..] == items;
    }
  }

  lemma {:induction false} SpaceHasNoTokens(t: string)
    requires AllSpace(t)
    ensures SplitAnswerTokens(Text(t)) == []
    decreases |t|
  {
    hide SplitAnswerTokens, IsSpace, Trim;
    if OnePart(t) {
      TokensOfOne(t);
    } else {
      var i :| 0 <= i < |t| && IsSeparator(t[i]);
      assert t == t[..i] + [t[i]] + t[i + 1..];
      assert AllSpace(t[..i]) && AllSpace(t[i + 1..]);
      TokensOfParts(t[..i], t[i], t[i + 1..]);
      SpaceHasNoTokens(t[..i]);
      SpaceHasNoTokens(t[i + 1..]);
    }
  }

  /** Several choices are worth the sum of what the parts are worth. */
  lemma PointsOfParts(f: Field, a: string, c: char, b: string)
    requires IsSeparator(c) && SplitAnswerTokens(Text(a)) != [] && SplitAnswerTokens(Text(b)) != []
    ensures AnswerPoints(f, Text(a + [c] + b)) == AnswerPoints(f, Text(a)) + AnswerPoints(f, Text(b))
  {
    hide AnswerPoints, TokenPoints, SplitAnswerTokens;
    TokensOfParts(a, c, b);
    TextPoints(f, Text(a));
    TextPoints(f, Text(b));
    TextPoints(f, Text(a + [c] + b));
    TokenPointsBoth(f, SplitAnswerTokens(Text(a)), SplitAnswerTokens(Text(b)));
  }

  lemma PointsOfList(f: Field, items: seq<string>, x: string)
    ensures AnswerPoints(f, List(items + [x])) == AnswerPoints(f, List(items)) + AnswerPoints(f, List([x]))
  {
    hide AnswerPoints, TokenPoints, SplitAnswerTokens, Trim, AllSpace;
    TokensOfList(items, x);
    TokensOfList([], x);
    assert [] + [x] == [x];
    assert SplitAnswerTokens(List([x])) == if AllSpace(x) then [] else [Trim(x)];
    TokenPointsBoth(f, SplitAnswerTokens(List(items)), SplitAnswerTokens(List([x])));
    ListPoints(f, items);
    ListPoints(f, [x]);
    ListPoints(f, items + [x]);
  }

  lemma ListPoints(f: Field, items: seq<string>)
    ensures AnswerPoints(f, List(items)) == TokenPoints(f, SplitAnswerTokens(List(items)))
  {
    if SplitAnswerTokens(List(items)) != [] {
      TextPoints(f, List(items));
    } else {
      NoItems(items);
    }
  }

  lemma {:induction false} NoItems(items: seq<string>)
    requires SplitAnswerTokens(List(items)) == []
    ensures IsAnswerEmpty(List(items))
  {
    hide Trim;
    if items != [] {
      NonEmptyAfterCons(items[0], items[1..], Trim);
      assert [items[0]] + items[1..] == items;
      NoItems(items[1..]);
      assert Trim(items[0]) == "";
      forall i | 1 <= i < |items| ensures Trim(items[i]) == "" { assert items[i] == items[1..][i - 1]; }
      assert IsAnswerEmpty(List(items));
    }
  }
}
