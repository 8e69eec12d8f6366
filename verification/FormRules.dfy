/**
 Conditions on form answers (apps/web/src/lib/formLogic.ts:123-253): when a field is hidden
 by its own rules, and which jump a field asks for. Stored JSON is taken as already parsed.
 */
module FormRules {
  import opened Options
  import opened JsText

  /** One stored answer. Numbers and other scalars carry the text `String(v)` gives. */
  datatype Value =
    | Absent
    | Text(text: string)
    | Number(shown: string)
    | Scalar(shown: string)
    | List(items: seq<string>)

  type Answers = map<string, Value>

  function Answer(answers: Answers, id: string): Value {
    if id in answers then answers[id] else Absent
  }

  /** `String(v ?? '')`. */
  function Shown(v: Value): string {
    match v
    case Absent => ""
    case Text(t) => t
    case Number(t) => t
    case Scalar(t) => t
    case List(items) => Join(items, ",")
  }

  function Norm(v: Value): string { Trim(Shown(v)) }

  predicate IsAnswerEmpty(v: Value) {
    match v
    case Absent => true
    case Text(t) => Trim(t) == ""
    case Number(_) => false
    case Scalar(_) => false
    case List(items) => forall i :: 0 <= i < |items| ==> Trim(items[i]) == ""
  }

  /** Splitting at runs of `,`, `;` and newline and dropping blanks is splitting at each of them. */
  function OneSeparator(s: string): string {
    seq(|s|, i requires 0 <= i < |s| => if s[i] == ';' || s[i] == '\n' then ',' else s[i])
  }

  function SplitAnswerTokens(v: Value): seq<string> {
    if v.List? then TrimmedNonEmpty(v.items)
    else TrimmedNonEmpty(Split(OneSeparator(Shown(v)), ','))
  }

  predicate Includes(s: string, part: string) {
    exists i :: 0 <= i <= |s| - |part| && part <= s[i..]
  }

  /** The operators a condition or a jump rule may carry; `None` is an undefined property. */
  datatype Test = Test(
    empty: Option<bool>, notEmpty: Option<bool>,
    equals: Option<string>, notEquals: Option<string>,
    isIn: Option<seq<string>>, notIn: Option<seq<string>>,
    contains: Option<string>)
  {
    predicate HasOperator() {
      empty.Some? || notEmpty.Some? || equals.Some? || notEquals.Some? || isIn.Some? || notIn.Some? || contains.Some?
    }
  }

  datatype Condition = Condition(source: string, test: Test)

  function TrimAll(items: seq<string>): seq<string> {
    seq(|items|, i requires 0 <= i < |items| => Trim(items[i]))
  }

  /** Any token when the answer has several, else the whole trimmed answer, is among `wanted`. */
  predicate Matches(v: Value, wanted: seq<string>) {
    var tokens := SplitAnswerTokens(v);
    if |tokens| > 1 then exists i :: 0 <= i < |tokens| && tokens[i] in wanted
    else Norm(v) in wanted
  }

  predicate Holds(t: Test, v: Value) {
    if t.empty == Some(true) then IsAnswerEmpty(v)
    else if t.notEmpty == Some(true) then !IsAnswerEmpty(v)
    else if t.equals.Some? then Matches(v, [Trim(t.equals.value)])
    else if t.notEquals.Some? then !Matches(v, [Trim(t.notEquals.value)])
    else if t.isIn.Some? then Matches(v, TrimAll(t.isIn.value))
    else if t.notIn.Some? then !Matches(v, TrimAll(t.notIn.value))
    else if t.contains.Some? && t.contains.value != "" then Includes(Lower(Norm(v)), Lower(t.contains.value))
    else !IsAnswerEmpty(v)
  }

  predicate EvaluateCondition(answers: Answers, cond: Condition) {
    cond.source != "" && Holds(cond.test, Answer(answers, cond.source))
  }

  predicate EvaluateConditions(answers: Answers, conds: seq<Condition>) {
    forall i :: 0 <= i < |conds| ==> EvaluateCondition(answers, conds[i])
  }

  datatype JumpRule = JumpRule(to: string, guard: Option<Condition>, own: Test)

  datatype Field = Field(
    id: string, order: int, required: bool,
    showIf: seq<Condition>, hideIf: seq<Condition>, requireIf: seq<Condition>,
    jumps: seq<JumpRule>,
    options: seq<(string, real)>, scoreMap: map<string, real>)

  predicate IsHiddenByRules(f: Field, answers: Answers) {
    || (|f.hideIf| > 0 && EvaluateConditions(answers, f.hideIf))
    || (|f.showIf| > 0 && !EvaluateConditions(answers, f.showIf))
  }

  /** Nothing hides the field: its show conditions all hold, and of its hide conditions, if any, one fails. */
  predicate MayShow(f: Field, a: Answers) {
    && (forall c :: c in f.showIf ==> EvaluateCondition(a, c))
    && (f.hideIf == [] || exists c :: c in f.hideIf && !EvaluateCondition(a, c))
  }

  lemma AllHold(conds: seq<Condition>, a: Answers)
    ensures EvaluateConditions(a, conds) <==> forall c :: c in conds ==> EvaluateCondition(a, c)
  {
    hide EvaluateCondition;
    if !EvaluateConditions(a, conds) {
      var i :| 0 <= i < |conds| && !EvaluateCondition(a, conds[i]);
      assert conds[i] in conds;
    }
  }

  lemma HiddenIff(f: Field, a: Answers)
    ensures IsHiddenByRules(f, a) <==> !MayShow(f, a)
  {
    hide EvaluateConditions, EvaluateCondition;
    AllHold(f.showIf, a);
    AllHold(f.hideIf, a);
  }

  predicate IsRequiredLive(f: Field, answers: Answers) {
    !IsHiddenByRules(f, answers)
    && (f.required || (|f.requireIf| > 0 && EvaluateConditions(answers, f.requireIf)))
  }

  predicate Fires(id: string, rule: JumpRule, answers: Answers) {
    if rule.guard.Some? then EvaluateCondition(answers, rule.guard.value)
    else if !rule.own.HasOperator() then !IsAnswerEmpty(Answer(answers, id))
    else EvaluateCondition(answers, Condition(id, rule.own))
  }

  /** The first rule with a target that fires; `None` when the field asks for no jump. */
  function FirstFiring(id: string, rules: seq<JumpRule>, answers: Answers): Option<string> {
    if rules == [] then None
    else
      var to := Trim(rules[0].to);
      if to != "" && Fires(id, rules[0], answers) then Some(to)
      else FirstFiring(id, rules[1..], answers)
  }

  function ResolveJumpTarget(f: Field, answers: Answers): Option<string> {
    FirstFiring(f.id, f.jumps, answers)
  }

  const NO_TEST: Test := Test(None, None, None, None, None, None, None)

  /** Each operator and its negation never agree, `equals` is `in` with one text, and no operator asks for an answer. */
  lemma OperatorsAreOpposites(v: Value, x: string, xs: seq<string>)
    ensures Holds(NO_TEST.(notEquals := Some(x)), v) <==> !Holds(NO_TEST.(equals := Some(x)), v)
    ensures Holds(NO_TEST.(notIn := Some(xs)), v) <==> !Holds(NO_TEST.(isIn := Some(xs)), v)
    ensures Holds(NO_TEST.(notEmpty := Some(true)), v) <==> !Holds(NO_TEST.(empty := Some(true)), v)
    ensures Holds(NO_TEST.(equals := Some(x)), v) <==> Holds(NO_TEST.(isIn := Some([x])), v)
    ensures Holds(NO_TEST, v) <==> Holds(NO_TEST.(notEmpty := Some(true)), v)
  {
    assert TrimAll([x]) == [Trim(x)];
  }

  // ---- which answers a field's rules depend on

  ghost predicate AgreeOutside(a: Answers, b: Answers, ids: set<string>) {
    forall id :: id !in ids ==> Answer(a, id) == Answer(b, id)
  }

  ghost predicate NoneNames(conds: seq<Condition>, ids: set<string>) {
    forall i :: 0 <= i < |conds| ==> conds[i].source !in ids
  }

  /** No show, hide or jump-if condition of the field reads an answer in `ids`. */
  ghost predicate RulesAvoid(f: Field, ids: set<string>) {
    && NoneNames(f.showIf, ids)
    && NoneNames(f.hideIf, ids)
    && (forall i :: 0 <= i < |f.jumps| ==> f.jumps[i].guard.Some? ==> f.jumps[i].guard.value.source !in ids)
  }

  lemma ConditionAgrees(c: Condition, a: Answers, b: Answers)
    requires Answer(a, c.source) == Answer(b, c.source)
    ensures EvaluateCondition(a, c) == EvaluateCondition(b, c)
  {
  }

  lemma FiresAgrees(id: string, rule: JumpRule, a: Answers, b: Answers)
    requires Answer(a, id) == Answer(b, id)
    requires rule.guard.Some? ==> Answer(a, rule.guard.value.source) == Answer(b, rule.guard.value.source)
    ensures Fires(id, rule, a) == Fires(id, rule, b)
  {
    if rule.guard.Some? {
      ConditionAgrees(rule.guard.value, a, b);
    } else {
      ConditionAgrees(Condition(id, rule.own), a, b);
    }
  }

  lemma ConditionsAgree(conds: seq<Condition>, a: Answers, b: Answers, ids: set<string>)
    requires AgreeOutside(a, b, ids) && NoneNames(conds, ids)
    ensures EvaluateConditions(a, conds) == EvaluateConditions(b, conds)
  {
    forall i | 0 <= i < |conds| ensures EvaluateCondition(a, conds[i]) == EvaluateCondition(b, conds[i]) {
      ConditionAgrees(conds[i], a, b);
    }
  }

  lemma HiddenAgrees(f: Field, a: Answers, b: Answers, ids: set<string>)
    requires AgreeOutside(a, b, ids) && RulesAvoid(f, ids)
    ensures IsHiddenByRules(f, a) == IsHiddenByRules(f, b)
  {
    ConditionsAgree(f.showIf, a, b, ids);
    ConditionsAgree(f.hideIf, a, b, ids);
  }

  lemma {:induction false} FirstFiringAgrees(id: string, rules: seq<JumpRule>, a: Answers, b: Answers, ids: set<string>)
    requires AgreeOutside(a, b, ids) && id !in ids
    requires forall i :: 0 <= i < |rules| ==> rules[i].guard.Some? ==> rules[i].guard.value.source !in ids
    ensures FirstFiring(id, rules, a) == FirstFiring(id, rules, b)
  {
    if rules != [] {
      FirstFiringAgrees(id, rules[1..], a, b, ids);
      FiresAgrees(id, rules[0], a, b);
    }
  }
}
