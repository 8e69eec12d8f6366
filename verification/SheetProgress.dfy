/** Progress bars of the problem sheets (apps/web/src/lib/sheets.ts:17-55, 299-337). */
module SheetProgress {
  import opened JsText
  import opened SheetMarks

  /** A step lists the orders of its items. */
  datatype Step = Step(id: string, items: seq<nat>)
  datatype Track = Track(id: string, steps: seq<Step>)

  datatype StepProgress = StepProgress(done: nat, total: nat, pct: int)
  datatype TrackProgress = TrackProgress(done: nat, total: nat, pct: int, perStep: seq<StepProgress>)

  // ---- keys

  function SheetItemKey(trackId: string, stepId: string, order: nat): string {
    trackId + "/" + stepId + "/" + Decimal(order)
  }

  lemma DecimalHasNoSlash(n: nat)
    ensures '/' !in Decimal(n)
  {
    assert forall c :: c in Decimal(n) ==> IsDigit(c);
  }

  /** Where the characters on both sides of a slash come from. */
  lemma Around(b: string, y: string)
    ensures var t := b + ("/" + y);
      (forall k :: 0 <= k < |b| ==> t[k] in b) && (forall k :: |b| < k < |t| ==> t[k] in y)
  {
  }

  lemma LastPartNotLonger(a: string, b: string, x: string, y: string)
    requires '/' !in y && a + ("/" + x) == b + ("/" + y)
    ensures |y| <= |x|
  {
    var t := b + ("/" + y);
    assert t == a + ("/" + x) && t[|a|] == '/';
    Around(b, y);
  }

  /** Texts that agree have the same part after the last slash, and the same part before it. */
  lemma LastSlash(a: string, b: string, x: string, y: string)
    requires '/' !in x && '/' !in y && a + ("/" + x) == b + ("/" + y)
    ensures a == b && x == y
  {
    LastPartNotLonger(a, b, x, y);
    LastPartNotLonger(b, a, y, x);
    var t := a + ("/" + x);
    assert a == t[..|a|] == b && x == t[|a| + 1..] == y;
  }

  /** Two rows share a key exactly when their ids run together to the same text and they have the same order. */
  lemma CollideIff(t1: string, s1: string, o1: nat, t2: string, s2: string, o2: nat)
    ensures SheetItemKey(t1, s1, o1) == SheetItemKey(t2, s2, o2) <==> t1 + "/" + s1 == t2 + "/" + s2 && o1 == o2
  {
    var a, b := t1 + "/" + s1, t2 + "/" + s2;
    assert SheetItemKey(t1, s1, o1) == a + ("/" + Decimal(o1));
    assert SheetItemKey(t2, s2, o2) == b + ("/" + Decimal(o2));
    if SheetItemKey(t1, s1, o1) == SheetItemKey(t2, s2, o2) {
      DecimalHasNoSlash(o1);
      DecimalHasNoSlash(o2);
      LastSlash(a, b, Decimal(o1), Decimal(o2));
      DecimalInjective(o1, o2);
    }
  }

  /** No other row has a key of the row's track and step. */
  ghost predicate OwnKey(t: string, s: string) {
    forall o: nat, t2, s2, o2: nat ::
      SheetItemKey(t, s, o) == SheetItemKey(t2, s2, o2) ==> t == t2 && s == s2 && o == o2
  }

  lemma PlainIdsDetermine(t: string, s: string, t2: string, s2: string)
    requires '/' !in t && '/' !in s && t + "/" + s == t2 + "/" + s2
    ensures t == t2 && s == s2
  {
    var u := t + "/" + s;
    assert u == t2 + "/" + s2 && u[|t2|] == '/';
    Around(t, s);
    assert u == t + ("/" + s);
    assert t == u[..|t|] == t2 && s == u[|t| + 1..] == s2;
  }

  /** A slash in the track's id, or in the step's, lets a row of another track have the same key. */
  lemma SlashedIdsCollide(t: string, s: string) returns (t2: string, s2: string)
    requires '/' in t || '/' in s
    ensures (t2 != t || s2 != s) && forall o: nat :: SheetItemKey(t, s, o) == SheetItemKey(t2, s2, o)
  {
    if '/' in t {
      var i :| 0 <= i < |t| && t[i] == '/';
      t2, s2 := t[..i], t[i + 1..] + "/" + s;
      assert t == t[..i] + "/" + t[i + 1..];
      assert t + "/" + s == t2 + "/" + s2;
    } else {
      var i :| 0 <= i < |s| && s[i] == '/';
      t2, s2 := t + "/" + s[..i], s[i + 1..];
      assert s == s[..i] + "/" + s[i + 1..];
      assert t + "/" + s == t2 + "/" + s2;
    }
    forall o: nat ensures SheetItemKey(t, s, o) == SheetItemKey(t2, s2, o) { CollideIff(t, s, o, t2, s2, o); }
  }

  /** The rows of a step have keys of their own exactly when neither the track's id nor the step's holds a slash. */
  lemma OwnKeyIff(t: string, s: string)
    ensures OwnKey(t, s) <==> '/' !in t && '/' !in s
  {
    if '/' in t || '/' in s {
      var t2, s2 := SlashedIdsCollide(t, s);
      assert SheetItemKey(t, s, 0) == SheetItemKey(t2, s2, 0);
    } else {
      forall o: nat, t2, s2, o2: nat | SheetItemKey(t, s, o) == SheetItemKey(t2, s2, o2)
        ensures t == t2 && s == s2 && o == o2
      {
        CollideIff(t, s, o, t2, s2, o2);
        PlainIdsDetermine(t, s, t2, s2);
      }
    }
  }

  /** Different rows have different keys, as long as the ids of one of them contain no slash. */
  lemma KeysInjective(t1: string, s1: string, o1: nat, t2: string, s2: string, o2: nat)
    requires '/' !in t1 && '/' !in s1
    requires SheetItemKey(t1, s1, o1) == SheetItemKey(t2, s2, o2)
    ensures t1 == t2 && s1 == s2 && o1 == o2
  {
    OwnKeyIff(t1, s1);
  }

  // ---- counting

  function StepKeys(trackId: string, step: Step): (r: seq<string>)
    ensures |r| == |step.items|
    ensures forall i :: 0 <= i < |r| ==> r[i] == SheetItemKey(trackId, step.id, step.items[i])
  {
    seq(|step.items|, i requires 0 <= i < |step.items| => SheetItemKey(trackId, step.id, step.items[i]))
  }

  /** The keys of all rows of a track. */
  function TrackKeys(trackId: string, steps: seq<Step>): seq<string> {
    if steps == [] then [] else TrackKeys(trackId, steps[..|steps| - 1]) + StepKeys(trackId, steps[|steps| - 1])
  }

  function CountMarked(keys: seq<string>, marked: set<string>): (r: nat)
    ensures r <= |keys|
  {
    if keys == [] then 0
    else CountMarked(keys[..|keys| - 1], marked) + (if keys[|keys| - 1] in marked then 1 else 0)
  }

  lemma {:induction false} CountAppend(a: seq<string>, b: seq<string>, marked: set<string>)
    ensures CountMarked(a + b, marked) == CountMarked(a, marked) + CountMarked(b, marked)
  {
    if b == [] {
      assert a + b == a;
    } else {
      CountAppend(a, b[..|b| - 1], marked);
      assert (a + b)[..|a + b| - 1] == a + b[..|b| - 1];
    }
  }

  /** `Math.round`. */
  function Round(x: real): int { (x + 0.5).Floor }

  function Percent(done: nat, total: nat): int {
    if total == 0 then 0 else Round(done as real / total as real * 100.0)
  }

  /** The marked rows of the step, all its rows, and the percentage of the one in the other. */
  ghost predicate IsBarOf(p: StepProgress, trackId: string, step: Step, marked: set<string>) {
    && p.done == CountMarked(StepKeys(trackId, step), marked)
    && p.total == |step.items| && p.pct == Percent(p.done, p.total)
  }

  method ComputeStep(trackId: string, step: Step, marked: set<string>) returns (p: StepProgress)
    ensures IsBarOf(p, trackId, step, marked)
  {
    var total := |step.items|;
    if total == 0 { return StepProgress(0, 0, 0); }
    var done := 0;
    ghost var keys := StepKeys(trackId, step);
    for i := 0 to total
      invariant done == CountMarked(keys[..i], marked)
    {
      assert keys[..i + 1][..i] == keys[..i];
      if SheetItemKey(trackId, step.id, step.items[i]) in marked { done := done + 1; }
    }
    assert keys[..total] == keys;
    p := StepProgress(done, total, Percent(done, total));
  }

  lemma TrackNext(trackId: string, steps: seq<Step>, i: nat, marked: set<string>)
    requires i < |steps|
    ensures CountMarked(TrackKeys(trackId, steps[..i + 1]), marked)
         == CountMarked(TrackKeys(trackId, steps[..i]), marked) + CountMarked(StepKeys(trackId, steps[i]), marked)
    ensures |TrackKeys(trackId, steps[..i + 1])| == |TrackKeys(trackId, steps[..i])| + |steps[i].items|
  {
    assert steps[..i + 1][..i] == steps[..i];
    CountAppend(TrackKeys(trackId, steps[..i]), StepKeys(trackId, steps[i]), marked);
  }

  /** The bar of a track counts exactly its marked rows; marks of other rows never count. */
  method ComputeTrack(track: Track, marked: set<string>) returns (p: TrackProgress)
    ensures p.done == CountMarked(TrackKeys(track.id, track.steps), marked)
    ensures p.total == |TrackKeys(track.id, track.steps)| && p.pct == Percent(p.done, p.total)
    ensures |p.perStep| == |track.steps|
    ensures forall i :: 0 <= i < |p.perStep| ==> IsBarOf(p.perStep[i], track.id, track.steps[i], marked)
  {
    var done, total := 0, 0;
    var perStep: seq<StepProgress> := [];
    for i := 0 to |track.steps|
      invariant |perStep| == i
      invariant forall k :: 0 <= k < i ==> IsBarOf(perStep[k], track.id, track.steps[k], marked)
      invariant done == CountMarked(TrackKeys(track.id, track.steps[..i]), marked)
      invariant total == |TrackKeys(track.id, track.steps[..i])|
    {
      var s := ComputeStep(track.id, track.steps[i], marked);
      TrackNext(track.id, track.steps, i, marked);
      perStep := perStep + [s];
      done, total := done + s.done, total + s.total;
    }
    assert track.steps[..|track.steps|] == track.steps;
    p := TrackProgress(done, total, Percent(done, total), perStep);
  }

  // ---- one row toggled

  /** Marking or unmarking only `k` changes a count by the occurrences of `k`. */
  lemma {:induction false} CountWithOne(keys: seq<string>, a: set<string>, b: set<string>, k: string)
    requires forall x :: x != k ==> (x in a <==> x in b)
    requires k in b && k !in a
    requires Distinct(keys)
    ensures CountMarked(keys, b) == CountMarked(keys, a) + (if k in keys then 1 else 0)
  {
    if keys != [] {
      var front, x := keys[..|keys| - 1], keys[|keys| - 1];
      assert keys == front + [x];
      CountWithOne(front, a, b, k);
      assert forall i :: 0 <= i < |front| ==> front[i] == keys[i] != x;
    }
  }

  ghost predicate GoodTrack(t: Track) {
    && IdText(t.id)
    && (forall i :: 0 <= i < |t.steps| ==> IdText(t.steps[i].id))
    && Distinct(TrackKeys(t.id, t.steps))
  }

  lemma {:induction false} KeysOfTrack(trackId: string, steps: seq<Step>, k: string)
    requires IdText(trackId) && forall i :: 0 <= i < |steps| ==> IdText(steps[i].id)
    requires k in TrackKeys(trackId, steps)
    ensures exists s, o: nat :: IdText(s) && k == SheetItemKey(trackId, s, o)
  {
    var n := |steps| - 1;
    if k in TrackKeys(trackId, steps[..n]) {
      KeysOfTrack(trackId, steps[..n], k);
    } else {
      var j :| 0 <= j < |steps[n].items| && k == StepKeys(trackId, steps[n])[j];
      assert k == SheetItemKey(trackId, steps[n].id, steps[n].items[j]);
    }
  }

  lemma IdHasNoSlash(s: string)
    requires IdText(s)
    ensures '/' !in s
  {
  }

  lemma {:induction false} SplitPlain(a: string, rest: string)
    requires '/' !in a
    ensures Split(a + "/" + rest, '/') == [a] + Split(rest, '/')
  {
    var s := a + "/" + rest;
    if a == "" {
      assert s[1..] == rest;
    } else {
      SplitPlain(a[1..], rest);
      assert s[1..] == a[1..] + "/" + rest && s[0] == a[0] && a[0] in a;
      assert [a[0]] + a[1..] == a;
      assert ([a[1..]] + Split(rest, '/'))[1..] == Split(rest, '/');
    }
  }

  lemma DecimalIsDigits(order: nat)
    ensures var d := Decimal(order); DigitText(d) && Split(d, '/') == [d]
  {
    var d := Decimal(order);
    assert forall c :: c in d ==> IsDigit(c);
    assert Split(d, '/') == [d];
  }

  lemma ItemKeySplits(trackId: string, stepId: string, d: string)
    requires IdText(trackId) && IdText(stepId) && DigitText(d) && Split(d, '/') == [d]
    ensures IsSheetKey(trackId + "/" + stepId + "/" + d)
  {
    hide Split, IdText, DigitText;
    IdHasNoSlash(trackId);
    IdHasNoSlash(stepId);
    assert trackId + "/" + stepId + "/" + d == trackId + "/" + (stepId + "/" + d);
    SplitPlain(trackId, stepId + "/" + d);
    SplitPlain(stepId, d);
  }

  lemma ItemKeyTrimmed(trackId: string, stepId: string, d: string)
    requires IdText(trackId) && DigitText(d)
    ensures var k := trackId + "/" + stepId + "/" + d; Trim(k) == k
  {
    var k := trackId + "/" + stepId + "/" + d;
    assert k[0] == trackId[0] && IdChar(trackId[0]);
    assert k[|k| - 1] == d[|d| - 1];
    assert Trimmed(k);
  }

  /** The keys built for rows are keys that the marks accept, trimmed. */
  lemma ItemKeysAreSheetKeys(trackId: string, stepId: string, order: nat)
    requires IdText(trackId) && IdText(stepId)
    ensures var k := SheetItemKey(trackId, stepId, order); IsSheetKey(k) && Trim(k) == k
  {
    hide IdText, DigitText, IsSheetKey, Trim, Decimal;
    DecimalIsDigits(order);
    ItemKeySplits(trackId, stepId, Decimal(order));
    ItemKeyTrimmed(trackId, stepId, Decimal(order));
  }

  lemma NotInOtherTrack(own: Track, other: Track, stepId: string, order: nat)
    requires GoodTrack(own) && GoodTrack(other) && own.id != other.id && IdText(stepId)
    ensures SheetItemKey(own.id, stepId, order) !in TrackKeys(other.id, other.steps)
  {
    var k := SheetItemKey(own.id, stepId, order);
    IdHasNoSlash(own.id);
    IdHasNoSlash(other.id);
    IdHasNoSlash(stepId);
    if k in TrackKeys(other.id, other.steps) {
      KeysOfTrack(other.id, other.steps, k);
      var s, o: nat :| IdText(s) && k == SheetItemKey(other.id, s, o);
      IdHasNoSlash(s);
      KeysInjective(own.id, stepId, order, other.id, s, o);
    }
  }

  lemma CountFlips(keys: seq<string>, before: set<string>, after: set<string>, k: string)
    requires Distinct(keys)
    requires forall x :: x != k ==> (x in after <==> x in before)
    requires k in after <==> k !in before
    ensures CountMarked(keys, after)
         == CountMarked(keys, before) + (if k !in keys then 0 else if k in before then -1 else 1)
  {
    if k in before {
      CountWithOne(keys, after, before, k);
    } else {
      CountWithOne(keys, before, after, k);
    }
  }

  lemma TwoCounts(own: seq<string>, other: seq<string>, before: set<string>, after: set<string>, k: string)
    requires Distinct(own) && Distinct(other) && k in own && k !in other
    requires (k in after <==> k !in before) && forall x :: x != k ==> (x in after <==> x in before)
    ensures CountMarked(own, after) == CountMarked(own, before) + (if k in before then -1 else 1)
    ensures CountMarked(other, after) == CountMarked(other, before)
  {
    CountFlips(own, before, after, k);
    CountFlips(other, before, after, k);
  }

  lemma RowFlips(m: Marks, trackId: string, stepId: string, order: nat, k: string)
    requires IdText(trackId) && IdText(stepId) && k == SheetItemKey(trackId, stepId, order) && |k| <= MAX_KEY
    ensures var before, after := Combined(m), Combined(Toggle(m, k));
      && (k in after <==> k !in before)
      && forall x :: x != k ==> (x in after <==> x in before)
  {
    ItemKeysAreSheetKeys(trackId, stepId, order);
    ToggleFlips(m, k);
  }

  /** A well-formed row whose key is too long to be stored. */
  lemma LongRow() returns (trackId: string, stepId: string, k: string)
    ensures IdText(trackId) && IdText(stepId) && k == SheetItemKey(trackId, stepId, 0) && |k| > MAX_KEY
  {
    trackId, stepId := seq(MAX_KEY, i => 'a'), "b";
    k := SheetItemKey(trackId, stepId, 0);
  }

  /** Toggling such a row does not flip it. */
  lemma LongRowNeverFlips(m: Marks) returns (k: string)
    ensures IsSheetKey(k) && Trim(k) == k && |k| > MAX_KEY
    ensures k in Combined(Toggle(m, k)) <==> k in Combined(m)
  {
    hide IsSheetKey, Trim, Toggle, Combined, SheetItemKey, IdText;
    var trackId, stepId;
    trackId, stepId, k := LongRow();
    ItemKeysAreSheetKeys(trackId, stepId, 0);
    ToggleFlips(m, k);
  }

  lemma RowCounts(own: Track, other: Track, stepId: string, order: nat, k: string, before: set<string>,
      after: set<string>)
    requires GoodTrack(own) && GoodTrack(other) && own.id != other.id && IdText(stepId)
    requires k == SheetItemKey(own.id, stepId, order) && k in TrackKeys(own.id, own.steps)
    requires (k in after <==> k !in before) && forall x :: x != k ==> (x in after <==> x in before)
    ensures CountMarked(TrackKeys(own.id, own.steps), after)
         == CountMarked(TrackKeys(own.id, own.steps), before) + (if k in before then -1 else 1)
    ensures CountMarked(TrackKeys(other.id, other.steps), after)
        == CountMarked(TrackKeys(other.id, other.steps), before)
  {
    NotInOtherTrack(own, other, stepId, order);
    TwoCounts(TrackKeys(own.id, own.steps), TrackKeys(other.id, other.steps), before, after, k);
  }

  /** Toggling a row moves its own track's count by exactly one, and no other track's count at all. */
  lemma ToggleMovesOneTrack(m: Marks, own: Track, other: Track, stepId: string, order: nat, k: string)
    requires GoodTrack(own) && GoodTrack(other) && own.id != other.id && IdText(stepId)
    requires k == SheetItemKey(own.id, stepId, order) && k in TrackKeys(own.id, own.steps) && |k| <= MAX_KEY
    ensures var before, after := Combined(m), Combined(Toggle(m, k));
      && (k in after <==> k !in before)
      && CountMarked(TrackKeys(own.id, own.steps), after)
         == CountMarked(TrackKeys(own.id, own.steps), before) + (if k in before then -1 else 1)
      && CountMarked(TrackKeys(other.id, other.steps), after) == CountMarked(TrackKeys(other.id, other.steps), before)
  {
    RowFlips(m, own.id, stepId, order, k);
    RowCounts(own, other, stepId, order, k, Combined(m), Combined(Toggle(m, k)));
  }

  // ---- percentages

  lemma RatioFacts(done: nat, total: nat)
    requires done <= total && total > 0
    ensures 0.0 <= done as real / total as real * 100.0 <= 100.0
  {
    assert done as real / total as real <= 1.0;
  }

  /** Within 0 to 100, and within half a point of the true ratio. */
  lemma PercentInRange(done: nat, total: nat)
    requires done <= total && total > 0
    ensures 0 <= Percent(done, total) <= 100
    ensures var x := done as real / total as real * 100.0;
      x - 0.5 <= Percent(done, total) as real <= x + 0.5
    ensures Percent(done, total) == 100 <== done == total
  {
    RatioFacts(done, total);
    if done == total { assert done as real / total as real == 1.0; }
  }

  lemma ProductMonotone(p: real, q: real, t: real)
    requires p > q && t > 0.0
    ensures p * t > q * t
  {
    assert (p - q) * t > 0.0;
  }

  lemma DivisionMonotone(x: real, y: real, t: real)
    requires x <= y && t > 0.0
    ensures x / t <= y / t
  {
    var p, q := x / t, y / t;
    assert p * t == x && q * t == y;
    if p > q { ProductMonotone(p, q, t); }
  }

  /** More marked rows never show a smaller percentage. */
  lemma PercentMonotone(a: nat, b: nat, total: nat)
    requires a <= b <= total && total > 0
    ensures Percent(a, total) <= Percent(b, total)
  {
    DivisionMonotone(a as real, b as real, total as real);
  }
}
