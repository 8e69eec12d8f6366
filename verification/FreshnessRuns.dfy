/**
 What the protocol of Freshness.dfy does over whole runs, told by the steps that were taken: when the
 loader is on, which query is set, when the shown list counts as read, and which events the shown list
 reflects (apps/web/src/pages/AnnouncementsPage.tsx:46-76, apps/web/src/lib/entitySync.ts:201-247).
 */
module FreshnessRuns {
  import opened Options
  import opened Freshness

  /** The state after the first `k` steps of a run. */
  function At(query: Query, server: nat, steps: seq<Step>, k: nat): State
    requires k <= |steps|
  {
    Run(Mounting(query, server), steps[..k])
  }

  lemma AtSnoc(query: Query, server: nat, front: seq<Step>, step: Step, k: nat)
    requires k <= |front|
    ensures At(query, server, front + [step], k) == At(query, server, front, k)
    ensures At(query, server, front + [step], |front| + 1) == Apply(At(query, server, front, |front|), step)
  {
    hide Apply, Mounting;
    assert (front + [step])[..k] == front[..k];
    assert (front + [step])[..|front| + 1] == front + [step] && front[..|front|] == front;
    RunOneMore(Mounting(query, server), front, step);
  }

  /** A page opens with its effect due, its loader on, nothing queued, and no request made. */
  lemma Opening(query: Query, server: nat)
    ensures var s := At(query, server, [], 0);
      && s.client.effectDue && s.client.loading && s.client.mounted && !s.client.queued
      && s.client.shown.None? && s.client.query == query && s.client.newest == 0 && s.client.aborted == {}
      && s.client.writes == 0 && s.requests == map[] && s.server == server && s.notified == 0
  {
  }

  // ---- what a step needs

  /** The request is the newest one, and neither leaving nor a newer request has aborted it. */
  ghost predicate Counts(s: State, i: nat) { i == s.client.newest && i !in s.client.aborted }

  ghost predicate CanDeliver(s: State, i: nat) { i in s.requests && s.requests[i].phase.Served? }

  ghost predicate CanFail(s: State, i: nat) { i in s.requests && !s.requests[i].phase.Done? }

  /** A render with a new page or filter, whose fetch effect is due, fetches. */
  ghost predicate Refetches(s: State, step: Step) { step == Effect && s.client.mounted && s.client.effectDue }

  /** The newest request is answered or fails. */
  ghost predicate Answers(s: State, step: Step) {
    || (step.Deliver? && CanDeliver(s, step.i) && Counts(s, step.i))
    || (step.Fail? && CanFail(s, step.i) && Counts(s, step.i))
  }

  // ---- the loader

  lemma LoaderStep(s: State, step: Step)
    ensures Apply(s, step).client.loading <==> Refetches(s, step) || (s.client.loading && !Answers(s, step))
  {
  }

  /** Since the `k`-th step, which turned it on, nothing has turned the loader off. */
  ghost predicate LoaderOnSince(query: Query, server: nat, steps: seq<Step>, k: nat)
    requires k <= |steps|
  {
    && (k > 0 ==> Refetches(At(query, server, steps, k - 1), steps[k - 1]))
    && forall j :: k <= j < |steps| ==> !Answers(At(query, server, steps, j), steps[j])
  }

  /**
   The loader is on exactly when no newest request has been answered or has failed since the last fetch
   for a new page or filter, or since the page was opened. Silent refetches turn it neither on nor off.
   */
  lemma {:induction false} LoaderIff(query: Query, server: nat, steps: seq<Step>)
    ensures Run(Mounting(query, server), steps).client.loading
       <==> exists k :: 0 <= k <= |steps| && LoaderOnSince(query, server, steps, k)
  {
    hide Apply, Answers, Refetches, At;
    if steps == [] {
      assert LoaderOnSince(query, server, steps, 0);
    } else {
      var front, step := steps[..|steps| - 1], steps[|steps| - 1];
      assert steps == front + [step];
      LoaderIff(query, server, front);
      AtIsRun(query, server, front);
      LoaderStep(Run(Mounting(query, server), front), step);
      forall k | 0 <= k <= |front|
        ensures LoaderOnSince(query, server, steps, k)
           <==> LoaderOnSince(query, server, front, k) && !Answers(At(query, server, front, |front|), step)
      {
        SinceOneMore(query, server, front, step, k);
      }
      SinceNow(query, server, front, step);
    }
  }

  lemma AtIsRun(query: Query, server: nat, steps: seq<Step>)
    ensures At(query, server, steps, |steps|) == Run(Mounting(query, server), steps)
  {
    assert steps[..|steps|] == steps;
  }

  lemma SinceOneMore(query: Query, server: nat, front: seq<Step>, step: Step, k: nat)
    requires k <= |front|
    ensures LoaderOnSince(query, server, front + [step], k)
       <==> LoaderOnSince(query, server, front, k) && !Answers(At(query, server, front, |front|), step)
  {
    hide At, Apply, Answers, Refetches;
    var steps := front + [step];
    forall j | 0 <= j <= |front| ensures At(query, server, steps, j) == At(query, server, front, j) {
      AtSnoc(query, server, front, step, j);
    }
    assert forall j :: 0 <= j < |front| ==> steps[j] == front[j];
    assert steps[|front|] == step;
  }

  lemma SinceNow(query: Query, server: nat, front: seq<Step>, step: Step)
    ensures LoaderOnSince(query, server, front + [step], |front| + 1)
       <==> Refetches(At(query, server, front, |front|), step)
  {
    hide At, Apply, Answers, Refetches;
    AtSnoc(query, server, front, step, |front|);
  }

  /** After an effect that fetches, the loader is on until the newest request is answered or fails. */
  lemma {:induction false} LoaderUntilAnswer(s: State, later: seq<Step>)
    requires s.client.mounted && s.client.effectDue
    requires forall j :: 0 <= j < |later| ==> !Answers(Run(Apply(s, Effect), later[..j]), later[j])
    ensures Run(Apply(s, Effect), later).client.loading
  {
    hide Apply, Answers, Refetches;
    if later == [] {
      LoaderStep(s, Effect);
      assert Refetches(s, Effect) by { RefetchesHere(s); }
    } else {
      var front := later[..|later| - 1];
      forall j | 0 <= j < |front| ensures !Answers(Run(Apply(s, Effect), front[..j]), front[j]) {
        assert front[..j] == later[..j];
      }
      LoaderUntilAnswer(s, front);
      LoaderStep(Run(Apply(s, Effect), front), later[|later| - 1]);
    }
  }

  lemma RefetchesHere(s: State)
    requires s.client.mounted && s.client.effectDue
    ensures Refetches(s, Effect)
  {
  }

  // ---- the query

  /** The last page or filter that was set while the page was open. */
  function LastQuery(query: Query, steps: seq<Step>): Query {
    if steps == [] then query
    else
      var front, step := steps[..|steps| - 1], steps[|steps| - 1];
      if step.SetQuery? && Leave !in front then step.query else LastQuery(query, front)
  }

  lemma QueryStep(s: State, step: Step)
    ensures Apply(s, step).client.mounted <==> s.client.mounted && step != Leave
    ensures Apply(s, step).client.query == if step.SetQuery? && s.client.mounted then step.query else s.client.query
  {
  }

  lemma {:induction false} MountedUntilLeave(query: Query, server: nat, steps: seq<Step>)
    ensures Run(Mounting(query, server), steps).client.mounted <==> Leave !in steps
  {
    hide Apply;
    if steps != [] {
      var front, step := steps[..|steps| - 1], steps[|steps| - 1];
      MountedUntilLeave(query, server, front);
      QueryStep(Run(Mounting(query, server), front), step);
      assert steps == front + [step];
    }
  }

  lemma {:induction false} QueryIsLastSet(query: Query, server: nat, steps: seq<Step>)
    ensures Run(Mounting(query, server), steps).client.query == LastQuery(query, steps)
  {
    hide Apply;
    if steps != [] {
      var front, step := steps[..|steps| - 1], steps[|steps| - 1];
      QueryIsLastSet(query, server, front);
      MountedUntilLeave(query, server, front);
      QueryStep(Run(Mounting(query, server), front), step);
    }
  }

  // ---- which changes the page has been told of

  function Mutations(steps: seq<Step>): nat {
    if steps == [] then 0 else Mutations(steps[..|steps| - 1]) + (if steps[|steps| - 1] == Mutate then 1 else 0)
  }

  lemma {:induction false} ServerCountsMutations(query: Query, server: nat, steps: seq<Step>)
    ensures Run(Mounting(query, server), steps).server == server + Mutations(steps)
  {
    if steps != [] { ServerCountsMutations(query, server, steps[..|steps| - 1]); }
  }

  /** The open page hears, at step `k`, of change `v`, which the server has made by then. */
  ghost predicate Heard(server: nat, steps: seq<Step>, k: nat, v: nat)
    requires k < |steps|
  {
    steps[k] == Notify(v) && v <= server + Mutations(steps[..k]) && Leave !in steps[..k]
  }

  lemma NotifyStep(s: State, step: Step)
    ensures Apply(s, step).notified >= s.notified
    ensures step.Notify? && step.version <= s.server && s.client.mounted ==> Apply(s, step).notified >= step.version
  {
  }

  lemma {:induction false} HeardIsNotified(query: Query, server: nat, steps: seq<Step>, k: nat, v: nat)
    requires k < |steps| && Heard(server, steps, k, v)
    ensures Run(Mounting(query, server), steps).notified >= v
  {
    hide Apply;
    var front, step := steps[..|steps| - 1], steps[|steps| - 1];
    NotifyStep(Run(Mounting(query, server), front), step);
    if k == |front| {
      assert steps[..k] == front;
      ServerCountsMutations(query, server, front);
      MountedUntilLeave(query, server, front);
    } else {
      assert front[..k] == steps[..k];
      HeardIsNotified(query, server, front, k, v);
    }
  }

  /**
   Once the open page is quiet and its newest request has not failed, the list it shows is for the last
   page and filter set and contains every change that it ever heard of, and the loader is off.
   */
  lemma ShowsAllItHeardOf(query: Query, server: nat, steps: seq<Step>)
    requires var s := Run(Mounting(query, server), steps); Leave !in steps && Quiet(s) && !NewestFailed(s)
    ensures var c := Run(Mounting(query, server), steps).client;
      && c.shown.Some? && c.shown.value.query == LastQuery(query, steps) && !c.loading
      && forall k, v :: 0 <= k < |steps| && Heard(server, steps, k, v) ==> c.shown.value.version >= v
  {
    hide Quiet, NewestFailed, Heard;
    MountedUntilLeave(query, server, steps);
    QueryIsLastSet(query, server, steps);
    FreshOnceQuiet(query, server, steps);
    forall k, v | 0 <= k < |steps| && Heard(server, steps, k, v)
      ensures Run(Mounting(query, server), steps).notified >= v
    {
      HeardIsNotified(query, server, steps, k, v);
    }
  }

  // ---- marking as read

  /** The mark-all-read call of the newest request returns; the request was answered before. */
  ghost predicate MarksRead(s: State, step: Step) {
    step.Acknowledge? && step.i in s.requests && s.requests[step.i].phase == Done(true) && Counts(s, step.i)
  }

  /** A list is shown only by its own answer, as the server was then, and only its own call marks it read. */
  lemma ShownStep(s: State, step: Step)
    requires Inv(s)
    ensures var before, after := s.client.shown, Apply(s, step).client.shown;
      if step.Deliver? && CanDeliver(s, step.i) && Counts(s, step.i)
      then after == Some(Listing(step.i, s.requests[step.i].phase.version, s.requests[step.i].query, false))
      else if MarksRead(s, step) then before.Some? && after == Some(before.value.(allRead := true))
      else after == before
    ensures MarksRead(s, step) ==> s.client.shown.Some? && s.client.shown.value.from == step.i
  {
  }

  /** The page sets its state twice with an answer, once after a failure, and once when a call marks the list read. */
  lemma WritesStep(s: State, step: Step)
    ensures Apply(s, step).client.writes == s.client.writes
        + (if Answers(s, step) then (if step.Deliver? then 2 else 1) else if MarksRead(s, step) then 1 else 0)
  {
  }

  /** What the server answers is its state at that moment. */
  lemma ServedVersion(s: State, i: nat)
    requires i in s.requests && s.requests[i].phase == Sent
    ensures i in Apply(s, Serve(i)).requests && Apply(s, Serve(i)).requests[i].phase == Served(s.server)
  {
  }

  lemma {:induction false} DoneStays(s: State, steps: seq<Step>, i: nat)
    requires Inv(s) && i in s.requests && s.requests[i].phase.Done?
    ensures var t := Run(s, steps); i in t.requests && t.requests[i].phase.Done?
  {
    if steps != [] {
      var front := steps[..|steps| - 1];
      DoneStays(s, front, i);
      RunKeepsInv(s, front);
      DoneStaysStep(Run(s, front), steps[|steps| - 1], i);
    }
  }

  lemma DoneStaysStep(s: State, step: Step, i: nat)
    requires Inv(s) && i in s.requests && s.requests[i].phase.Done?
    ensures var t := Apply(s, step); i in t.requests && t.requests[i].phase.Done?
  {
  }

  /** At step `k` the call of request `i` marked the list read. */
  ghost predicate MarkedAt(query: Query, server: nat, steps: seq<Step>, k: nat, i: nat)
    requires k < |steps|
  {
    steps[k] == Acknowledge(i) && MarksRead(At(query, server, steps, k), steps[k])
  }

  lemma MarkedOneMore(query: Query, server: nat, front: seq<Step>, step: Step, k: nat, i: nat)
    requires k <= |front|
    ensures MarkedAt(query, server, front + [step], k, i) <==>
      if k < |front| then MarkedAt(query, server, front, k, i)
      else step == Acknowledge(i) && MarksRead(At(query, server, front, |front|), step)
  {
    hide At, Apply, MarksRead;
    AtSnoc(query, server, front, step, k);
  }

  /** A marked request was answered, and is not answered again. */
  lemma MarkedIsDone(query: Query, server: nat, steps: seq<Step>, k: nat, i: nat)
    requires k < |steps| && MarkedAt(query, server, steps, k, i)
    ensures var t := Run(Mounting(query, server), steps); i in t.requests && t.requests[i].phase.Done?
  {
    hide Apply;
    var start := Mounting(query, server);
    RunKeepsInv(start, steps[..k]);
    DoneStays(Run(start, steps[..k]), steps[k..], i);
    RunRun(start, steps[..k], steps[k..]);
    assert steps[..k] + steps[k..] == steps;
  }

  /** In every run the shown list counts as read exactly when the call of its own request has returned in time. */
  lemma {:induction false} ReadIff(query: Query, server: nat, steps: seq<Step>)
    ensures var shown := Run(Mounting(query, server), steps).client.shown;
      shown.Some? ==>
        (shown.value.allRead <==> exists k :: 0 <= k < |steps| && MarkedAt(query, server, steps, k, shown.value.from))
  {
    hide Apply, MarksRead, At, MarkedAt;
    if steps != [] {
      var front, step := steps[..|steps| - 1], steps[|steps| - 1];
      var s := Run(Mounting(query, server), front);
      assert steps == front + [step];
      ReadIff(query, server, front);
      RunKeepsInv(Mounting(query, server), front);
      AtIsRun(query, server, front);
      ShownStep(s, step);
      forall k, i | 0 <= k <= |front| ensures MarkedAt(query, server, steps, k, i) <==>
          if k < |front| then MarkedAt(query, server, front, k, i) else step == Acknowledge(i) && MarksRead(s, step)
      {
        MarkedOneMore(query, server, front, step, k, i);
      }
      if step.Deliver? && CanDeliver(s, step.i) {
        forall k | 0 <= k < |front| ensures !MarkedAt(query, server, front, k, step.i) {
          if MarkedAt(query, server, front, k, step.i) { MarkedIsDone(query, server, front, k, step.i); }
        }
      }
      ReadOneMore(query, server, front, step);
    }
  }

  lemma ReadOneMore(query: Query, server: nat, front: seq<Step>, step: Step)
    ensures MarksRead(Run(Mounting(query, server), front), step)
       ==> MarkedAt(query, server, front + [step], |front|, step.i)
  {
    AtIsRun(query, server, front);
    MarkedOneMore(query, server, front, step, |front|, if step.Acknowledge? then step.i else 0);
  }
}
