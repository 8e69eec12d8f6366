/**
 The freshness protocol of a page that keeps its own copy of server data: mutations raise events,
 events coalesce into one queued refetch (apps/web/src/lib/entitySync.ts:193-248), a refetch aborts
 and outnumbers the one before it (apps/web/src/hooks/useRaceGuard.ts:21-54), and only the newest
 request may write (apps/web/src/pages/AnnouncementsPage.tsx:46-76).

 This file is the state machine: the page's transitions as functions, and every interleaving of
 them with a server and a network. AnnouncementsPage.dfy has the imperative page that refines it.
 */
module Freshness {
  import opened Options

  /** What the list shows: a page number and a college filter. */
  datatype Query = Query(page: nat, college: string)

  /** A fetched list: the request it came from, and the server version and query it reflects. */
  datatype Listing = Listing(from: nat, version: nat, query: Query, allRead: bool)

  /** Requests are numbered from 1; `aborted` holds those whose controller has been aborted. */
  datatype Client = Client(
    newest: nat, aborted: set<nat>,
    mounted: bool, queued: bool, effectDue: bool, query: Query,
    shown: Option<Listing>, loading: bool,
    writes: nat)  // how often the page has set its own state after an await

  // ---- transitions of the page

  function NewRequest(c: Client): Client {
    c.(aborted := c.aborted + (if c.newest > 0 then {c.newest} else {}), newest := c.newest + 1)
  }

  predicate IsCurrent(c: Client, i: nat) {
    i == c.newest && c.newest !in c.aborted
  }

  function Fetch(c: Client, silent: bool): Client {
    var d := NewRequest(c);
    if silent then d else d.(loading := true)
  }

  function Resolve(c: Client, i: nat, result: Listing): Client {
    if IsCurrent(c, i) && i !in c.aborted
    then c.(shown := Some(result), loading := false, writes := c.writes + 2)
    else c
  }

  function Reject(c: Client, i: nat): Client {
    if IsCurrent(c, i) && i !in c.aborted then c.(loading := false, writes := c.writes + 1) else c
  }

  function AckRead(c: Client, i: nat): Client {
    if !IsCurrent(c, i) then c
    else c.(shown := if c.shown.Some? then Some(c.shown.value.(allRead := true)) else None, writes := c.writes + 1)
  }

  function OnEvent(c: Client): Client {
    if c.mounted then c.(queued := true) else c
  }

  function RunQueued(c: Client): Client {
    Fetch(c.(queued := false), true)
  }

  function ChangeQuery(c: Client, q: Query): Client {
    if c.mounted && q != c.query then c.(query := q, effectDue := true) else c
  }

  function RunEffect(c: Client): Client {
    Fetch(c.(effectDue := false), false)
  }

  function Unmount(c: Client): Client {
    if c.mounted then c.(mounted := false, aborted := c.aborted + (if c.newest > 0 then {c.newest} else {})) else c
  }

  // ---- the page, the server and the network

  datatype Phase = Sent | Served(version: nat) | Done(ok: bool)

  /** `floor` and `base` are the newest announced version and the server version at issue. */
  datatype Request = Request(query: Query, floor: nat, base: nat, phase: Phase)

  datatype State = State(server: nat, notified: nat, client: Client, requests: map<nat, Request>)

  datatype Step =
    | Mutate                 // some client changes the data
    | Notify(version: nat)   // an event announces a change the server has made
    | Microtask              // the queued refetch runs
    | SetQuery(query: Query) // the user changes page or filter, and the page renders
    | Effect                 // the fetch effect of that render runs
    | Serve(i: nat)          // the server answers a request from its present version
    | Deliver(i: nat)        // that answer reaches the page
    | Fail(i: nat)           // a request fails instead
    | Acknowledge(i: nat)    // the mark-all-read call of a delivered request returns
    | Leave                  // the page unmounts

  function Issue(s: State, c: Client): State {
    s.(client := c, requests := s.requests[c.newest := Request(c.query, s.notified, s.server, Sent)])
  }

  /** A step that is not possible in a state leaves it as it is. */
  function Apply(s: State, step: Step): State {
    var c := s.client;
    match step
    case Mutate => s.(server := s.server + 1)
    case Notify(v) =>
      if v <= s.server
      then s.(client := OnEvent(c), notified := if c.mounted && v > s.notified then v else s.notified)
      else s
    case Microtask => if c.queued then Issue(s, RunQueued(c)) else s
    case SetQuery(q) => s.(client := ChangeQuery(c, q))
    case Effect => if c.mounted && c.effectDue then Issue(s, RunEffect(c)) else s
    case Serve(i) =>
      if i in s.requests && s.requests[i].phase == Sent
      then s.(requests := s.requests[i := s.requests[i].(phase := Served(s.server))])
      else s
    case Deliver(i) =>
      if i in s.requests && s.requests[i].phase.Served?
      then s.(client := Resolve(c, i, Listing(i, s.requests[i].phase.version, s.requests[i].query, false)),
              requests := s.requests[i := s.requests[i].(phase := Done(true))])
      else s
    case Fail(i) =>
      if i in s.requests && !s.requests[i].phase.Done?
      then s.(client := Reject(c, i), requests := s.requests[i := s.requests[i].(phase := Done(false))])
      else s
    case Acknowledge(i) =>
      if i in s.requests && s.requests[i].phase == Done(true) then s.(client := AckRead(c, i)) else s
    case Leave => s.(client := Unmount(c))
  }

  function Run(s: State, steps: seq<Step>): State {
    if steps == [] then s else Apply(Run(s, steps[..|steps| - 1]), steps[|steps| - 1])
  }

  /** The page has just rendered for the first time; its fetch effect is due. */
  function Mounting(query: Query, server: nat): State {
    State(server, 0, Client(0, {}, true, false, true, query, None, true, 0), map[])
  }

  // ---- the invariant

  ghost predicate Numbered(s: State) {
    && (forall i :: i in s.requests <==> 1 <= i <= s.client.newest)
    && (forall i :: 1 <= i < s.client.newest ==> i in s.client.aborted)
    && (forall i :: i in s.client.aborted ==> 1 <= i <= s.client.newest)
    && (s.client.mounted ==> s.client.newest !in s.client.aborted)
  }

  ghost predicate Versioned(s: State) {
    && s.notified <= s.server
    && (forall i :: i in s.requests ==> s.requests[i].floor <= s.requests[i].base <= s.server)
    && (forall i :: i in s.requests && s.requests[i].phase.Served? ==>
          s.requests[i].base <= s.requests[i].phase.version <= s.server)
  }

  ghost predicate ShownIsOld(s: State) {
    s.client.shown.Some? ==>
      var l := s.client.shown.value;
      && 1 <= l.from <= s.client.newest && l.version <= s.server
      && forall i :: l.from < i <= s.client.newest && i in s.requests ==> l.version <= s.requests[i].base
  }

  /** While mounted, a change not yet covered by the newest request has a refetch on its way. */
  ghost predicate Covered(s: State) {
    var c := s.client;
    c.mounted ==>
      && (c.queued || c.effectDue || (c.newest in s.requests && s.requests[c.newest].floor == s.notified))
      && (c.effectDue || (c.newest in s.requests && s.requests[c.newest].query == c.query))
  }

  ghost predicate NewestRules(s: State) {
    var c := s.client;
    c.newest in s.requests && c.newest !in c.aborted ==>
      var r := s.requests[c.newest];
      && (c.loading ==> !r.phase.Done?)
      && (r.phase == Done(true) ==>
            c.shown.Some? && c.shown.value.from == c.newest && c.shown.value.version >= r.base
            && c.shown.value.query == r.query)
      && (c.shown.Some? && c.shown.value.from == c.newest ==> r.phase == Done(true))
  }

  ghost predicate Inv(s: State) {
    Numbered(s) && Versioned(s) && ShownIsOld(s) && Covered(s) && NewestRules(s)
  }

  lemma ApplyKeepsNumbers(s: State, step: Step)
    requires Inv(s)
    ensures Numbered(Apply(s, step))
  {
    hide Versioned, ShownIsOld, NewestRules;
  }

  lemma ApplyKeepsVersions(s: State, step: Step)
    requires Inv(s)
    ensures Versioned(Apply(s, step))
  {
    hide ShownIsOld, Covered, NewestRules;
  }

  lemma ApplyKeepsCovered(s: State, step: Step)
    requires Inv(s)
    ensures Covered(Apply(s, step))
  {
  }

  lemma ApplyKeepsShown(s: State, step: Step)
    requires Inv(s)
    ensures ShownIsOld(Apply(s, step))
  {
    hide Covered;
  }

  lemma ApplyKeepsNewest(s: State, step: Step)
    requires Inv(s)
    ensures NewestRules(Apply(s, step))
  {
    hide Covered;
  }

  lemma ApplyKeepsInv(s: State, step: Step)
    requires Inv(s)
    ensures Inv(Apply(s, step))
  {
    hide Apply, Numbered, Versioned, Covered, ShownIsOld, NewestRules;
    ApplyKeepsNumbers(s, step);
    ApplyKeepsVersions(s, step);
    ApplyKeepsCovered(s, step);
    ApplyKeepsShown(s, step);
    ApplyKeepsNewest(s, step);
  }

  lemma {:induction false} RunKeepsInv(s: State, steps: seq<Step>)
    requires Inv(s)
    ensures Inv(Run(s, steps))
  {
    if steps != [] {
      RunKeepsInv(s, steps[..|steps| - 1]);
      ApplyKeepsInv(Run(s, steps[..|steps| - 1]), steps[|steps| - 1]);
    }
  }

  // ---- main results

  /** Nothing is on its way: no queued refetch, no due effect, and the newest request has ended. */
  ghost predicate Quiet(s: State) {
    var c := s.client;
    !c.queued && !c.effectDue && (c.newest in s.requests ==> s.requests[c.newest].phase.Done?)
  }

  ghost predicate NewestFailed(s: State) {
    s.client.newest in s.requests && s.requests[s.client.newest].phase == Done(false)
  }

  /**
   In every run: once the mounted page is quiet and its newest request has not failed, it shows, for
   the query it is set to, a server state at least as new as the last change it was told of.
   */
  lemma FreshOnceQuiet(query: Query, server: nat, steps: seq<Step>)
    ensures var s := Run(Mounting(query, server), steps);
      s.client.mounted && Quiet(s) && !NewestFailed(s) ==>
        && s.client.shown.Some?
        && s.client.shown.value.version >= s.notified
        && s.client.shown.value.query == s.client.query
        && s.client.shown.value.from == s.client.newest
        && !s.client.loading
  {
    RunKeepsInv(Mounting(query, server), steps);
  }

  /**
   After the first request the loading flag is on only while the newest request is in flight, unless
   that request has been aborted, as leaving does.
   */
  lemma LoadingOnlyInFlight(query: Query, server: nat, steps: seq<Step>)
    ensures var s := Run(Mounting(query, server), steps);
      s.client.newest > 0 && s.client.newest !in s.client.aborted && s.client.loading ==>
        s.client.newest in s.requests && !s.requests[s.client.newest].phase.Done?
    ensures var s := Run(Mounting(query, server), steps);
      s.client.mounted ==> s.client.newest !in s.client.aborted
  {
    RunKeepsInv(Mounting(query, server), steps);
  }

  /** The shown list never steps back: neither its request number nor its server version. */
  ghost predicate NotOlder(before: Option<Listing>, after: Option<Listing>) {
    before.Some? ==> after.Some? && after.value.from >= before.value.from && after.value.version >= before.value.version
  }

  lemma ApplyNeverGoesBack(s: State, step: Step)
    requires Inv(s)
    ensures NotOlder(s.client.shown, Apply(s, step).client.shown)
  {
    hide Covered;
  }

  lemma {:induction false} ShownNeverGoesBack(query: Query, server: nat, steps: seq<Step>, k: nat)
    requires k <= |steps|
    ensures NotOlder(Run(Mounting(query, server), steps[..k]).client.shown,
        Run(Mounting(query, server), steps).client.shown)
  {
    hide Apply;
    if k == |steps| {
      assert steps[..k] == steps;
    } else {
      var front := steps[..|steps| - 1];
      assert front[..k] == steps[..k];
      ShownNeverGoesBack(query, server, front, k);
      RunKeepsInv(Mounting(query, server), front);
      ApplyNeverGoesBack(Run(Mounting(query, server), front), steps[|steps| - 1]);
    }
  }

  /** The page has left, nothing is queued, and every request it ever made is aborted. */
  ghost predicate Gone(s: State) {
    && !s.client.mounted && !s.client.queued
    && forall i :: i in s.requests ==> i in s.client.aborted
  }

  lemma {:induction false} GoneIsFrozen(s: State, steps: seq<Step>)
    requires Gone(s)
    ensures Gone(Run(s, steps)) && Run(s, steps).client == s.client
  {
    if steps != [] { GoneIsFrozen(s, steps[..|steps| - 1]); }
  }

  lemma RunOneMore(s: State, steps: seq<Step>, step: Step)
    ensures Run(s, steps + [step]) == Apply(Run(s, steps), step)
  {
    assert (steps + [step])[..|steps + [step]| - 1] == steps;
  }

  lemma RunThree(s: State, a: Step, b: Step, c: Step)
    ensures Run(s, [a, b, c]) == Apply(Apply(Apply(s, a), b), c)
  {
    RunOneMore(s, [], a);
    RunOneMore(s, [a], b);
    RunOneMore(s, [a, b], c);
    assert [] + [a] == [a] && [a] + [b] == [a, b] && [a, b] + [c] == [a, b, c];
  }

  lemma LateWrite(left: State)
    requires Numbered(left) && left.client.queued
    ensures exists later :: Run(left, later).client.writes != left.client.writes
  {
    var n := left.client.newest + 1;
    var issued := Apply(left, Microtask);
    assert issued.client.newest == n && n !in issued.client.aborted && issued.requests[n].phase == Sent;
    assert issued.client.writes == left.client.writes;
    var served := Apply(issued, Serve(n));
    assert served.client == issued.client && n in served.requests && served.requests[n].phase.Served?;
    assert Apply(served, Deliver(n)).client.writes == left.client.writes + 2;
    RunThree(left, Microtask, Serve(n), Deliver(n));
  }

  /**
   Leaving stops all writes, for good, exactly when no refetch is queued at that moment. A queued
   microtask is not cancelled by the clean-up: it issues a fresh request, which nothing aborts.
   */
  lemma WritesAfterUnmountIffQueued(query: Query, server: nat, steps: seq<Step>)
    requires Run(Mounting(query, server), steps).client.mounted
    ensures var s := Run(Mounting(query, server), steps);
      var left := Apply(s, Leave);
      (forall later :: Run(left, later).client.writes == left.client.writes) <==> !s.client.queued
  {
    var s := Run(Mounting(query, server), steps);
    var left := Apply(s, Leave);
    RunKeepsInv(Mounting(query, server), steps);
    if s.client.queued {
      LateWrite(left);
    } else {
      forall later ensures Run(left, later).client.writes == left.client.writes {
        GoneIsFrozen(left, later);
      }
    }
  }

  // ---- the loader of a page that has left

  /** The newest request has ended, and the loading flag is still on. */
  ghost predicate LoaderStuck(s: State) {
    s.client.loading && s.client.newest in s.requests && s.requests[s.client.newest].phase.Done?
  }

  /** The page has left without its loader on. */
  ghost predicate LeftIdle(s: State) { !s.client.mounted && !s.client.loading }

  lemma {:induction false} IdleStays(s: State, steps: seq<Step>)
    requires LeftIdle(s)
    ensures LeftIdle(Run(s, steps))
  {
    if steps != [] { IdleStays(s, steps[..|steps| - 1]); }
  }

  /** The page has left before any request, and has issued at most the queued one since. */
  ghost predicate LeftEarly(s: State) {
    !s.client.mounted && s.client.aborted == {} && s.client.newest <= 1 && (s.client.queued ==> s.client.newest == 0)
  }

  lemma {:induction false} EarlyStays(s: State, steps: seq<Step>)
    requires LeftEarly(s)
    ensures LeftEarly(Run(s, steps))
  {
    hide Apply, LeftEarly;
    if steps != [] {
      EarlyStays(s, steps[..|steps| - 1]);
      ApplyKeepsEarly(Run(s, steps[..|steps| - 1]), steps[|steps| - 1]);
    }
  }

  lemma ApplyKeepsEarly(s: State, step: Step)
    requires LeftEarly(s)
    ensures LeftEarly(Apply(s, step))
  {
  }

  lemma {:induction false} RunRun(s: State, first: seq<Step>, later: seq<Step>)
    ensures Run(Run(s, first), later) == Run(s, first + later)
  {
    if later == [] {
      assert first + later == first;
    } else {
      var front, step := later[..|later| - 1], later[|later| - 1];
      RunRun(s, first, front);
      RunOneMore(s, first + front, step);
      assert first + later == (first + front) + [step];
    }
  }

  lemma LeftRun(query: Query, server: nat, steps: seq<Step>)
    ensures Apply(Run(Mounting(query, server), steps), Leave) == Run(Mounting(query, server), steps + [Leave])
  {
    RunOneMore(Mounting(query, server), steps, Leave);
  }

  lemma FailAfterLeaving(s: State)
    requires Inv(s) && s.client.mounted && s.client.loading && s.client.newest > 0
    ensures LoaderStuck(Apply(Apply(s, Leave), Fail(s.client.newest)))
  {
  }

  lemma NotStuckEarly(s: State, later: seq<Step>)
    requires LeftEarly(s) && Inv(Run(s, later))
    ensures !LoaderStuck(Run(s, later))
  {
    EarlyStays(s, later);
  }

  /** After leaving, the loader can outlive its request exactly when it was on and a request had been made. */
  lemma LoaderStuckIff(query: Query, server: nat, steps: seq<Step>)
    requires Run(Mounting(query, server), steps).client.mounted
    ensures var s := Run(Mounting(query, server), steps);
      (exists later :: LoaderStuck(Run(Apply(s, Leave), later))) <==> s.client.loading && s.client.newest > 0
  {
    var s := Run(Mounting(query, server), steps);
    var left := Apply(s, Leave);
    RunKeepsInv(Mounting(query, server), steps);
    if s.client.loading && s.client.newest > 0 {
      FailAfterLeaving(s);
      var later := [Fail(s.client.newest)];
      RunOneMore(left, [], Fail(s.client.newest));
      assert [] + later == later;
      assert LoaderStuck(Run(left, later));
    } else {
      forall later ensures !LoaderStuck(Run(left, later)) {
        if s.client.loading {
          LeftRun(query, server, steps);
          RunRun(Mounting(query, server), steps + [Leave], later);
          RunKeepsInv(Mounting(query, server), (steps + [Leave]) + later);
          NotStuckEarly(left, later);
        } else {
          IdleStays(left, later);
        }
      }
    }
  }

  lemma TurnedOff(s: State, steps: seq<Step>)
    requires !Run(s, steps).client.loading
    ensures !forall later :: Run(s, later).client.loading
  {
  }

  lemma LateAnswer(left: State)
    requires Numbered(left) && left.client.queued
    ensures !Apply(Apply(left, Microtask), Fail(left.client.newest + 1)).client.loading
  {
  }

  /** After leaving, the loader stays on for good exactly when it was on and no refetch was queued. */
  lemma LoaderStaysOnIff(query: Query, server: nat, steps: seq<Step>)
    requires Run(Mounting(query, server), steps).client.mounted
    ensures var s := Run(Mounting(query, server), steps);
      (forall later :: Run(Apply(s, Leave), later).client.loading) <==> s.client.loading && !s.client.queued
  {
    var s := Run(Mounting(query, server), steps);
    var left := Apply(s, Leave);
    RunKeepsInv(Mounting(query, server), steps);
    if !s.client.loading {
      TurnedOff(left, []);
    } else if s.client.queued {
      LateAnswer(left);
      RunTwo(left, Microtask, Fail(left.client.newest + 1));
      TurnedOff(left, [Microtask, Fail(left.client.newest + 1)]);
    } else {
      forall later ensures Run(left, later).client.loading { GoneIsFrozen(left, later); }
    }
  }

  lemma RunTwo(s: State, a: Step, b: Step)
    ensures Run(s, [a, b]) == Apply(Apply(s, a), b)
  {
    RunOneMore(s, [], a);
    RunOneMore(s, [a], b);
    assert [] + [a] == [a] && [a] + [b] == [a, b];
  }

  // ---- runs that show the failures

  /** A page that leaves while its first list is loading shows the loader although the request has failed. */
  lemma LoaderOutlivesRequest(query: Query, server: nat)
    ensures LoaderStuck(Run(Mounting(query, server), [Effect, Leave, Fail(1)]))
  {
    RunThree(Mounting(query, server), Effect, Leave, Fail(1));
  }

  /** A page can leave while a refetch is queued; the refetch then writes to the page that has left. */
  lemma WritesAfterLeaving(query: Query, server: nat)
    ensures var s := Run(Mounting(query, server), [Effect, Notify(0)]);
      && s.client.mounted && s.client.queued
      && exists later :: Run(Apply(s, Leave), later).client.writes != Apply(s, Leave).client.writes
  {
    RunTwo(Mounting(query, server), Effect, Notify(0));
    WritesAfterUnmountIffQueued(query, server, [Effect, Notify(0)]);
  }

  // ---- catching up

  /** A continuation without failures that lets the page catch up. */
  function CatchUp(s: State): seq<Step> {
    var t := Run(s, [Effect, Microtask]);
    [Effect, Microtask] + [Serve(t.client.newest), Deliver(t.client.newest)]
  }

  lemma {:induction false} RunAppend(s: State, a: seq<Step>, b: Step, c: Step)
    ensures Run(s, a + [b, c]) == Apply(Apply(Run(s, a), b), c)
  {
    var ab := a + [b];
    assert a + [b, c] == ab + [c];
    RunOneMore(s, a, b);
    RunOneMore(s, ab, c);
  }

  lemma IssuesWhatIsDue(s: State)
    requires Inv(s) && s.client.mounted && (Quiet(s) ==> !NewestFailed(s))
    ensures var t := Apply(Apply(s, Effect), Microtask);
      && Inv(t) && t.client.mounted && !t.client.queued && !t.client.effectDue
      && t.notified == s.notified && t.client.query == s.client.query
      && t.client.newest in t.requests && t.requests[t.client.newest].phase != Done(false)
  {
    ApplyKeepsInv(s, Effect);
    ApplyKeepsInv(Apply(s, Effect), Microtask);
  }

  lemma AnswersNewest(t: State)
    requires Inv(t) && t.client.mounted && !t.client.queued && !t.client.effectDue
    requires t.client.newest in t.requests && t.requests[t.client.newest].phase != Done(false)
    ensures var u := Apply(Apply(t, Serve(t.client.newest)), Deliver(t.client.newest));
      && Inv(u) && u.client.mounted && Quiet(u) && !NewestFailed(u)
      && u.notified == t.notified && u.client.query == t.client.query
  {
    ApplyKeepsInv(t, Serve(t.client.newest));
    ApplyKeepsInv(Apply(t, Serve(t.client.newest)), Deliver(t.client.newest));
  }

  /**
   No reachable state is stuck with stale data: unless its newest request has already failed with
   nothing queued behind it, a mounted page is fresh after at most four more steps.
   */
  lemma CanAlwaysCatchUp(query: Query, server: nat, steps: seq<Step>)
    requires var s := Run(Mounting(query, server), steps);
      s.client.mounted && (Quiet(s) ==> !NewestFailed(s))
    ensures var s := Run(Mounting(query, server), steps);
      var u := Run(s, CatchUp(s));
      && |CatchUp(s)| == 4 && Quiet(u) && u.notified == s.notified
      && u.client.shown.Some?
      && u.client.shown.value.version >= s.notified && u.client.shown.value.query == s.client.query
  {
    var s := Run(Mounting(query, server), steps);
    RunKeepsInv(Mounting(query, server), steps);
    RunAppend(s, [], Effect, Microtask);
    assert [] + [Effect, Microtask] == [Effect, Microtask];
    IssuesWhatIsDue(s);
    var t := Run(s, [Effect, Microtask]);
    AnswersNewest(t);
    RunAppend(s, [Effect, Microtask], Serve(t.client.newest), Deliver(t.client.newest));
  }
}
