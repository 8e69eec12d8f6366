/**
 The race guard (apps/web/src/hooks/useRaceGuard.ts:21-54) and the announcements page that uses it
 (apps/web/src/pages/AnnouncementsPage.tsx:46-76), as objects. An async function is cut at its
 awaits: one method per stretch that runs without interruption. Every method is proved to be the
 transition of the same meaning in Freshness.dfy, whose theorems therefore hold of the page.
 */
module AnnouncementsPage {
  import opened Options
  import Freshness

  class AbortController {
    var aborted: bool

    constructor ()
      ensures !aborted
    {
      aborted := false;
    }

    method Abort()
      modifies this
      ensures aborted
    {
      aborted := true;
    }
  }

  class RaceGuard {
    var abortRef: AbortController?
    var seqRef: nat
    ghost var issued: seq<AbortController>  // the controller of request i is issued[i - 1]

    ghost predicate Valid()
      reads this
    {
      && |issued| == seqRef
      && (forall i, j :: 0 <= i < j < |issued| ==> issued[i] != issued[j])
      && abortRef == (if seqRef == 0 then null else issued[seqRef - 1])
    }

    ghost function Controller(i: nat): AbortController
      requires Valid() && 1 <= i <= seqRef
      reads this
    {
      issued[i - 1]
    }

    ghost function Aborted(): set<nat>
      requires Valid()
      reads this, issued
    {
      set i | 1 <= i <= seqRef && Controller(i).aborted
    }

    constructor ()
      ensures Valid() && seqRef == 0
    {
      abortRef := null;
      seqRef := 0;
      issued := [];
    }

    method Abort()
      requires Valid()
      modifies abortRef
      ensures Aborted() == old(Aborted()) + (if seqRef > 0 then {seqRef} else {})
    {
      if abortRef != null {
        abortRef.Abort();
      }
    }

    method NewRequest() returns (signal: AbortController, ticket: nat)
      requires Valid()
      modifies this, abortRef
      ensures Valid() && fresh(signal) && !signal.aborted
      ensures issued == old(issued) + [signal]
      ensures ticket == seqRef == old(seqRef) + 1
      ensures Aborted() == old(Aborted()) + (if old(seqRef) > 0 then {old(seqRef)} else {})
    {
      Abort();
      signal := new AbortController();
      abortRef := signal;
      seqRef := seqRef + 1;
      issued := issued + [signal];
      ticket := seqRef;
    }

    method IsCurrent(ticket: nat) returns (r: bool)
      requires Valid()
      ensures r <==> ticket == seqRef && seqRef !in Aborted()
    {
      r := ticket == seqRef && !(if abortRef != null then abortRef.aborted else false);
    }
  }

  class Page {
    const guard: RaceGuard
    var mounted: bool
    var queued: bool
    var effectDue: bool
    var query: Freshness.Query
    var data: Option<Freshness.Listing>
    var loading: bool
    ghost var writes: nat

    ghost predicate Valid()
      reads this, guard
    {
      guard.Valid()
    }

    ghost function Abs(): Freshness.Client
      requires Valid()
      reads this, guard, guard.issued
    {
      Freshness.Client(guard.seqRef, guard.Aborted(), mounted, queued, effectDue, query, data, loading, writes)
    }

    /** `signal` and `ticket` are the pair that `NewRequest` handed out for this request. */
    ghost predicate Handle(signal: AbortController, ticket: nat)
      requires Valid()
      reads this, guard
    {
      1 <= ticket <= guard.seqRef && guard.Controller(ticket) == signal
    }

    constructor (q: Freshness.Query, server: nat)
      ensures Valid() && Abs() == Freshness.Mounting(q, server).client
    {
      guard := new RaceGuard();
      mounted, queued, effectDue := true, false, true;
      query, data, loading := q, None, true;
      writes := 0;
    }

    /** `fetchAnnouncements` up to its request. */
    method FetchAnnouncements(silent: bool) returns (signal: AbortController, ticket: nat)
      requires Valid()
      modifies this`loading, guard, guard.abortRef
      ensures Valid() && Abs() == Freshness.Fetch(old(Abs()), silent)
      ensures loading == (if silent then old(loading) else true)
      ensures Handle(signal, ticket) && ticket == guard.seqRef
      ensures guard.issued == old(guard.issued) + [signal]
    {
      signal, ticket := guard.NewRequest();
      if !silent {
        loading := true;
      }
    }

    /** The `finally` block. */
    method Settle(signal: AbortController, ticket: nat)
      requires Valid() && Handle(signal, ticket)
      modifies this`loading, this`writes
      ensures Valid()
      ensures var c := old(Abs());
        Abs() == if Freshness.IsCurrent(c, ticket) && ticket !in c.aborted
                 then c.(loading := false, writes := c.writes + 1) else c
    {
      var current := guard.IsCurrent(ticket);
      if current && !signal.aborted {
        loading := false;
        writes := writes + 1;
      }
    }

    /** `fetchAnnouncements` after its request succeeded. */
    method FetchResolved(signal: AbortController, ticket: nat, result: Freshness.Listing)
      requires Valid() && Handle(signal, ticket)
      modifies this`data, this`loading, this`writes
      ensures Valid() && Abs() == Freshness.Resolve(old(Abs()), ticket, result)
      ensures ticket == guard.seqRef && !signal.aborted ==> data == Some(result) && !loading
      ensures ticket != guard.seqRef || signal.aborted ==> data == old(data) && loading == old(loading)
    {
      var current := guard.IsCurrent(ticket);
      if !current || signal.aborted {
        Settle(signal, ticket);
        return;
      }
      data := Some(result);
      writes := writes + 1;
      Settle(signal, ticket);
    }

    /** `fetchAnnouncements` after its request failed; the toast is not part of this model. */
    method FetchRejected(signal: AbortController, ticket: nat)
      requires Valid() && Handle(signal, ticket)
      modifies this`loading, this`writes
      ensures Valid() && Abs() == Freshness.Reject(old(Abs()), ticket)
      ensures loading == (old(loading) && (ticket != guard.seqRef || signal.aborted))
    {
      Settle(signal, ticket);
    }

    /** The mark-all-read call of a delivered list returned. */
    method MarkAllReadReturned(ticket: nat)
      requires Valid()
      modifies this`data, this`writes
      ensures Valid() && Abs() == Freshness.AckRead(old(Abs()), ticket)
      ensures ticket == guard.seqRef && ticket !in guard.Aborted() && data.Some? ==> data.value.allRead
      ensures ticket != guard.seqRef || ticket in guard.Aborted() ==> data == old(data)
    {
      var current := guard.IsCurrent(ticket);
      if !current { return; }
      data := if data.Some? then Some(data.value.(allRead := true)) else None;
      writes := writes + 1;
    }

    /** A listener of `useEntitySync`: at most one refetch is queued. */
    method OnEvent()
      requires Valid()
      modifies this`queued
      ensures Valid() && Abs() == Freshness.OnEvent(old(Abs()))
      ensures queued == (mounted || old(queued))
    {
      if !mounted { return; }  // the clean-up has removed the listener
      if queued { return; }
      queued := true;
    }

    /** The queued microtask. It runs whether or not the page is still mounted. */
    method Microtask() returns (signal: AbortController, ticket: nat)
      requires Valid() && queued
      modifies this`queued, this`loading, guard, guard.abortRef
      ensures Valid() && Abs() == Freshness.RunQueued(old(Abs()))
      ensures !queued && loading == old(loading) && guard.seqRef == old(guard.seqRef) + 1
      ensures Handle(signal, ticket) && ticket == guard.seqRef
    {
      queued := false;
      signal, ticket := FetchAnnouncements(true);
    }

    method SetQuery(q: Freshness.Query)
      requires Valid()
      modifies this`query, this`effectDue
      ensures Valid() && Abs() == Freshness.ChangeQuery(old(Abs()), q)
      ensures mounted ==> query == q && effectDue == (old(effectDue) || old(query) != q)
    {
      if mounted && q != query {
        query := q;
        effectDue := true;
      }
    }

    method Effect() returns (signal: AbortController, ticket: nat)
      requires Valid() && mounted && effectDue
      modifies this`effectDue, this`loading, guard, guard.abortRef
      ensures Valid() && Abs() == Freshness.RunEffect(old(Abs()))
      ensures !effectDue && loading && guard.seqRef == old(guard.seqRef) + 1
      ensures Handle(signal, ticket) && ticket == guard.seqRef
    {
      effectDue := false;
      signal, ticket := FetchAnnouncements(false);
    }

    method Unmount()
      requires Valid()
      modifies this`mounted, guard.abortRef
      ensures Valid() && Abs() == Freshness.Unmount(old(Abs()))
      ensures !mounted && queued == old(queued)
    {
      if mounted {
        mounted := false;
        guard.Abort();
      }
    }
  }
}
