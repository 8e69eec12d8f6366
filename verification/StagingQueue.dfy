/**
 Lists and badges of the moderation queue (apps/web/src/lib/stagingExpiry.ts:41-140, 226-281). The
 expiry instant of a deadline is given; it is absent for missing and invalid deadlines.
 */
module StagingQueue {
  import opened Options
  import opened StableSort

  /** `status` is trimmed and in upper case. `stamp` is the precomputed `_isExpired`. */
  datatype Row = Row(id: string, expiry: Option<int>, stamp: Option<bool>, status: string)

  predicate IsStagingExpired(r: Row, now: int) { r.expiry.Some? && r.expiry.value < now }

  /** The stamp, when there is one, agrees with the deadline. */
  predicate Consistent(r: Row, now: int) {
    r.stamp.Some? ==> r.stamp.value == IsStagingExpired(r, now)
  }

  ghost predicate AllConsistent(rows: seq<Row>, now: int) {
    forall i :: 0 <= i < |rows| ==> Consistent(rows[i], now)
  }

  // ---- which rows a tab shows

  predicate ShownFresh(r: Row, now: int) {
    if r.stamp.Some? then !r.stamp.value else !IsStagingExpired(r, now)
  }

  predicate ShownExpired(r: Row, now: int) {
    r.stamp == Some(true) || IsStagingExpired(r, now)
  }

  /** A row is on exactly one of the two tabs unless it is stamped fresh although its deadline has passed. */
  lemma TabsPartition(r: Row, now: int)
    ensures (ShownFresh(r, now) <==> !ShownExpired(r, now)) <==> !(r.stamp == Some(false) && IsStagingExpired(r, now))
  {
  }

  /** A row stamped fresh before its deadline passed stands on both tabs. */
  lemma OnBothTabs(id: string, status: string, deadline: int)
    ensures var r := Row(id, Some(deadline), Some(false), status);
      ShownFresh(r, deadline + 1) && ShownExpired(r, deadline + 1)
  {
    TabsPartition(Row(id, Some(deadline), Some(false), status), deadline + 1);
  }

  /** A row has expired once its deadline lies in the past; at that very instant it has not. */
  lemma ExpiredOnce(r: Row, deadline: int, now: int)
    ensures r.expiry == Some(deadline) ==> (IsStagingExpired(r, now) <==> deadline <= now - 1)
    ensures r.expiry == None ==> !IsStagingExpired(r, now)
  {
  }

  /** With consistent stamps the tabs go by the deadline alone. */
  lemma TabsByDeadline(r: Row, now: int)
    requires Consistent(r, now)
    ensures ShownFresh(r, now) <==> r.expiry.None? || r.expiry.value >= now
    ensures ShownExpired(r, now) <==> r.expiry.Some? && r.expiry.value < now
    ensures IsExpiredItem(r, now) <==> ShownExpired(r, now)
  {
  }

  /** The stamp decides which rows the fresh list and the badges take, whatever the deadline. */
  lemma StampDecides(r: Row, now: int)
    requires r.stamp.Some?
    ensures ShownFresh(r, now) <==> r.stamp == Some(false)
    ensures IsExpiredItem(r, now) <==> r.stamp == Some(true)
    ensures r.stamp == Some(true) ==> ShownExpired(r, now)
  {
  }

  function ExpiryOr0(r: Row): int { if r.expiry.Some? then r.expiry.value else 0 }

  /** Newest deadline first. */
  predicate NewerFirst(a: Row, b: Row) { ExpiryOr0(a) >= ExpiryOr0(b) }

  function FreshRows(rows: seq<Row>, now: int): seq<Row> { Filter(rows, (r: Row) => ShownFresh(r, now)) }

  /** The expired rows, newest first, in list order among equals. */
  function ExpiredRows(rows: seq<Row>, now: int): seq<Row> {
    Sort(Filter(rows, (r: Row) => ShownExpired(r, now)), NewerFirst)
  }

  // ---- sorting with index tie-breaks is stable sorting

  datatype Indexed = Indexed(row: Row, expiry: int, index: nat)

  /** The comparator `b.expiry - a.expiry || a.index - b.index`. */
  predicate IndexedLeq(a: Indexed, b: Indexed) {
    a.expiry > b.expiry || (a.expiry == b.expiry && a.index <= b.index)
  }

  function RowsOf(xs: seq<Indexed>): (r: seq<Row>)
    ensures |r| == |xs| && forall i :: 0 <= i < |r| ==> r[i] == xs[i].row
  {
    seq(|xs|, i requires 0 <= i < |xs| => xs[i].row)
  }

  ghost predicate InListOrder(xs: seq<Indexed>) {
    && (forall i, j :: 0 <= i < j < |xs| ==> xs[i].index < xs[j].index)
    && (forall i :: 0 <= i < |xs| ==> xs[i].expiry == ExpiryOr0(xs[i].row))
  }

  lemma AppendIndexed(xs: seq<Indexed>, x: Indexed)
    requires InListOrder(xs) && x.expiry == ExpiryOr0(x.row)
    requires forall k :: 0 <= k < |xs| ==> xs[k].index < x.index
    ensures InListOrder(xs + [x]) && RowsOf(xs + [x]) == RowsOf(xs) + [x.row]
    ensures forall k :: 0 <= k < |xs + [x]| ==> (xs + [x])[k].index <= x.index
  {
  }

  lemma {:induction false} InsertByIndex(x: Indexed, s: seq<Indexed>)
    requires forall i :: 0 <= i < |s| ==> x.index < s[i].index && s[i].expiry == ExpiryOr0(s[i].row)
    requires x.expiry == ExpiryOr0(x.row)
    ensures RowsOf(Insert(x, s, IndexedLeq)) == Insert(x.row, RowsOf(s), NewerFirst)
  {
    if s != [] {
      assert RowsOf(s)[1..] == RowsOf(s[1..]);
      if !IndexedLeq(x, s[0]) {
        InsertByIndex(x, s[1..]);
        assert RowsOf([s[0]] + Insert(x, s[1..], IndexedLeq)) == [s[0].row] + RowsOf(Insert(x, s[1..], IndexedLeq));
      } else {
        assert RowsOf([x] + s) == [x.row] + RowsOf(s);
      }
    }
  }

  lemma SortedTailIsLater(s: seq<Indexed>)
    requires InListOrder(s) && s != []
    ensures var rest := Sort(s[1..], IndexedLeq);
      forall i :: 0 <= i < |rest| ==> s[0].index < rest[i].index && rest[i].expiry == ExpiryOr0(rest[i].row)
  {
    var rest := Sort(s[1..], IndexedLeq);
    SortSorts(s[1..], IndexedLeq);
    forall i | 0 <= i < |rest| ensures s[0].index < rest[i].index && rest[i].expiry == ExpiryOr0(rest[i].row) {
      assert rest[i] in multiset(s[1..]);
      var j :| 1 <= j < |s| && s[j] == rest[i];
    }
  }

  lemma {:induction false} SortByIndex(s: seq<Indexed>)
    requires InListOrder(s)
    ensures RowsOf(Sort(s, IndexedLeq)) == Sort(RowsOf(s), NewerFirst)
  {
    if s != [] {
      SortByIndex(s[1..]);
      SortedTailIsLater(s);
      InsertByIndex(s[0], Sort(s[1..], IndexedLeq));
      assert RowsOf(s)[1..] == RowsOf(s[1..]);
    }
  }

  // ---- the programs

  /** The rows that `wanted` selects, with their positions, as the loops collect them. */
  method Collect(rows: seq<Row>, wanted: Row -> bool) returns (kept: seq<Indexed>, rest: seq<Row>)
    ensures InListOrder(kept) && RowsOf(kept) == Filter(rows, wanted)
    ensures rest == Filter(rows, (r: Row) => !wanted(r))
  {
    kept, rest := [], [];
    for i := 0 to |rows|
      invariant InListOrder(kept) && forall k :: 0 <= k < |kept| ==> kept[k].index < i
      invariant RowsOf(kept) == Filter(rows[..i], wanted)
      invariant rest == Filter(rows[..i], (r: Row) => !wanted(r))
    {
      FilterNext(rows, i, wanted);
      FilterNext(rows, i, (r: Row) => !wanted(r));
      if wanted(rows[i]) {
        AppendIndexed(kept, Indexed(rows[i], ExpiryOr0(rows[i]), i));
        kept := kept + [Indexed(rows[i], ExpiryOr0(rows[i]), i)];
      } else {
        rest := rest + [rows[i]];
      }
    }
    assert rows[..|rows|] == rows;
  }

  method FilterStagingExpiredOnly(rows: seq<Row>, now: int) returns (r: seq<Row>)
    ensures r == ExpiredRows(rows, now)
  {
    var expired, _ := Collect(rows, (r: Row) => ShownExpired(r, now));
    SortByIndex(expired);
    r := RowsOf(Sort(expired, IndexedLeq));
  }

  method SortStagingWithExpiredBottom(rows: seq<Row>, now: int) returns (r: seq<Row>)
    ensures r == Filter(rows, (r: Row) => !IsStagingExpired(r, now))
                 + Sort(Filter(rows, (r: Row) => IsStagingExpired(r, now)), NewerFirst)
    ensures AllConsistent(rows, now) ==> r == FreshRows(rows, now) + ExpiredRows(rows, now)
    ensures |r| == |rows|
  {
    var expired, current := Collect(rows, (r: Row) => IsStagingExpired(r, now));
    SortByIndex(expired);
    r := current + RowsOf(Sort(expired, IndexedLeq));
    FilterAgrees(rows, (r: Row) => !((r: Row) => IsStagingExpired(r, now))(r), (r: Row) => !IsStagingExpired(r, now));
    if AllConsistent(rows, now) {
      FilterAgrees(rows, (r: Row) => !IsStagingExpired(r, now), (r: Row) => ShownFresh(r, now));
      FilterAgrees(rows, (r: Row) => IsStagingExpired(r, now), (r: Row) => ShownExpired(r, now));
    }
    SplitSizes(rows, (r: Row) => IsStagingExpired(r, now), (r: Row) => !IsStagingExpired(r, now));
    SortSizes(Filter(rows, (r: Row) => IsStagingExpired(r, now)));
  }

  lemma {:induction false} SplitSizes(rows: seq<Row>, p: Row -> bool, q: Row -> bool)
    requires forall r :: q(r) == !p(r)
    ensures Count(rows, p) + Count(rows, q) == |rows|
  {
    if rows != [] { SplitSizes(rows[1..], p, q); }
  }

  lemma NewerFirstIsTotalPreorder()
    ensures TotalPreorder(NewerFirst)
  {
  }

  lemma SortSizes(rows: seq<Row>)
    ensures |Sort(rows, NewerFirst)| == |rows|
  {
    NewerFirstIsTotalPreorder();
    SortSorts(rows, NewerFirst);
    assert |multiset(Sort(rows, NewerFirst))| == |multiset(rows)|;
  }

  /** The expired list is ordered newest first, and rows with equal deadlines keep their order. */
  lemma ExpiredOrder(rows: seq<Row>, now: int, z: Row)
    ensures Sorted(ExpiredRows(rows, now), NewerFirst)
    ensures Ties(ExpiredRows(rows, now), z, NewerFirst) == Ties(Filter(rows, (r: Row) => ShownExpired(r, now)), z,
        NewerFirst)
  {
    NewerFirstIsTotalPreorder();
    SortSorts(Filter(rows, (r: Row) => ShownExpired(r, now)), NewerFirst);
    SortStable(Filter(rows, (r: Row) => ShownExpired(r, now)), z, NewerFirst);
  }

  /** Later deadlines come first; a row without one counts as the oldest of times, the instant 0. */
  lemma NewestFirst(rows: seq<Row>, now: int, i: nat, j: nat)
    requires i < j < |ExpiredRows(rows, now)|
    ensures var a, b := ExpiredRows(rows, now)[i].expiry, ExpiredRows(rows, now)[j].expiry;
      (if a.Some? then a.value else 0) >= (if b.Some? then b.value else 0)
  {
    NewerFirstIsTotalPreorder();
    SortSorts(Filter(rows, (r: Row) => ShownExpired(r, now)), NewerFirst);
    assert NewerFirst(ExpiredRows(rows, now)[i], ExpiredRows(rows, now)[j]);
  }

  // ---- badges

  datatype ApiCounts = ApiCounts(all: int, pending: int, approved: int, rejected: int)
  datatype TabCounts = TabCounts(all: int, pending: int, approved: int, rejected: int, expired: int)

  predicate IsExpiredItem(r: Row, now: int) {
    if r.stamp.Some? then r.stamp.value else IsStagingExpired(r, now)
  }

  datatype Bucket = Pending | Approved | Rejected

  /** Everything that is neither approved nor rejected counts as pending. */
  function BucketOf(r: Row): Bucket {
    if r.status == "APPROVED" then Approved else if r.status == "REJECTED" then Rejected else Pending
  }

  /** The badge a row counts for, by its status. */
  lemma BucketIs(r: Row)
    ensures BucketOf(r) == Approved <==> r.status == "APPROVED"
    ensures BucketOf(r) == Rejected <==> r.status == "REJECTED"
  {
  }

  function Clamp(n: int): int { if n < 0 then 0 else n }

  /** Badges are not negative: a difference below zero shows as zero. */
  lemma ClampIs(n: nat)
    ensures Clamp(n) == n && Clamp(0 - n) == 0
  {
  }

  function ExpiredIn(b: Bucket, now: int): Row -> bool { (r: Row) => IsExpiredItem(r, now) && BucketOf(r) == b }

  function ExpiredAny(now: int): Row -> bool { (r: Row) => IsExpiredItem(r, now) }

  method ComputeAdjustedStagingTabCounts(rows: seq<Row>, api: ApiCounts, now: int) returns (t: TabCounts)
    ensures t.expired == Count(rows, ExpiredAny(now)) && t.all == Clamp(api.all - t.expired)
    ensures t.pending == Clamp(api.pending - Count(rows, ExpiredIn(Pending, now)))
    ensures t.approved == Clamp(api.approved - Count(rows, ExpiredIn(Approved, now)))
    ensures t.rejected == Clamp(api.rejected)
  {
    var expiredTotal, expiredPending, expiredApproved := 0, 0, 0;
    for i := 0 to |rows|
      invariant expiredTotal == Count(rows[..i], ExpiredAny(now))
      invariant expiredPending == Count(rows[..i], ExpiredIn(Pending, now))
      invariant expiredApproved == Count(rows[..i], ExpiredIn(Approved, now))
    {
      assert rows[..i + 1] == rows[..i] + [rows[i]];
      FilterAppend(rows[..i], rows[i], ExpiredAny(now));
      FilterAppend(rows[..i], rows[i], ExpiredIn(Pending, now));
      FilterAppend(rows[..i], rows[i], ExpiredIn(Approved, now));
      if !IsExpiredItem(rows[i], now) { continue; }
      expiredTotal := expiredTotal + 1;
      match BucketOf(rows[i])
      case Approved => expiredApproved := expiredApproved + 1;
      case Rejected =>
      case Pending => expiredPending := expiredPending + 1;
    }
    assert rows[..|rows|] == rows;
    t := TabCounts(Clamp(api.all - expiredTotal), Clamp(api.pending - expiredPending),
                   Clamp(api.approved - expiredApproved), Clamp(api.rejected), expiredTotal);
  }

  function InBucket(rows: seq<Row>, b: Bucket): seq<Row> { Filter(rows, (r: Row) => BucketOf(r) == b) }

  /** The server's totals count the rows at hand by status, expired or not. */
  ghost predicate TotalsMatch(api: ApiCounts, rows: seq<Row>) {
    && api.all == |rows| && api.pending == |InBucket(rows, Pending)|
    && api.approved == |InBucket(rows, Approved)| && api.rejected == |InBucket(rows, Rejected)|
  }

  lemma {:induction false} BucketSplits(rows: seq<Row>, b: Bucket, now: int)
    requires AllConsistent(rows, now)
    ensures |InBucket(rows, b)| == |FreshRows(InBucket(rows, b), now)| + Count(rows, ExpiredIn(b, now))
    ensures |rows| == |FreshRows(rows, now)| + Count(rows, ExpiredAny(now))
    ensures Count(rows, ExpiredAny(now)) == Count(rows, (r: Row) => ShownExpired(r, now))
  {
    if rows != [] {
      BucketSplits(rows[1..], b, now);
      FilterCons(rows[0], InBucket(rows[1..], b), (r: Row) => ShownFresh(r, now));
    }
  }

  /** With matching totals and consistent stamps, every badge is the length of the list its tab shows. */
  lemma BadgesMatchLists(rows: seq<Row>, api: ApiCounts, now: int)
    requires TotalsMatch(api, rows) && AllConsistent(rows, now)
    ensures Clamp(api.all - Count(rows, ExpiredAny(now))) == |FreshRows(rows, now)|
    ensures Clamp(api.pending - Count(rows, ExpiredIn(Pending, now))) == |FreshRows(InBucket(rows, Pending), now)|
    ensures Clamp(api.approved - Count(rows, ExpiredIn(Approved, now))) == |FreshRows(InBucket(rows, Approved), now)|
    ensures Count(rows, ExpiredAny(now)) == |ExpiredRows(rows, now)|
  {
    BucketSplits(rows, Pending, now);
    BucketSplits(rows, Approved, now);
    SortSizes(Filter(rows, (r: Row) => ShownExpired(r, now)));
  }
}
