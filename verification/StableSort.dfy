/**
 `Array.prototype.sort` with a comparator: ECMA-262 requires a stable sort. It is given
 here as an insertion sort, and `SortIsTheStableSort` shows that being sorted and stable
 determines the result, so any engine's algorithm returns this list.
 */
module StableSort {

  ghost predicate TotalPreorder<T(!new)>(leq: (T, T) -> bool) {
    && (forall x, y :: leq(x, y) || leq(y, x))
    && (forall x, y, z :: leq(x, y) && leq(y, z) ==> leq(x, z))
  }

  ghost predicate Sorted<T>(s: seq<T>, leq: (T, T) -> bool) {
    forall i, j :: 0 <= i < j < |s| ==> leq(s[i], s[j])
  }

  function Filter<T(!new)>(s: seq<T>, p: T -> bool): (r: seq<T>)
    ensures forall x :: x in r <==> x in s && p(x)
  {
    if s == [] then []
    else if p(s[0]) then [s[0]] + Filter(s[1..], p)
    else Filter(s[1..], p)
  }

  lemma {:induction false} FilterAgrees<T(!new)>(s: seq<T>, p: T -> bool, q: T -> bool)
    requires forall x :: x in s ==> p(x) == q(x)
    ensures Filter(s, p) == Filter(s, q)
  {
    if s != [] { FilterAgrees(s[1..], p, q); }
  }

  lemma {:induction false} FilterAppend<T(!new)>(s: seq<T>, x: T, p: T -> bool)
    ensures Filter(s + [x], p) == Filter(s, p) + (if p(x) then [x] else [])
  {
    if s == [] {
      assert s + [x] == [x];
    } else {
      FilterAppend(s[1..], x, p);
      assert (s + [x])[1..] == s[1..] + [x];
    }
  }

  lemma FilterNext<T(!new)>(s: seq<T>, i: nat, p: T -> bool)
    requires i < |s|
    ensures Filter(s[..i + 1], p) == Filter(s[..i], p) + (if p(s[i]) then [s[i]] else [])
  {
    FilterAppend(s[..i], s[i], p);
    assert s[..i + 1] == s[..i] + [s[i]];
  }

  lemma {:induction false} FilterConcat<T(!new)>(s: seq<T>, t: seq<T>, p: T -> bool)
    ensures Filter(s + t, p) == Filter(s, p) + Filter(t, p)
  {
    if s == [] {
      assert s + t == t;
    } else {
      FilterConcat(s[1..], t, p);
      assert (s + t)[1..] == s[1..] + t;
    }
  }

  /** How many elements satisfy `p`. */
  function Count<T(!new)>(s: seq<T>, p: T -> bool): nat { |Filter(s, p)| }

  /** The elements that the order does not distinguish from `x`, in list order. */
  function Ties<T(!new)>(s: seq<T>, x: T, leq: (T, T) -> bool): seq<T> {
    Filter(s, y => leq(x, y) && leq(y, x))
  }

  function Insert<T>(x: T, s: seq<T>, leq: (T, T) -> bool): seq<T> {
    if s == [] then [x]
    else if leq(x, s[0]) then [x] + s
    else [s[0]] + Insert(x, s[1..], leq)
  }

  function Sort<T>(s: seq<T>, leq: (T, T) -> bool): seq<T> {
    if s == [] then [] else Insert(s[0], Sort(s[1..], leq), leq)
  }

  lemma {:induction false} InsertMultiset<T>(x: T, s: seq<T>, leq: (T, T) -> bool)
    ensures multiset(Insert(x, s, leq)) == multiset{x} + multiset(s)
  {
    if s != [] && !leq(x, s[0]) {
      InsertMultiset(x, s[1..], leq);
      assert s == [s[0]] + s[1..];
    }
  }

  lemma {:induction false} InsertSorted<T(!new)>(x: T, s: seq<T>, leq: (T, T) -> bool)
    requires TotalPreorder(leq) && Sorted(s, leq)
    ensures Sorted(Insert(x, s, leq), leq)
  {
    if s != [] && !leq(x, s[0]) {
      InsertSorted(x, s[1..], leq);
      var rest := Insert(x, s[1..], leq);
      InsertMultiset(x, s[1..], leq);
      forall j | 0 <= j < |rest| ensures leq(s[0], rest[j]) {
        assert rest[j] in multiset(rest);
        assert rest[j] == x || rest[j] in s[1..];
      }
    }
  }

  lemma {:induction false} InsertTies<T(!new)>(x: T, s: seq<T>, z: T, leq: (T, T) -> bool)
    requires TotalPreorder(leq)
    ensures Ties(Insert(x, s, leq), z, leq) == Ties([x] + s, z, leq)
  {
    var p := y => leq(z, y) && leq(y, z);
    assert Ties([x] + s, z, leq) == Filter([x] + s, p);
    if s != [] && !leq(x, s[0]) {
      InsertTies(x, s[1..], z, leq);
      assert !(p(x) && p(s[0]));
      FilterCons(x, s, p);
      FilterCons(x, s[1..], p);
      FilterCons(s[0], Insert(x, s[1..], leq), p);
      calc {
        Filter(Insert(x, s, leq), p);
        (if p(s[0]) then [s[0]] else []) + Filter([x] + s[1..], p);
        (if p(s[0]) then [s[0]] else []) + ((if p(x) then [x] else []) + Filter(s[1..], p));
        (if p(x) then [x] else []) + Filter(s, p);
        Filter([x] + s, p);
      }
    } else {
      assert Insert(x, s, leq) == [x] + s;
    }
  }

  lemma FilterCons<T(!new)>(x: T, s: seq<T>, p: T -> bool)
    ensures Filter([x] + s, p) == (if p(x) then [x] else []) + Filter(s, p)
  {
    assert ([x] + s)[1..] == s;
  }

  /** Sorting keeps every element, whatever the order. */
  lemma {:induction false} SortKeeps<T>(s: seq<T>, leq: (T, T) -> bool)
    ensures multiset(Sort(s, leq)) == multiset(s)
  {
    if s != [] {
      SortKeeps(s[1..], leq);
      InsertMultiset(s[0], Sort(s[1..], leq), leq);
      assert s == [s[0]] + s[1..];
    }
  }

  /** Sorting keeps every element and orders them. */
  lemma {:induction false} SortSorts<T(!new)>(s: seq<T>, leq: (T, T) -> bool)
    requires TotalPreorder(leq)
    ensures Sorted(Sort(s, leq), leq)
    ensures multiset(Sort(s, leq)) == multiset(s)
  {
    if s != [] {
      SortSorts(s[1..], leq);
      InsertSorted(s[0], Sort(s[1..], leq), leq);
    }
    SortKeeps(s, leq);
  }

  /** Sorting keeps the given order among ties. */
  lemma {:induction false} SortStable<T(!new)>(s: seq<T>, z: T, leq: (T, T) -> bool)
    requires TotalPreorder(leq)
    ensures Ties(Sort(s, leq), z, leq) == Ties(s, z, leq)
  {
    if s != [] {
      SortStable(s[1..], z, leq);
      InsertTies(s[0], Sort(s[1..], leq), z, leq);
      assert ([s[0]] + Sort(s[1..], leq))[1..] == Sort(s[1..], leq);
    }
  }

  lemma {:induction false} SortedStableUnique<T(!new)>(t: seq<T>, u: seq<T>, leq: (T, T) -> bool)
    requires TotalPreorder(leq) && Sorted(t, leq) && Sorted(u, leq)
    requires forall z :: Ties(t, z, leq) == Ties(u, z, leq)
    ensures t == u
    decreases |t|
  {
    if t == [] {
      assert forall x :: x in u ==> x in Ties(u, x, leq);
      assert forall x :: x !in u;
    } else {
      assert t[0] in Ties(t, t[0], leq);
      assert u != [];
      assert u[0] in Ties(u, u[0], leq);
      assert leq(u[0], t[0]);
      assert leq(t[0], u[0]);
      assert Ties(t, t[0], leq)[0] == t[0];
      assert Ties(u, t[0], leq)[0] == u[0];
      forall z ensures Ties(t[1..], z, leq) == Ties(u[1..], z, leq) {
        assert Ties(t, z, leq) == Ties(u, z, leq);
        if leq(z, t[0]) && leq(t[0], z) {
          assert Ties(t[1..], z, leq) == Ties(t, z, leq)[1..];
        }
      }
      SortedStableUnique(t[1..], u[1..], leq);
      assert t == [t[0]] + t[1..] && u == [u[0]] + u[1..];
    }
  }

  /** A list that is sorted and keeps ties in order is `Sort`'s result, whatever produced it. */
  lemma SortIsTheStableSort<T(!new)>(s: seq<T>, t: seq<T>, leq: (T, T) -> bool)
    requires TotalPreorder(leq)
    ensures t == Sort(s, leq) <==> Sorted(t, leq) && forall z :: Ties(t, z, leq) == Ties(s, z, leq)
  {
    SortSorts(s, leq);
    forall z ensures Ties(Sort(s, leq), z, leq) == Ties(s, z, leq) { SortStable(s, z, leq); }
    if Sorted(t, leq) && forall z :: Ties(t, z, leq) == Ties(s, z, leq) {
      forall z ensures Ties(t, z, leq) == Ties(Sort(s, leq), z, leq) { }
      SortedStableUnique(t, Sort(s, leq), leq);
    }
  }

  lemma {:induction false} InsertCount<T(!new)>(x: T, s: seq<T>, leq: (T, T) -> bool, p: T -> bool)
    ensures Count(Insert(x, s, leq), p) == Count(s, p) + (if p(x) then 1 else 0)
  {
    FilterCons(x, s, p);
    if s == [] {
      assert Insert(x, s, leq) == [x] + s;
    } else if !leq(x, s[0]) {
      InsertCount(x, s[1..], leq, p);
      FilterCons(s[0], Insert(x, s[1..], leq), p);
    }
  }

  /** Sorting changes no count. */
  lemma {:induction false} SortCount<T(!new)>(s: seq<T>, leq: (T, T) -> bool, p: T -> bool)
    ensures Count(Sort(s, leq), p) == Count(s, p)
  {
    if s != [] {
      SortCount(s[1..], leq, p);
      InsertCount(s[0], Sort(s[1..], leq), leq, p);
    }
  }
}
