/**
 Generated passwords (apps/web/src/lib/password.ts:9-37): one character drawn per position, the first
 four from one class each, then an in-place shuffle steered by the same random buffer.
 */
module Password {
  import opened Residues

  /** A cell of the `Uint32Array` that the browser fills with random values. */
  type Uint32 = x: int | 0 <= x < 0x1_0000_0000

  const UPPER: string := "ABCDEFGHJKLMNPQRSTUVWXYZ"
  const LOWER: string := "abcdefghijkmnpqrstuvwxyz"
  const DIGITS: string := "23456789"
  const SYMBOLS: string := "!@#$%^&*"

  function AllChars(): string { UPPER + LOWER + DIGITS + SYMBOLS }

  /** The characters that position `i` is drawn from. */
  function Pool(i: nat): (p: string)
    ensures p != "" && forall c :: c in p ==> c in AllChars()
  {
    if i == 0 then UPPER else if i == 1 then LOWER else if i == 2 then DIGITS else if i == 3 then SYMBOLS
        else AllChars()
  }

  function Drawn(buf: seq<Uint32>): (r: string)
    ensures |r| == |buf|
  {
    seq(|buf|, i requires 0 <= i < |buf| => Pool(i)[buf[i] % |Pool(i)|])
  }

  // ---- the shuffle

  function Swap<T>(s: seq<T>, i: nat, j: nat): (r: seq<T>)
    requires i < |s| && j < |s|
    ensures |r| == |s| && r[i] == s[j] && r[j] == s[i]
    ensures forall k :: 0 <= k < |s| && k != i && k != j ==> r[k] == s[k]
  {
    s[i := s[j]][j := s[i]]
  }

  /** From position `i` down to 1: swap with the drawn position at or before it. */
  function ShuffleFrom<T>(s: seq<T>, i: int, draws: seq<nat>): (r: seq<T>)
    requires i < |s| <= |draws|
    ensures |r| == |s|
    ensures forall k :: 0 <= k < |s| && i < k ==> r[k] == s[k]
    decreases i
  {
    if i <= 0 then s else ShuffleFrom(Swap(s, i, draws[i] % (i + 1)), i - 1, draws)
  }

  function Shuffle<T>(s: seq<T>, draws: seq<nat>): seq<T>
    requires |s| <= |draws|
  {
    ShuffleFrom(s, |s| - 1, draws)
  }

  lemma SwapKeeps<T>(s: seq<T>, i: nat, j: nat)
    requires i < |s| && j < |s|
    ensures multiset(Swap(s, i, j)) == multiset(s)
  {
    assert multiset(s[i := s[j]][j := s[i]]) == multiset(s);
  }

  lemma {:induction false} ShufflePermutes<T>(s: seq<T>, i: int, draws: seq<nat>)
    requires i < |s| <= |draws|
    ensures multiset(ShuffleFrom(s, i, draws)) == multiset(s)
    decreases i
  {
    hide Swap;
    if i > 0 {
      var j := draws[i] % (i + 1);
      SwapKeeps(s, i, j);
      ShufflePermutes(Swap(s, i, j), i - 1, draws);
    }
  }

  lemma SmallRemainder(j: nat, n: nat)
    requires j < n
    ensures j % n == j
  {
  }

  ghost predicate NoTwins<T>(s: seq<T>) { forall i, j :: 0 <= i < j < |s| ==> s[i] != s[j] }

  lemma SamePlace<T>(s: seq<T>, j: nat, k: nat)
    requires NoTwins(s) && j < |s| && k < |s| && s[j] == s[k]
    ensures j == k
  {
  }

  lemma SwapKeepsDistinct<T>(s: seq<T>, i: nat, j: nat)
    requires NoTwins(s) && i < |s| && j < |s|
    ensures NoTwins(Swap(s, i, j))
  {
  }

  /** No arrangement of distinct items comes from two different choices of positions. */
  lemma {:induction false} ShuffleReachesOnce<T>(s: seq<T>, i: int, d: seq<nat>, e: seq<nat>)
    requires NoTwins(s) && i < |s| <= |d| && |s| <= |e|
    requires ShuffleFrom(s, i, d) == ShuffleFrom(s, i, e)
    ensures forall k :: 0 < k <= i ==> d[k] % (k + 1) == e[k] % (k + 1)
    decreases i
  {
    hide NoTwins, Swap;
    if i > 0 {
      var j, k := d[i] % (i + 1), e[i] % (i + 1);
      var t, u := Swap(s, i, j), Swap(s, i, k);
      assert ShuffleFrom(t, i - 1, d)[i] == s[j] && ShuffleFrom(u, i - 1, e)[i] == s[k];
      SamePlace(s, j, k);
      SwapKeepsDistinct(s, i, j);
      ShuffleReachesOnce(t, i - 1, d, e);
    }
  }

  method ShuffleInPlace(arr: array<char>, buf: seq<Uint32>)
    requires |buf| == arr.Length
    modifies arr
    ensures arr[..] == Shuffle(old(arr[..]), buf)
  {
    var i := arr.Length - 1;
    while i > 0
      invariant i < arr.Length
      invariant ShuffleFrom(arr[..], i, buf) == Shuffle(old(arr[..]), buf)
    {
      ghost var next := Swap(arr[..], i, buf[i] % (i + 1));
      var j := buf[i] % (i + 1);
      arr[i], arr[j] := arr[j], arr[i];
      assert arr[..] == next;
      i := i - 1;
    }
  }

  // ---- the password

  predicate HasOneOf(pw: string, pool: string) { exists i :: 0 <= i < |pw| && pw[i] in pool }

  predicate HasAllClasses(pw: string) {
    HasOneOf(pw, UPPER) && HasOneOf(pw, LOWER) && HasOneOf(pw, DIGITS) && HasOneOf(pw, SYMBOLS)
  }

  lemma HasOneOfSame(a: string, b: string, pool: string)
    requires multiset(a) == multiset(b)
    ensures HasOneOf(a, pool) <==> HasOneOf(b, pool)
  {
    if i :| 0 <= i < |a| && a[i] in pool { assert a[i] in multiset(b); }
    if i :| 0 <= i < |b| && b[i] in pool { assert b[i] in multiset(a); }
  }

  predicate Within(pw: string, pool: string) { forall c :: c in pw ==> c in pool }

  lemma WithinSame(a: string, b: string, pool: string)
    requires multiset(a) == multiset(b) && Within(a, pool)
    ensures Within(b, pool)
  {
    forall c | c in b ensures c in pool {
      assert c in multiset(a);
    }
  }

  lemma DrawnWithin(buf: seq<Uint32>)
    ensures Within(Drawn(buf), AllChars())
  {
    var s := Drawn(buf);
    forall c | c in s ensures c in AllChars() {
      var i :| 0 <= i < |s| && s[i] == c;
      assert c in Pool(i);
    }
  }

  datatype Class = UpperCase | LowerCase | Digit | Symbol

  function ClassOf(c: char): Class {
    if 'A' <= c <= 'Z' then UpperCase else if 'a' <= c <= 'z' then LowerCase else if '0' <= c <= '9' then Digit
        else Symbol
  }

  ghost predicate AllOf(s: string, k: Class) { forall i :: 0 <= i < |s| ==> ClassOf(s[i]) == k }

  lemma UpperClass()
    ensures AllOf(UPPER, UpperCase)
  {
  }

  lemma LowerClass()
    ensures AllOf(LOWER, LowerCase)
  {
  }

  lemma OtherClasses()
    ensures AllOf(DIGITS, Digit) && AllOf(SYMBOLS, Symbol)
  {
  }

  lemma EarlyPoolsHoldNoSymbol(i: nat, k: nat)
    requires i < 3 && k < |Pool(i)|
    ensures Pool(i)[k] !in SYMBOLS
  {
    hide UPPER, LOWER, DIGITS, SYMBOLS;
    UpperClass();
    LowerClass();
    OtherClasses();
  }

  /** The drawn characters cover the four classes exactly when there are four positions to draw. */
  lemma DrawnCovers(buf: seq<Uint32>)
    ensures HasAllClasses(Drawn(buf)) <==> |buf| >= 4
  {
    var s := Drawn(buf);
    if |buf| >= 4 {
      assert s[0] in UPPER && s[1] in LOWER && s[2] in DIGITS && s[3] in SYMBOLS;
    } else {
      forall i | 0 <= i < |s| ensures s[i] !in SYMBOLS { EarlyPoolsHoldNoSymbol(i, buf[i] % |Pool(i)|); }
    }
  }

  function Generated(buf: seq<Uint32>): string { Shuffle(Drawn(buf), buf) }

  /** What the shuffle leaves of the drawn characters. */
  lemma GeneratedIsStrong(buf: seq<Uint32>)
    ensures |Generated(buf)| == |buf|
    ensures multiset(Generated(buf)) == multiset(Drawn(buf))
    ensures Within(Generated(buf), AllChars())
    ensures HasAllClasses(Generated(buf)) <==> |buf| >= 4
  {
    hide Pool, Drawn, AllChars, Within, HasOneOf;
    var s, pw := Drawn(buf), Generated(buf);
    ShufflePermutes(s, |s| - 1, buf);
    DrawnCovers(buf);
    forall pool ensures HasOneOf(s, pool) <==> HasOneOf(pw, pool) { HasOneOfSame(s, pw, pool); }
    DrawnWithin(buf);
    WithinSame(s, pw, AllChars());
  }

  lemma DrawnNext(buf: seq<Uint32>, i: nat)
    requires i < |buf|
    ensures Drawn(buf)[..i + 1] == Drawn(buf)[..i] + [Pool(i)[buf[i] % |Pool(i)|]]
  {
    hide Pool;
    var s := Drawn(buf);
    assert s[..i + 1] == s[..i] + [s[i]];
  }

  method GenerateSecurePassword(length: nat, buf: seq<Uint32>) returns (pw: string)
    requires |buf| == length
    ensures pw == Generated(buf)
    ensures |pw| == length && Within(pw, AllChars())
    ensures HasAllClasses(pw) <==> length >= 4
  {
    hide Shuffle, HasAllClasses, Within, Pool, Drawn;
    var out := "";
    for i := 0 to length
      invariant out == Drawn(buf)[..i]
    {
      DrawnNext(buf, i);
      var pool := Pool(i);
      out := out + [pool[buf[i] % |pool|]];
    }
    assert out == Drawn(buf);
    var arr := new char[length](i requires 0 <= i < |out| => out[i]);
    assert arr[..] == out;
    ShuffleInPlace(arr, buf);
    pw := arr[..];
    GeneratedIsStrong(buf);
  }

  // ---- one buffer for the characters and the shuffle

  const BOUND: nat := 0x1_0000_0000

  /** Which character of its pool each cell picks. */
  function Picks(buf: seq<Uint32>): (r: seq<nat>)
    ensures |r| == |buf| && forall i :: 0 <= i < |r| ==> r[i] == buf[i] % |Pool(i)|
  {
    seq(|buf|, i requires 0 <= i < |buf| => buf[i] % |Pool(i)|)
  }

  /** Which position each cell swaps its own with. */
  function Places(buf: seq<Uint32>): (r: seq<nat>)
    ensures |r| == |buf| && forall i :: 0 <= i < |r| ==> r[i] == buf[i] % (i + 1)
  {
    seq(|buf|, i requires 0 <= i < |buf| => buf[i] % (i + 1))
  }

  ghost predicate ArePicks(picks: seq<nat>) { forall i :: 0 <= i < |picks| ==> picks[i] < |Pool(i)| }

  function Text(picks: seq<nat>): (r: string)
    requires ArePicks(picks)
    ensures |r| == |picks| && forall i :: 0 <= i < |r| ==> r[i] == Pool(i)[picks[i]]
  {
    seq(|picks|, i requires 0 <= i < |picks| => Pool(i)[picks[i]])
  }

  /** One cell can pick character `c` for position `i` and swap the position with `j`. */
  ghost predicate Compatible(i: nat, c: nat, j: nat) {
    var p := |Pool(i)|;
    && c < p && j <= i
    && c % Gcd(p, i + 1) == j % Gcd(p, i + 1)
    && Least(p, i + 1, c, j) < BOUND
  }

  /** The cell `x` picks character `c` for position `i` and swaps the position with `j`. */
  predicate Does(x: Uint32, i: nat, c: nat, j: nat) { Meets(x, |Pool(i)|, i + 1, c, j) }

  /** The character and the swap must agree modulo the common divisor of the pool's size and the position. */
  lemma CellIff(i: nat, c: nat, j: nat)
    requires c < |Pool(i)| && j <= i
    ensures (exists x: Uint32 :: Does(x, i, c, j)) <==> Compatible(i, c, j)
  {
    var p := |Pool(i)|;
    MeetBelowIff(p, i + 1, c, j, BOUND);
    if Compatible(i, c, j) {
      var x :| 0 <= x < BOUND && Meets(x, p, i + 1, c, j);
      assert Does(x, i, c, j);
    }
  }

  /** Up to 67,108,864 characters the cell is always large enough. */
  lemma ShortEnough(i: nat, c: nat, j: nat)
    requires i < 0x400_0000 && c < |Pool(i)| && j <= i
    ensures Compatible(i, c, j) <==> c % Gcd(|Pool(i)|, i + 1) == j % Gcd(|Pool(i)|, i + 1)
  {
    PoolSize(i);
    assert |Pool(i)| * (i + 1) <= BOUND by { ProductBound(|Pool(i)|, i + 1); }
  }

  lemma ProductBound(p: nat, n: nat)
    requires p <= 64 && n <= 0x400_0000
    ensures p * n <= BOUND
  {
    assert p * n <= 64 * n;
  }

  lemma PoolSize(i: nat)
    ensures |Pool(i)| == if i < 2 then 24 else if i < 4 then 8 else 64
  {
  }

  ghost predicate AllCompatible(picks: seq<nat>, places: seq<nat>) {
    |picks| == |places| && forall i :: 0 <= i < |picks| ==> Compatible(i, picks[i], places[i])
  }

  lemma BufferCompatible(buf: seq<Uint32>)
    ensures ArePicks(Picks(buf)) && AllCompatible(Picks(buf), Places(buf))
  {
    forall i | 0 <= i < |buf| ensures Compatible(i, Picks(buf)[i], Places(buf)[i]) {
      var c, j := Picks(buf)[i], Places(buf)[i];
      assert Does(buf[i], i, c, j);
      CellIff(i, c, j);
    }
  }

  lemma {:induction false} BufferFor(picks: seq<nat>, places: seq<nat>) returns (buf: seq<Uint32>)
    requires AllCompatible(picks, places)
    ensures |buf| == |picks| && Picks(buf) == picks && Places(buf) == places
  {
    if picks == [] {
      buf := [];
    } else {
      var n := |picks| - 1;
      var front := BufferFor(picks[..n], places[..n]);
      CellIff(n, picks[n], places[n]);
      var x: Uint32 :| Does(x, n, picks[n], places[n]);
      buf := front + [x];
      forall i | 0 <= i < n ensures Picks(buf)[i] == picks[i] && Places(buf)[i] == places[i] {
        assert Picks(front)[i] == picks[..n][i] && Places(front)[i] == places[..n][i];
      }
    }
  }

  /** Some buffer picks these characters and makes these swaps exactly when every cell can do both. */
  lemma BufferIff(picks: seq<nat>, places: seq<nat>)
    ensures (exists buf :: Picks(buf) == picks && Places(buf) == places) <==> AllCompatible(picks, places)
  {
    if buf :| Picks(buf) == picks && Places(buf) == places { BufferCompatible(buf); }
    if AllCompatible(picks, places) {
      var buf := BufferFor(picks, places);
      assert Picks(buf) == picks && Places(buf) == places;
    }
  }

  lemma {:induction false} PlacesShuffle<T>(s: seq<T>, i: int, buf: seq<Uint32>)
    requires i < |s| == |buf|
    ensures ShuffleFrom(s, i, buf) == ShuffleFrom(s, i, Places(buf))
    decreases i
  {
    if i > 0 {
      SmallRemainder(Places(buf)[i], i + 1);
      PlacesShuffle(Swap(s, i, buf[i] % (i + 1)), i - 1, buf);
    }
  }

  lemma GeneratedBy(buf: seq<Uint32>)
    ensures ArePicks(Picks(buf)) && Drawn(buf) == Text(Picks(buf))
    ensures Generated(buf) == Shuffle(Text(Picks(buf)), Places(buf))
  {
    hide Pool, ShuffleFrom;
    BufferCompatible(buf);
    PlacesShuffle(Drawn(buf), |buf| - 1, buf);
  }

  /** `pw` is the picked text, shuffled by compatible swaps. */
  ghost predicate Comes(pw: string, picks: seq<nat>, places: seq<nat>) {
    ArePicks(picks) && AllCompatible(picks, places) && pw == Shuffle(Text(picks), places)
  }

  /** The passwords that can be generated are exactly those. */
  lemma GeneratedIff(pw: string)
    ensures (exists buf :: Generated(buf) == pw) <==> exists picks, places :: Comes(pw, picks, places)
  {
    if buf :| Generated(buf) == pw {
      BufferCompatible(buf);
      GeneratedBy(buf);
      assert Comes(pw, Picks(buf), Places(buf));
    }
    if picks, places :| Comes(pw, picks, places) {
      var buf := BufferFor(picks, places);
      GeneratedBy(buf);
      assert Generated(buf) == pw;
    }
  }

  // ---- a pool's characters are all different

  ghost predicate Rising(s: string) { forall i :: 0 <= i < |s| - 1 ==> s[i] < s[i + 1] }

  lemma {:induction false} RisingDiffer(s: string, a: nat, b: nat)
    requires Rising(s) && a < b < |s|
    ensures s[a] < s[b]
  {
    if a + 1 < b { RisingDiffer(s, a, b - 1); }
  }

  lemma RisingNoTwins(s: string)
    requires Rising(s)
    ensures NoTwins(s)
  {
    forall i, j | 0 <= i < j < |s| ensures s[i] != s[j] { RisingDiffer(s, i, j); }
  }

  lemma UpperRises()
    ensures Rising(UPPER)
  {
  }

  lemma LowerRises()
    ensures Rising(LOWER)
  {
  }

  lemma DigitsRise()
    ensures Rising(DIGITS)
  {
  }

  lemma SymbolsDiffer()
    ensures NoTwins(SYMBOLS)
  {
  }

  lemma ClassesDiffer()
    ensures NoTwins(UPPER) && NoTwins(LOWER) && NoTwins(DIGITS) && NoTwins(SYMBOLS)
  {
    UpperRises();
    LowerRises();
    DigitsRise();
    RisingNoTwins(UPPER);
    RisingNoTwins(LOWER);
    RisingNoTwins(DIGITS);
    SymbolsDiffer();
  }

  lemma ApartNoTwins(a: string, b: string)
    requires NoTwins(a) && NoTwins(b) && forall i, j :: 0 <= i < |a| && 0 <= j < |b| ==> ClassOf(a[i]) != ClassOf(b[j])
    ensures NoTwins(a + b)
  {
  }

  lemma FourClasses(a: string, b: string, c: string, d: string)
    requires NoTwins(a) && NoTwins(b) && NoTwins(c) && NoTwins(d)
    requires AllOf(a, UpperCase) && AllOf(b, LowerCase) && AllOf(c, Digit) && AllOf(d, Symbol)
    ensures NoTwins(a + b + c + d)
  {
    ApartNoTwins(a, b);
    ApartNoTwins(a + b, c);
    ApartNoTwins(a + b + c, d);
  }

  lemma PoolNoTwins(i: nat)
    ensures NoTwins(Pool(i))
  {
    hide UPPER, LOWER, DIGITS, SYMBOLS;
    ClassesDiffer();
    UpperClass();
    LowerClass();
    OtherClasses();
    FourClasses(UPPER, LOWER, DIGITS, SYMBOLS);
  }

  /** The drawn text determines which characters were picked. */
  lemma DrawnDetermines(a: seq<Uint32>, b: seq<Uint32>)
    ensures Drawn(a) == Drawn(b) <==> Picks(a) == Picks(b)
  {
    assert |Drawn(a)| == |Picks(a)| && |Drawn(b)| == |Picks(b)|;
    if Picks(a) == Picks(b) {
      GeneratedBy(a);
      GeneratedBy(b);
    }
    if Drawn(a) == Drawn(b) {
      forall i | 0 <= i < |a| ensures Picks(a)[i] == Picks(b)[i] { SamePick(a, b, i); }
    }
  }

  lemma SamePick(a: seq<Uint32>, b: seq<Uint32>, i: nat)
    requires i < |a| == |b| && Drawn(a)[i] == Drawn(b)[i]
    ensures Picks(a)[i] == Picks(b)[i]
  {
    hide Pool;
    PoolNoTwins(i);
    var p := Pool(i);
    var c, d := a[i] % |p|, b[i] % |p|;
    assert p[c] == p[d];
  }

  // ---- which arrangements of a drawn text can come out

  /** The same characters can be drawn again and come out as `goal`. */
  ghost predicate Reachable(drawn: seq<Uint32>, goal: string) {
    exists buf :: Drawn(buf) == Drawn(drawn) && Generated(buf) == goal
  }

  /** Drawn characters can come out as `goal` exactly when swaps that they allow arrange them so. */
  lemma ReachableIff(drawn: seq<Uint32>, goal: string)
    ensures Reachable(drawn, goal) <==> exists places :: Comes(goal, Picks(drawn), places)
  {
    if buf :| Drawn(buf) == Drawn(drawn) && Generated(buf) == goal {
      DrawnDetermines(buf, drawn);
      BufferCompatible(buf);
      GeneratedBy(buf);
      assert Comes(goal, Picks(drawn), Places(buf));
    }
    if places :| Comes(goal, Picks(drawn), places) {
      var buf := BufferFor(Picks(drawn), places);
      GeneratedBy(buf);
      DrawnDetermines(buf, drawn);
      assert Drawn(buf) == Drawn(drawn) && Generated(buf) == goal;
    }
  }

  lemma NotFirst(i: nat)
    requires Gcd(|Pool(i)|, i + 1) > 1
    ensures i >= 1
  {
    GcdWithOne(|Pool(i)|);
  }

  /**
   A position's swap is free of its character exactly when the pool's size and the number of positions
   up to it have no common divisor.
   */
  lemma FreeSwapIff(i: nat)
    requires i < 0x400_0000
    ensures (forall c: nat, j: nat :: c < |Pool(i)| && j <= i ==> Compatible(i, c, j)) <==> Gcd(|Pool(i)|, i + 1) == 1
  {
    hide Compatible, Pool;
    var g := Gcd(|Pool(i)|, i + 1);
    forall c: nat, j: nat | c < |Pool(i)| && j <= i
      ensures Compatible(i, c, j) <==> c % g == j % g
    {
      ShortEnough(i, c, j);
    }
    if g > 1 {
      NotFirst(i);
      SmallRemainder(1, g);
      assert !Compatible(i, 0, 1);
    }
  }

  /** When the shuffle settles everything after position 1 as it was, each swap was between equal characters. */
  lemma {:induction false} UnmovedSwaps<T>(s: seq<T>, i: int, draws: seq<nat>)
    requires 1 <= i < |s| <= |draws|
    requires forall k :: 1 < k <= i ==> ShuffleFrom(s, i, draws)[k] == s[k]
    ensures ShuffleFrom(s, i, draws) == Swap(s, 1, draws[1] % 2)
    decreases i
  {
    if i == 1 {
      assert ShuffleFrom(s, 1, draws) == ShuffleFrom(Swap(s, 1, draws[1] % 2), 0, draws);
    } else {
      var j := draws[i] % (i + 1);
      var t := Swap(s, i, j);
      assert ShuffleFrom(t, i - 1, draws)[i] == t[i] == s[j];
      assert t == s;
      UnmovedSwaps(s, i - 1, draws);
    }
  }

  lemma FirstTwoDiffer(buf: seq<Uint32>)
    requires |buf| >= 2
    ensures Drawn(buf)[0] != Drawn(buf)[1]
  {
    hide UPPER, LOWER;
    UpperClass();
    LowerClass();
    assert ClassOf(Drawn(buf)[0]) == UpperCase && ClassOf(Drawn(buf)[1]) == LowerCase;
  }

  /** The second cell's parity is that of the letter it picks. */
  lemma SameParity(a: nat, b: nat)
    requires a % 24 == b % 24
    ensures a % 2 == b % 2
  {
    assert a == 2 * (12 * (a / 24)) + a % 24 && b == 2 * (12 * (b / 24)) + b % 24;
    EvenPart(12 * (a / 24), a % 24);
    EvenPart(12 * (b / 24), b % 24);
  }

  lemma EvenPart(q: nat, r: nat)
    ensures (2 * q + r) % 2 == r % 2
  {
  }

  /** The drawn text with its first two characters in the order that their swap never leaves. */
  function Unreached(drawn: seq<Uint32>): string
    requires |drawn| >= 2
  {
    Swap(Drawn(drawn), 1, 1 - drawn[1] % 2)
  }

  lemma ShuffleMisses<T>(s: seq<T>, draws: seq<nat>, p: nat)
    requires 2 <= |s| <= |draws| && s[0] != s[1] && p <= 1 && draws[1] % 2 == p
    ensures Shuffle(s, draws) != Swap(s, 1, 1 - p)
  {
    var other := Swap(s, 1, 1 - p);
    assert other[1] != Swap(s, 1, p)[1];
    if Shuffle(s, draws) == other { UnmovedSwaps(s, |s| - 1, draws); }
  }

  lemma NeverReached(drawn: seq<Uint32>, buf: seq<Uint32>)
    requires |drawn| >= 2 && Picks(buf) == Picks(drawn)
    ensures Generated(buf) != Unreached(drawn)
  {
    hide Pool, Shuffle, Swap, Drawn, Text, Picks, Places, Generated, ArePicks;
    assert |buf| == |Picks(buf)| == |drawn|;
    GeneratedBy(buf);
    GeneratedBy(drawn);
    FirstTwoDiffer(drawn);
    PoolSize(1);
    assert Picks(buf)[1] == Picks(drawn)[1];
    SameParity(buf[1], drawn[1]);
    assert Places(buf)[1] % 2 == drawn[1] % 2;
    ShuffleMisses(Drawn(drawn), Places(buf), drawn[1] % 2);
  }

  lemma UnreachedPermutes(drawn: seq<Uint32>)
    requires |drawn| >= 2
    ensures multiset(Unreached(drawn)) == multiset(Drawn(drawn))
  {
    SwapKeeps(Drawn(drawn), 1, 1 - drawn[1] % 2);
  }

  /** Every arrangement of what is drawn can come out. */
  ghost predicate AllReachable(drawn: seq<Uint32>) {
    forall goal: string :: multiset(goal) == multiset(Drawn(drawn)) ==> Reachable(drawn, goal)
  }

  /** All arrangements of a drawn text can come out exactly when it has at most one character. */
  lemma AllReachableIff(drawn: seq<Uint32>)
    ensures AllReachable(drawn) <==> |drawn| <= 1
  {
    if |drawn| >= 2 {
      UnreachedPermutes(drawn);
      forall buf | Drawn(buf) == Drawn(drawn) ensures Generated(buf) != Unreached(drawn) {
        DrawnDetermines(buf, drawn);
        NeverReached(drawn, buf);
      }
      assert !Reachable(drawn, Unreached(drawn));
    } else {
      forall goal: string | multiset(goal) == multiset(Drawn(drawn)) ensures Reachable(drawn, goal) {
        OneArrangement(drawn, goal);
      }
    }
  }

  lemma OneArrangement(drawn: seq<Uint32>, goal: string)
    requires |drawn| <= 1 && multiset(goal) == multiset(Drawn(drawn))
    ensures Reachable(drawn, goal)
  {
    var s := Drawn(drawn);
    assert |goal| == |multiset(goal)| == |multiset(s)| == |s|;
    if |s| == 1 {
      assert s[0] in multiset(goal);
      assert s == [s[0]] && goal == [goal[0]];
    }
    assert Generated(drawn) == s == goal;
  }

  /** In a password of four characters, a drawn `$` stays in last place. */
  lemma DollarStays(buf: seq<Uint32>)
    requires |buf| == 4 && Drawn(buf)[3] == '$'
    ensures Generated(buf)[3] == '$'
  {
    DollarIsFourth(buf[3] % 8);
    PoolSize(3);
    assert buf[3] % 8 == 3 ==> buf[3] % 4 == 3;
  }

  lemma DollarIsFourth(c: nat)
    requires c < 8 && SYMBOLS[c] == '$'
    ensures c == 3
  {
  }

  /** Fewer than four positions leave a class out. */
  lemma ShortLacksClass(buf: seq<Uint32>)
    requires |buf| < 4
    ensures !HasAllClasses(Generated(buf))
  {
    GeneratedIsStrong(buf);
  }
}
