/** When a number with two given remainders exists, and which is the least. */
module Residues {

  function Gcd(a: nat, b: nat): (g: nat)
    requires a > 0 || b > 0
    ensures g > 0
    decreases b
  {
    if b == 0 then a else Gcd(b, a % b)
  }

  lemma DivMod(a: nat, b: nat)
    requires b > 0
    ensures a == b * (a / b) + a % b
  {
  }

  /** The greatest common divisor divides both numbers. */
  lemma {:induction false} GcdDivides(a: nat, b: nat) returns (p: nat, q: nat)
    requires a > 0 || b > 0
    ensures a == Gcd(a, b) * p && b == Gcd(a, b) * q
    decreases b
  {
    var g := Gcd(a, b);
    if b == 0 {
      p, q := 1, 0;
    } else {
      var m, r := GcdDivides(b, a % b);
      DivMod(a, b);
      p, q := m * (a / b) + r, m;
      Distribute(g, m, a / b, r);
    }
  }

  lemma GcdWithOne(a: nat)
    ensures Gcd(a, 1) == 1
  {
    assert a % 1 == 0;
  }

  lemma Distribute(g: int, m: int, k: int, r: int)
    ensures g * (m * k + r) == (g * m) * k + g * r
  {
  }

  /** It is a sum of multiples of the two numbers. */
  lemma {:induction false} Bezout(a: nat, b: nat) returns (u: int, v: int)
    requires a > 0 || b > 0
    ensures a * u + b * v == Gcd(a, b)
    decreases b
  {
    if b == 0 {
      u, v := 1, 0;
    } else {
      var s, t := Bezout(b, a % b);
      DivMod(a, b);
      u, v := t, s - (a / b) * t;
      Combine(a, b, a / b, a % b, s, t);
    }
  }

  lemma Combine(a: int, b: int, q: int, r: int, s: int, t: int)
    requires a == b * q + r
    ensures a * t + b * (s - q * t) == b * s + r * t
  {
    assert a * t == (b * q + r) * t == b * q * t + r * t;
    assert b * (s - q * t) == b * s - b * q * t;
  }

  // ---- remainders

  lemma SmallMultiple(p: int, t: int)
    requires p > 0 && -p < p * t < p
    ensures t == 0
  {
    assert t >= 1 ==> p * t >= p;
    assert t <= -1 ==> p * t <= -p;
  }

  /** A number with a given remainder, and no other, is the remainder plus a multiple. */
  lemma RemainderIs(x: int, p: nat, c: nat, k: int)
    requires c < p && x == c + p * k
    ensures x % p == c
  {
    var q: int, r: int := x / p, x % p;
    assert x == p * q + r;
    assert p * (q - k) == c - r;
    SmallMultiple(p, q - k);
  }

  lemma RemaindersAgree(c: int, j: int, g: nat, m: int)
    requires g > 0 && j == c + g * m
    ensures c % g == j % g
  {
    var q: int, r: int := c / g, c % g;
    assert c == r + g * q;
    assert j == r + g * (q + m);
    RemainderIs(j, g, r, q + m);
  }

  lemma AgreeingDiffer(c: int, j: int, g: nat) returns (m: int)
    requires g > 0 && c % g == j % g
    ensures j == c + g * m
  {
    m := j / g - c / g;
    assert g * m == g * (j / g) - g * (c / g);
  }

  /** `x` has remainder `c` modulo `p` and `j` modulo `n`. */
  predicate Meets(x: int, p: nat, n: nat, c: nat, j: nat)
    requires p > 0 && n > 0
  {
    x % p == c && x % n == j
  }

  lemma Factored(g: int, a: int, k: int)
    ensures (g * a) * k == g * (a * k)
  {
  }

  /** Remainders that one number has agree modulo the greatest common divisor. */
  lemma MeetingAgrees(x: int, p: nat, n: nat, c: nat, j: nat)
    requires p > 0 && n > 0 && Meets(x, p, n, c, j)
    ensures c % Gcd(p, n) == j % Gcd(p, n)
  {
    var a, b := GcdDivides(p, n);
    MeetingAgreesAt(x, p, n, c, j, Gcd(p, n), a, b);
  }

  lemma MeetingAgreesAt(x: int, p: nat, n: nat, c: nat, j: nat, g: nat, a: nat, b: nat)
    requires p > 0 && n > 0 && g > 0 && p == g * a && n == g * b && Meets(x, p, n, c, j)
    ensures c % g == j % g
  {
    var k: int, l: int := x / p, x / n;
    assert x == p * k + c && x == n * l + j;
    assert c + p * k == j + n * l;
    Factored(g, a, k);
    Factored(g, b, l);
    assert g * (a * k - b * l) == g * (a * k) - g * (b * l);
    RemaindersAgree(c, j, g, a * k - b * l);
  }

  /** Agreeing remainders are met by some integer. */
  lemma SomeMeets(p: nat, n: nat, c: nat, j: nat) returns (x: int)
    requires c < p && j < n && c % Gcd(p, n) == j % Gcd(p, n)
    ensures Meets(x, p, n, c, j)
  {
    var u, v := Bezout(p, n);
    var m := AgreeingDiffer(c, j, Gcd(p, n));
    x := c + p * (u * m);
    RemainderIs(x, p, c, u * m);
    Rearranged(p, n, u, v, m);
    assert x == j + n * (-(v * m));
    RemainderIs(x, n, j, -(v * m));
  }

  lemma Rearranged(p: int, n: int, u: int, v: int, m: int)
    ensures p * (u * m) - (p * u + n * v) * m == n * (-(v * m))
  {
    assert (p * u + n * v) * m == p * (u * m) + n * (v * m);
  }

  /** Two numbers that meet the same remainders differ by a multiple of `p * n / gcd`. */
  lemma MeetingsDiffer(x: int, y: int, p: nat, n: nat, c: nat, j: nat, b: nat) returns (w: int)
    requires p > 0 && n > 0 && n == Gcd(p, n) * b && Meets(x, p, n, c, j) && Meets(y, p, n, c, j)
    ensures y - x == (p * b) * w
  {
    var g := Gcd(p, n);
    var u, v := Bezout(p, n);
    var s, t := y / p - x / p, y / n - x / n;
    assert y - x == p * s && y - x == n * t;
    w := u * t + v * s;
    Spread(g, p, n, u, v, s, t, b, y - x);
  }

  lemma Spread(g: nat, p: int, n: int, u: int, v: int, s: int, t: int, b: int, d: int)
    requires g > 0 && p * u + n * v == g && d == p * s && d == n * t && n == g * b
    ensures d == (p * b) * (u * t + v * s)
  {
    assert g * d == (p * u) * (n * t) + (n * v) * (p * s) by {
      assert (p * u + n * v) * d == (p * u) * d + (n * v) * d;
    }
    assert (p * u) * (n * t) + (n * v) * (p * s) == (p * n) * (u * t + v * s) by { Shuffled(p, n, u, v, s, t); }
    assert (p * n) * (u * t + v * s) == g * ((p * b) * (u * t + v * s)) by { Regroup(g, p, b, u * t + v * s); }
    Cancel(g, d, (p * b) * (u * t + v * s));
  }

  lemma Shuffled(p: int, n: int, u: int, v: int, s: int, t: int)
    ensures (p * u) * (n * t) + (n * v) * (p * s) == (p * n) * (u * t + v * s)
  {
    assert (p * u) * (n * t) == (p * n) * (u * t);
    assert (n * v) * (p * s) == (p * n) * (v * s);
  }

  lemma Regroup(g: int, p: int, b: int, w: int)
    ensures (p * (g * b)) * w == g * ((p * b) * w)
  {
    assert p * (g * b) == g * (p * b);
  }

  lemma Cancel(g: nat, a: int, b: int)
    requires g > 0 && g * a == g * b
    ensures a == b
  {
    assert g * (a - b) == 0;
    SmallMultiple(g, a - b);
  }

  /** The least number with the two remainders; it is below `p * n`. */
  lemma LeastMeets(p: nat, n: nat, c: nat, j: nat) returns (x: nat)
    requires c < p && j < n && c % Gcd(p, n) == j % Gcd(p, n)
    ensures Meets(x, p, n, c, j) && x < p * n
    ensures forall y: nat :: Meets(y, p, n, c, j) ==> x <= y
  {
    var a, b := GcdDivides(p, n);
    var z := SomeMeets(p, n, c, j);
    assert b > 0;
    var q := Reduced(z, p * b);
    x := z - (p * b) * q;
    StillMeets(z, p, n, c, j, Gcd(p, n), a, b, q);
    assert p * b <= p * n by { BelowProduct(p, n, b, Gcd(p, n)); }
    forall y: nat | Meets(y, p, n, c, j) ensures x <= y {
      var w := MeetingsDiffer(x, y, p, n, c, j, b);
      if y < x { NoSmaller(p * b, w, y - x); }
    }
  }

  lemma NoSmaller(d: int, w: int, e: int)
    requires d > 0 && -d < e < 0
    ensures e != d * w
  {
    if e == d * w { SmallMultiple(d, w); }
  }

  lemma Reduced(z: int, d: nat) returns (q: int)
    requires d > 0
    ensures 0 <= z - d * q < d
  {
    q := z / d;
  }

  lemma BelowProduct(p: nat, n: nat, b: nat, g: nat)
    requires g > 0 && n == g * b
    ensures p * b <= p * n
  {
    assert b <= n;
  }

  lemma SameProduct(p: int, n: int, g: int, a: int, b: int)
    requires p == g * a && n == g * b
    ensures p * b == n * a
  {
    assert (g * a) * b == (g * b) * a;
  }

  lemma LessMultiple(z: int, p: nat, c: nat, k: int, b: nat, q: int)
    requires c < p && z == c + p * k
    ensures (z - (p * b) * q) % p == c
  {
    assert (p * b) * q == p * (b * q);
    assert p * (k - b * q) == p * k - p * (b * q);
    RemainderIs(z - (p * b) * q, p, c, k - b * q);
  }

  lemma StillMeets(z: int, p: nat, n: nat, c: nat, j: nat, g: nat, a: nat, b: nat, q: int)
    requires c < p && j < n && p == g * a && n == g * b && Meets(z, p, n, c, j)
    ensures Meets(z - (p * b) * q, p, n, c, j)
  {
    var k: int, l: int := z / p, z / n;
    assert z == c + p * k && z == j + n * l;
    LessMultiple(z, p, c, k, b, q);
    SameProduct(p, n, g, a, b);
    LessMultiple(z, n, j, l, a, q);
  }

  /** The least number with the two remainders. */
  ghost function Least(p: nat, n: nat, c: nat, j: nat): (x: nat)
    requires c < p && j < n && c % Gcd(p, n) == j % Gcd(p, n)
    ensures Meets(x, p, n, c, j) && x < p * n
    ensures forall y: nat :: Meets(y, p, n, c, j) ==> x <= y
  {
    assert exists x: nat :: Meets(x, p, n, c, j) && x < p * n && forall y: nat :: Meets(y, p, n, c, j) ==> x <= y by {
      var x := LeastMeets(p, n, c, j);
    }
    var x: nat :| Meets(x, p, n, c, j) && x < p * n && forall y: nat :: Meets(y, p, n, c, j) ==> x <= y;
    x
  }

  /** A number below a limit has both remainders exactly when they agree and the least such number is below it. */
  lemma MeetBelowIff(p: nat, n: nat, c: nat, j: nat, limit: nat)
    requires c < p && j < n
    ensures (exists x :: 0 <= x < limit && Meets(x, p, n, c, j))
       <==> c % Gcd(p, n) == j % Gcd(p, n) && Least(p, n, c, j) < limit
  {
    if x :| 0 <= x < limit && Meets(x, p, n, c, j) { MeetingAgrees(x, p, n, c, j); }
  }
}
