/** What the string operations of JsText.dfy mean, said of the characters of their results. */
module TextLaws {
  import opened JsText

  /** The tab, the line ends, the blank, and the other spaces of Unicode that ECMA-262 (section 12.2) lists. */
  lemma SpaceIs(c: char)
    ensures IsSpace(c) <==> c in ['\t', '\n', '\U{000B}', '\U{000C}', '\r', ' ', '\U{00A0}', '\U{1680}', '\U{2000}',
      '\U{2001}', '\U{2002}', '\U{2003}', '\U{2004}', '\U{2005}', '\U{2006}', '\U{2007}', '\U{2008}', '\U{2009}',
      '\U{200A}', '\U{2028}', '\U{2029}', '\U{202F}', '\U{205F}', '\U{3000}', '\U{FEFF}']
  {
  }

  predicate AllSpace(s: string) { forall i :: 0 <= i < |s| ==> IsSpace(s[i]) }

  lemma SpaceBoth(a: string, b: string)
    requires AllSpace(a) && AllSpace(b)
    ensures AllSpace(a + b)
  {
  }

  lemma OneSpace(c: char)
    ensures AllSpace("") && (IsSpace(c) ==> AllSpace([c]))
  {
  }

  lemma TrimStartStep(s: string)
    ensures TrimStart(s) == if s != "" && IsSpace(s[0]) then TrimStart(s[1..]) else s
  {
  }

  lemma {:induction false} TrimStartCuts(s: string)
    ensures AllSpace(s[..|s| - |TrimStart(s)|])
  {
    hide IsSpace, AllSpace, TrimStart;
    TrimStartStep(s);
    if s != "" && IsSpace(s[0]) {
      TrimStartCuts(s[1..]);
      var cut := |s| - |TrimStart(s)|;
      assert s[..cut] == [s[0]] + s[1..][..cut - 1];
      OneSpace(s[0]);
      SpaceBoth([s[0]], s[1..][..cut - 1]);
    } else {
      OneSpace(' ');
      assert s[..0] == "";
    }
  }

  lemma {:induction false} TrimEndCuts(s: string)
    ensures AllSpace(s[|TrimEnd(s)|..])
  {
    if s != "" && IsSpace(s[|s| - 1]) {
      hide IsSpace;
      var front, last := s[..|s| - 1], s[|s| - 1];
      TrimEndCuts(front);
      assert s[|TrimEnd(s)|..] == front[|TrimEnd(front)|..] + [last];
      SpaceBoth(front[|TrimEnd(front)|..], [last]);
    }
  }

  /** Trimming cuts white space off both ends and nothing else. */
  lemma TrimCuts(s: string) returns (a: string, b: string)
    ensures s == a + Trim(s) + b && AllSpace(a) && AllSpace(b)
  {
    hide IsSpace, AllSpace, TrimStart, TrimEnd;
    var t := TrimStart(s);
    TrimStartCuts(s);
    TrimEndCuts(t);
    a, b := s[..|s| - |t|], t[|Trim(s)|..];
    assert t == Trim(s) + b && s == a + t;
    Assoc(a, Trim(s), b);
  }

  lemma BlankIff(s: string)
    ensures Trim(s) == "" <==> AllSpace(s)
  {
    var a, b := TrimCuts(s);
    var t := Trim(s);
    if t == "" {
      assert s == a + b;
    } else {
      assert s[|a|] == t[0] && !IsSpace(t[0]);
    }
  }

  lemma SplitHead(s: string, sep: char)
    requires s != ""
    ensures s[0] == sep ==> Split(s, sep) == [""] + Split(s[1..], sep)
    ensures s[0] != sep ==> Split(s, sep) == [[s[0]] + Split(s[1..], sep)[0]] + Split(s[1..], sep)[1..]
  {
  }

  /** Splitting a text splits both sides of a separator. */
  lemma {:induction false} SplitBoth(a: string, b: string, sep: char)
    ensures Split(a + [sep] + b, sep) == Split(a, sep) + Split(b, sep)
  {
    hide Split;
    var s := a + [sep] + b;
    SplitHead(s, sep);
    if a == "" {
      assert s[0] == sep && s[1..] == b;
      SplitNothing(sep);
    } else {
      SplitBoth(a[1..], b, sep);
      SplitHead(a, sep);
      assert s[0] == a[0] && s[1..] == a[1..] + [sep] + b;
    }
  }

  lemma SplitNothing(sep: char)
    ensures Split("", sep) == [""]
  {
  }

  lemma JoinFirst(p: string, rest: seq<string>, sep: string)
    requires rest != []
    ensures Join([p] + rest, sep) == p + sep + Join(rest, sep)
  {
    assert ([p] + rest)[1..] == rest;
  }

  lemma JoinLonger(c: char, p: string, rest: seq<string>, sep: string)
    ensures Join([[c] + p] + rest, sep) == [c] + Join([p] + rest, sep)
  {
    if rest != [] {
      JoinFirst([c] + p, rest, sep);
      JoinFirst(p, rest, sep);
      assert ([c] + p) + sep + Join(rest, sep) == [c] + (p + sep + Join(rest, sep));
    }
  }

  /** Joining what splitting has cut apart gives the text back. */
  lemma {:induction false} JoinSplit(s: string, sep: char)
    ensures Join(Split(s, sep), [sep]) == s
  {
    hide Split, Join;
    if s == "" {
      SplitNothing(sep);
      JoinOne("", [sep]);
    } else {
      JoinSplit(s[1..], sep);
      SplitHead(s, sep);
      var rest := Split(s[1..], sep);
      JoinFirst("", rest, [sep]);
      JoinLonger(s[0], rest[0], rest[1..], [sep]);
      assert rest == [rest[0]] + rest[1..];
      assert s == [s[0]] + s[1..];
      assert "" + [sep] + s[1..] == [sep] + s[1..];
    }
  }

  lemma JoinOne(p: string, sep: string)
    ensures Join([p], sep) == p
  {
  }

  lemma {:induction false} NonEmptyAfterBoth(a: seq<string>, b: seq<string>, f: string -> string)
    ensures NonEmptyAfter(a + b, f) == NonEmptyAfter(a, f) + NonEmptyAfter(b, f)
  {
    hide NonEmptyAfter;
    if a == [] {
      assert a + b == b;
      NonEmptyAfterNone(f);
    } else {
      NonEmptyAfterBoth(a[1..], b, f);
      NonEmptyAfterCons(a[0], a[1..], f);
      NonEmptyAfterCons(a[0], a[1..] + b, f);
      assert a == [a[0]] + a[1..] && a + b == [a[0]] + (a[1..] + b);
    }
  }

  lemma NonEmptyAfterNone(f: string -> string)
    ensures NonEmptyAfter([], f) == []
  {
  }

  /** One character of the other case, among the Latin letters A to Z, or the same character. */
  predicate SameLetter(c: char, d: char) {
    || c == d
    || ('A' <= c <= 'Z' && 'a' <= d <= 'z' && c - 'A' == d - 'a')
    || ('a' <= c <= 'z' && 'A' <= d <= 'Z' && c - 'a' == d - 'A')
  }

  /** Lower-casing makes two texts the same exactly when they differ in case at most. */
  lemma LowerSameIff(s: string, t: string)
    ensures Lower(s) == Lower(t) <==> |s| == |t| && forall i :: 0 <= i < |s| ==> SameLetter(s[i], t[i])
    ensures forall i :: 0 <= i < |s| ==> !('A' <= Lower(s)[i] <= 'Z')
  {
    if Lower(s) == Lower(t) {
      assert |s| == |Lower(s)| == |t|;
      forall i | 0 <= i < |s| ensures SameLetter(s[i], t[i]) { assert Lower(s)[i] == Lower(t)[i]; }
    }
    if |s| == |t| && forall i :: 0 <= i < |s| ==> SameLetter(s[i], t[i]) {
      assert Lower(s) == Lower(t);
    }
  }

  /** The texts agree up to position `k`, and there `a` ends or has the smaller character. */
  predicate LessAt(a: string, b: string, k: nat) {
    && k <= |a| && k < |b| && a[..k] == b[..k]
    && (k == |a| || a[k] < b[k])
  }

  /** Strings are compared at the first place where they differ; a proper prefix comes first. */
  lemma StringLessIff(a: string, b: string)
    ensures StringLess(a, b) <==> exists k :: LessAt(a, b, k)
  {
    if StringLess(a, b) {
      var k := FirstDifference(a, b);
      assert LessAt(a, b, k);
    }
    forall k | LessAt(a, b, k) ensures StringLess(a, b) { LessThere(a, b, k); }
  }

  lemma LessThere(a: string, b: string, k: nat)
    requires LessAt(a, b, k)
    ensures StringLess(a, b)
  {
    assert a == a[..k] + a[k..] && b == b[..k] + b[k..];
    StringLessSamePrefix(a[..k], a[k..], b[k..]);
  }

  lemma {:induction false} FirstDifference(a: string, b: string) returns (k: nat)
    requires StringLess(a, b)
    ensures LessAt(a, b, k)
  {
    if a == "" || a[0] != b[0] {
      k := 0;
    } else {
      k := FirstDifference(a[1..], b[1..]);
      assert a == [a[0]] + a[1..] && b == [b[0]] + b[1..];
      assert a[..k + 1] == [a[0]] + a[1..][..k] && b[..k + 1] == [b[0]] + b[1..][..k];
      k := k + 1;
    }
  }

  /** The number that decimal digits spell. */
  function Spells(s: string): nat
    requires forall c :: c in s ==> IsDigit(c)
  {
    if s == "" then 0 else 10 * Spells(s[..|s| - 1]) + DigitValue(s[|s| - 1])
  }

  lemma {:induction false} DecimalSpells(n: nat)
    ensures Spells(Decimal(n)) == n && (n > 0 ==> Decimal(n)[0] != '0')
  {
    var s := Decimal(n);
    if n >= 10 {
      DecimalSpells(n / 10);
      assert s[..|s| - 1] == Decimal(n / 10);
    } else {
      assert s[..|s| - 1] == "";
    }
  }
}
