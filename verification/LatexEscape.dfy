/**
 `escapeLatex` (apps/web/src/lib/resumeLatex.ts:14-32): a chain of whole-string replacements.
 Backslashes are parked as a placeholder first, because later replacements insert backslashes.
 */
module LatexEscape {
  import JsText

  /** U+E000, of the private use area, frames the placeholder. */
  const MARK := '\U{E000}'
  const PLACEHOLDER := [MARK, 'B', 'S', MARK]
  const BACKSLASH_TEXT := "\\textbackslash{}"
  const STEPS: nat := 20

  /** The replacements in program order, each of one character by a text. */
  function Step(i: nat): (char, string)
    requires i < STEPS
  {
    if i == 0 then ('\U{2014}', "---")
    else if i == 1 then ('\U{2013}', "--")
    else if i == 2 then ('\U{2022}', " -- ")
    else if i == 3 then ('\U{2026}', "...")
    else if i == 4 then ('\U{201C}', "\"")
    else if i == 5 then ('\U{201D}', "\"")
    else if i == 6 then ('\U{2018}', "'")
    else if i == 7 then ('\U{2019}', "'")
    else if i == 8 then ('\\', PLACEHOLDER)
    else if i == 9 then ('{', "\\{")
    else if i == 10 then ('}', "\\}")
    else if i == 11 then ('$', "\\$")
    else if i == 12 then ('&', "\\&")
    else if i == 13 then ('%', "\\%")
    else if i == 14 then ('#', "\\#")
    else if i == 15 then ('_', "\\_")
    else if i == 16 then ('^', "\\textasciicircum{}")
    else if i == 17 then ('~', "\\textasciitilde{}")
    else if i == 18 then ('<', "\\textless{}")
    else ('>', "\\textgreater{}")
  }

  /** The step that replaces a character, or -1. */
  function Rank(c: char): (r: int)
    ensures -1 <= r < STEPS
  {
    if c == '\U{2014}' then 0 else if c == '\U{2013}' then 1 else if c == '\U{2022}' then 2
    else if c == '\U{2026}' then 3 else if c == '\U{201C}' then 4 else if c == '\U{201D}' then 5
    else if c == '\U{2018}' then 6 else if c == '\U{2019}' then 7 else if c == '\\' then 8
    else if c == '{' then 9 else if c == '}' then 10 else if c == '$' then 11 else if c == '&' then 12
    else if c == '%' then 13 else if c == '#' then 14 else if c == '_' then 15 else if c == '^' then 16
    else if c == '~' then 17 else if c == '<' then 18 else if c == '>' then 19 else -1
  }

  /** `s.replace(/c/g, text)`. */
  function ReplaceChar(s: string, c: char, text: string): string {
    if s == "" then ""
    else (if s[0] == c then text else [s[0]]) + ReplaceChar(s[1..], c, text)
  }

  function ApplySteps(s: string, i: nat): string
    requires i <= STEPS
    decreases STEPS - i
  {
    if i == STEPS then s else ApplySteps(ReplaceChar(s, Step(i).0, Step(i).1), i + 1)
  }

  /** `s.replace(/pattern/g, text)`: leftmost matches, without overlap. */
  function ReplaceAll(s: string, pattern: string, text: string): string
    requires pattern != ""
  {
    if s == "" then ""
    else if pattern <= s then text + ReplaceAll(s[|pattern|..], pattern, text)
    else [s[0]] + ReplaceAll(s[1..], pattern, text)
  }

  function EscapeLatex(s: string): string {
    ReplaceAll(ApplySteps(s, 0), PLACEHOLDER, BACKSLASH_TEXT)
  }

  // ---- the specification: one character at a time

  /** What steps `i` and later make of one character. */
  function CodeFrom(c: char, i: nat): string {
    if Rank(c) >= i then Step(Rank(c)).1 else [c]
  }

  function SubstFrom(s: string, i: nat): string {
    if s == "" then "" else CodeFrom(s[0], i) + SubstFrom(s[1..], i)
  }

  /** The LaTeX text for one character. */
  function EscapeChar(c: char): string {
    if c == '\\' then BACKSLASH_TEXT else CodeFrom(c, 0)
  }

  /** `code` put in place of each character. */
  function MapText(s: string, code: char -> string): string {
    if s == "" then "" else code(s[0]) + MapText(s[1..], code)
  }

  function EscapeEach(s: string): string {
    MapText(s, EscapeChar)
  }

  // ---- the chain before the placeholder is resolved

  lemma StepFacts(i: nat)
    requires i < STEPS
    ensures Rank(Step(i).0) == i
    ensures forall x :: x in Step(i).1 ==> Rank(x) <= i
  {
    StepRank(i);
    if i == 8 {
      assert forall x :: x in PLACEHOLDER ==> x == MARK || x == 'B' || x == 'S';
    } else {
      StepCode(i);
    }
  }

  lemma StepRank(i: nat)
    requires i < STEPS
    ensures Rank(Step(i).0) == i
  {
  }

  lemma StepCode(i: nat)
    requires i < STEPS && i != 8
    ensures forall x :: x in Step(i).1 ==> Rank(x) <= i
  {
    if i < 8 {
    } else if i < 12 {
    } else if i < 16 {
    }
  }

  lemma RankDetermines(c: char)
    requires Rank(c) >= 0
    ensures Step(Rank(c)).0 == c
  {
  }

  lemma {:induction false} SubstAppend(a: string, b: string, i: nat)
    ensures SubstFrom(a + b, i) == SubstFrom(a, i) + SubstFrom(b, i)
  {
    if a == "" {
      assert a + b == b;
    } else {
      SubstAppend(a[1..], b, i);
      JsText.Assoc(CodeFrom(a[0], i), SubstFrom(a[1..], i), SubstFrom(b, i));
      assert (a + b)[1..] == a[1..] + b;
    }
  }

  lemma {:induction false} SubstDone(s: string, i: nat)
    requires forall x :: x in s ==> Rank(x) < i
    ensures SubstFrom(s, i) == s
  {
    if s != "" {
      SubstDone(s[1..], i);
      assert CodeFrom(s[0], i) == [s[0]] && s == [s[0]] + s[1..];
    }
  }

  lemma {:induction false} StepIntoSubst(s: string, i: nat)
    requires i < STEPS
    ensures SubstFrom(ReplaceChar(s, Step(i).0, Step(i).1), i + 1) == SubstFrom(s, i)
  {
    if s != "" {
      StepIntoSubst(s[1..], i);
      StepFacts(i);
      var first := if s[0] == Step(i).0 then Step(i).1 else [s[0]];
      SubstAppend(first, ReplaceChar(s[1..], Step(i).0, Step(i).1), i + 1);
      if s[0] == Step(i).0 {
        SubstDone(first, i + 1);
      } else {
        if Rank(s[0]) >= 0 { RankDetermines(s[0]); }
        assert first[1..] == "";
        assert SubstFrom(first, i + 1) == CodeFrom(s[0], i + 1) + "";
      }
    }
  }

  lemma {:induction false} StepsAreSubst(s: string, i: nat)
    requires i <= STEPS
    ensures ApplySteps(s, i) == SubstFrom(s, i)
    decreases STEPS - i
  {
    if i == STEPS {
      SubstDone(s, i);
    } else {
      StepsAreSubst(ReplaceChar(s, Step(i).0, Step(i).1), i + 1);
      StepIntoSubst(s, i);
    }
  }

  // ---- resolving the placeholder

  /**
   The text begins with something that will look like a placeholder but is none: its first three
   characters are in the text itself, and a fourth, or a backslash's own placeholder, completes it.
   */
  predicate FakeAt(s: string) {
    |s| >= 4 && s[0] == MARK && s[1] == 'B' && s[2] == 'S' && (s[3] == MARK || s[3] == '\\')
  }

  predicate HasFake(s: string) {
    s != "" && (FakeAt(s) || HasFake(s[1..]))
  }

  lemma CodeStarts(c: char)
    ensures CodeFrom(c, 0) != ""
    ensures CodeFrom(c, 0)[0] == 'B' <==> c == 'B'
    ensures CodeFrom(c, 0)[0] == 'S' <==> c == 'S'
    ensures CodeFrom(c, 0)[0] == MARK <==> c == MARK || c == '\\'
    ensures c == 'B' || c == 'S' || c == MARK ==> CodeFrom(c, 0) == [c]
    ensures c != MARK && c != '\\' ==> MARK !in CodeFrom(c, 0)
  {
  }

  lemma ReplaceSkips(s: string)
    requires s != "" && s[0] != MARK
    ensures ReplaceAll(s, PLACEHOLDER, BACKSLASH_TEXT) == [s[0]] + ReplaceAll(s[1..], PLACEHOLDER, BACKSLASH_TEXT)
  {
  }

  lemma {:induction false} PassThrough(text: string, rest: string)
    requires MARK !in text
    ensures ReplaceAll(text + rest, PLACEHOLDER, BACKSLASH_TEXT) == text + ReplaceAll(rest, PLACEHOLDER, BACKSLASH_TEXT)
  {
    hide ReplaceAll;
    if text == "" {
      assert text + rest == rest;
    } else {
      PassThrough(text[1..], rest);
      assert (text + rest)[1..] == text[1..] + rest;
      ReplaceSkips(text + rest);
    }
  }

  lemma SubstHead(s: string)
    requires s != ""
    ensures SubstFrom(s, 0) == CodeFrom(s[0], 0) + SubstFrom(s[1..], 0)
  {
  }

  lemma SubstCons(s: string)
    requires s != "" && (s[0] == MARK || s[0] == 'B' || s[0] == 'S')
    ensures SubstFrom(s, 0) == [s[0]] + SubstFrom(s[1..], 0)
  {
    CodeStarts(s[0]);
  }

  lemma SubstStarts(s: string, c: char)
    requires c == 'B' || c == 'S'
    ensures SubstFrom(s, 0) != "" && SubstFrom(s, 0)[0] == c <==> s != "" && s[0] == c
  {
    if s != "" { CodeStarts(s[0]); }
  }

  lemma ThirdCharacter(s: string)
    ensures SubstFrom(s, 0) != "" && SubstFrom(s, 0)[0] == MARK <==> s != "" && (s[0] == MARK || s[0] == '\\')
  {
    if s != "" { CodeStarts(s[0]); }
  }

  lemma PlaceholderAhead(s: string)
    requires s != "" && s[0] == MARK
    ensures PLACEHOLDER <= SubstFrom(s, 0) <==> FakeAt(s)
  {
    hide SubstFrom, CodeFrom;
    var t, t1 := SubstFrom(s, 0), SubstFrom(s[1..], 0);
    SubstCons(s);
    SubstStarts(s[1..], 'B');
    if |s| >= 2 && s[1] == 'B' {
      var t2 := SubstFrom(s[2..], 0);
      SubstCons(s[1..]);
      assert s[1..][1..] == s[2..] && t == [MARK] + (['B'] + t2);
      SubstStarts(s[2..], 'S');
      if |s| >= 3 && s[2] == 'S' {
        var t3 := SubstFrom(s[3..], 0);
        SubstCons(s[2..]);
        assert s[2..][1..] == s[3..] && t == [MARK] + (['B'] + (['S'] + t3));
        ThirdCharacter(s[3..]);
        assert t == [MARK, 'B', 'S'] + t3 && PLACEHOLDER[3] == MARK;
        if PLACEHOLDER <= t { assert t[3] == MARK; }
      } else {
        assert |t| >= 3 ==> t[2] == t2[0] && PLACEHOLDER[2] == 'S';
      }
    } else {
      assert |t| >= 2 ==> t[1] == t1[0] && PLACEHOLDER[1] == 'B';
    }
  }

  /** Where no fake placeholder starts, the chain replaces the first character. */
  lemma ChainAhead(s: string)
    requires s != "" && !FakeAt(s)
    ensures EscapeLatex(s) == EscapeChar(s[0]) + EscapeLatex(s[1..])
  {
    StepsAreSubst(s, 0);
    StepsAreSubst(s[1..], 0);
    var rest, t := SubstFrom(s[1..], 0), SubstFrom(s, 0);
    assert t == CodeFrom(s[0], 0) + rest;
    CodeStarts(s[0]);
    if s[0] == '\\' {
      assert t[4..] == rest;
    } else if s[0] == MARK {
      PlaceholderAhead(s);
      assert t[1..] == rest;
    } else {
      PassThrough(EscapeChar(s[0]), rest);
    }
  }

  lemma ChainAtFake(s: string)
    requires FakeAt(s)
    ensures EscapeLatex(s) != "" && EscapeLatex(s)[0] == '\\' && EscapeChar(s[0]) == [MARK]
  {
    StepsAreSubst(s, 0);
    PlaceholderAhead(s);
    CodeStarts(s[0]);
  }

  /**
   The chain is the one-character substitution exactly when the text has no fake placeholder. In
   particular it is for every text without U+E000.
   */
  lemma {:induction false} ChainIsPerCharacter(s: string)
    ensures EscapeLatex(s) == EscapeEach(s) <==> !HasFake(s)
  {
    if s == "" {
      StepsAreSubst(s, 0);
    } else {
      hide EscapeLatex, EscapeChar, FakeAt;
      ChainIsPerCharacter(s[1..]);
      if FakeAt(s) {
        ChainAtFake(s);
      } else {
        ChainAhead(s);
        SamePrefix(EscapeChar(s[0]), EscapeLatex(s[1..]), EscapeEach(s[1..]));
      }
    }
  }

  /** A text that is itself a placeholder is taken for a backslash. */
  lemma PlaceholderInText()
    ensures HasFake(PLACEHOLDER) && EscapeLatex(PLACEHOLDER) != EscapeEach(PLACEHOLDER)
  {
    ChainIsPerCharacter(PLACEHOLDER);
  }

  lemma SamePrefix(p: string, a: string, b: string)
    ensures p + a == p + b <==> a == b
  {
    assert (p + a)[|p|..] == a && (p + b)[|p|..] == b;
  }

  lemma {:induction false} NoMarkNoFake(s: string)
    requires MARK !in s
    ensures !HasFake(s)
  {
    if s != "" { NoMarkNoFake(s[1..]); }
  }

  lemma {:induction false} MapTextAppend(a: string, b: string, code: char -> string)
    ensures MapText(a + b, code) == MapText(a, code) + MapText(b, code)
  {
    if a == "" {
      assert a + b == b;
    } else {
      MapTextAppend(a[1..], b, code);
      JsText.Assoc(code(a[0]), MapText(a[1..], code), MapText(b, code));
      assert (a + b)[1..] == a[1..] + b;
    }
  }

  /** Escaping pieces and joining them is escaping the whole. */
  lemma EscapeDistributes(a: string, b: string)
    requires MARK !in a && MARK !in b
    ensures EscapeLatex(a + b) == EscapeLatex(a) + EscapeLatex(b)
  {
    NoMarkNoFake(a);
    NoMarkNoFake(b);
    NoMarkNoFake(a + b);
    ChainIsPerCharacter(a);
    ChainIsPerCharacter(b);
    ChainIsPerCharacter(a + b);
    MapTextAppend(a, b, EscapeChar);
  }

  // ---- reading the text back

  function Unescape(t: string): string {
    if t == "" then ""
    else if t[0] != '\\' then [t[0]] + Unescape(t[1..])
    else if BACKSLASH_TEXT <= t then "\\" + Unescape(t[|BACKSLASH_TEXT|..])
    else if "\\textasciicircum{}" <= t then "^" + Unescape(t[18..])
    else if "\\textasciitilde{}" <= t then "~" + Unescape(t[17..])
    else if "\\textless{}" <= t then "<" + Unescape(t[11..])
    else if "\\textgreater{}" <= t then ">" + Unescape(t[14..])
    else if |t| >= 2 then [t[1]] + Unescape(t[2..])
    else t
  }

  lemma UnescapePlain(c: char, rest: string)
    requires c != '\\' && Rank(c) == -1
    ensures Unescape(EscapeChar(c) + rest) == [c] + Unescape(rest)
  {
    assert EscapeChar(c) == [c];
    assert ([c] + rest)[1..] == rest;
  }

  lemma UnescapeSymbol(c: char, rest: string)
    requires 9 <= Rank(c) <= 15
    ensures Unescape(EscapeChar(c) + rest) == [c] + Unescape(rest)
  {
    var t := ['\\', c] + rest;
    assert EscapeChar(c) == ['\\', c] by { RankDetermines(c); }
    assert t[2..] == rest && t[1] == c && c != 't';
    assert BACKSLASH_TEXT[1] == 't';
  }

  lemma UnescapeWord(c: char, rest: string)
    requires c == '\\' || 16 <= Rank(c)
    ensures Unescape(EscapeChar(c) + rest) == [c] + Unescape(rest)
  {
    var word := EscapeChar(c);
    var t := word + rest;
    assert t[|word|..] == rest;
    assert word <= t;
    assert t[5] == word[5] && t[9] == word[9] && t[10] == word[10];
    if c == '\\' {
    } else {
      assert word[5] != 'b';
      assert !(BACKSLASH_TEXT <= t) by { assert BACKSLASH_TEXT[5] == 'b'; }
      if c == '~' {
        assert !("\\textasciicircum{}" <= t) by { assert "\\textasciicircum{}"[10] == 'c' && t[10] == 't'; }
      }
    }
  }

  lemma UnescapeOne(c: char, rest: string)
    requires c != MARK && !(0 <= Rank(c) < 8)
    ensures Unescape(EscapeChar(c) + rest) == [c] + Unescape(rest)
  {
    if c == '\\' || 16 <= Rank(c) {
      UnescapeWord(c, rest);
    } else if Rank(c) == -1 {
      UnescapePlain(c, rest);
    } else {
      UnescapeSymbol(c, rest);
    }
  }

  /** Dashes, bullets, ellipses and curly quotes as they are typed on a keyboard; other characters as they are. */
  function Typed(c: char): string {
    match c
    case '\U{2013}' => "--"
    case '\U{2014}' => "---"
    case '\U{2018}' => "'"
    case '\U{2019}' => "'"
    case '\U{201C}' => "\""
    case '\U{201D}' => "\""
    case '\U{2022}' => " -- "
    case '\U{2026}' => "..."
    case _ => [c]
  }

  lemma UnescapeStep(t: string)
    requires t != "" && t[0] != '\\'
    ensures Unescape(t) == [t[0]] + Unescape(t[1..])
  {
  }

  lemma {:induction false} UnescapeText(t: string, rest: string)
    requires '\\' !in t
    ensures Unescape(t + rest) == t + Unescape(rest)
  {
    hide Unescape;
    if t == "" {
      assert t + rest == rest;
    } else {
      assert t[0] in t && forall c :: c in t[1..] ==> c in t;
      UnescapeText(t[1..], rest);
      assert (t + rest)[1..] == t[1..] + rest;
      UnescapeStep(t + rest);
      assert t == [t[0]] + t[1..];
    }
  }

  lemma TypedOne(c: char)
    ensures if 0 <= Rank(c) < 8 then EscapeChar(c) == Typed(c) && '\\' !in Typed(c) else Typed(c) == [c]
    ensures EscapeChar(MARK) == Typed(MARK) == [MARK]
  {
  }

  lemma UnescapeTyped(c: char, rest: string)
    ensures Unescape(EscapeChar(c) + rest) == Typed(c) + Unescape(rest)
  {
    hide EscapeChar, Unescape, Typed, Rank;
    TypedOne(c);
    if c == MARK || 0 <= Rank(c) < 8 {
      UnescapeText(Typed(c), rest);
    } else {
      UnescapeOne(c, rest);
    }
  }

  lemma {:induction false} UnescapeEachTyped(s: string)
    ensures Unescape(EscapeEach(s)) == MapText(s, Typed)
  {
    hide Unescape, Typed, EscapeChar;
    if s == "" {
      UnescapeNothing();
    } else {
      UnescapeEachTyped(s[1..]);
      UnescapeTyped(s[0], EscapeEach(s[1..]));
    }
  }

  lemma UnescapeNothing()
    ensures Unescape("") == ""
  {
  }

  /** Of a text without fake placeholders the decoder gives what a keyboard types: only typography is lost. */
  lemma EscapeReadsBack(s: string)
    requires !HasFake(s)
    ensures Unescape(EscapeLatex(s)) == MapText(s, Typed)
  {
    hide Unescape, EscapeLatex, EscapeEach;
    ChainIsPerCharacter(s);
    UnescapeEachTyped(s);
  }

  lemma {:induction false} TypedAsIs(s: string)
    ensures |MapText(s, Typed)| >= |s|
    ensures MapText(s, Typed) == s <==> forall i :: 0 <= i < |s| ==> Typed(s[i]) == [s[i]]
  {
    hide Typed;
    if s != "" {
      TypedAsIs(s[1..]);
      TypedSize(s[0]);
      var rest := MapText(s[1..], Typed);
      assert s == [s[0]] + s[1..] && MapText(s, Typed) == Typed(s[0]) + rest;
      if MapText(s, Typed) == s {
        assert |Typed(s[0])| == 1 && |rest| == |s| - 1;
        assert Typed(s[0]) == s[..1] && rest == s[1..];
      }
      assert forall i :: 1 <= i < |s| ==> s[i] == s[1..][i - 1];
    }
  }

  lemma TypedSize(c: char)
    ensures |Typed(c)| >= 1
  {
  }

  /** The text itself comes back exactly when a keyboard types all its characters. */
  lemma EscapeRoundTrip(s: string)
    requires !HasFake(s)
    ensures Unescape(EscapeLatex(s)) == s <==> forall i :: 0 <= i < |s| ==> Typed(s[i]) == [s[i]]
  {
    hide Unescape, EscapeLatex, Typed;
    EscapeReadsBack(s);
    TypedAsIs(s);
  }
}
