/** What the texts that the templates print are made of (apps/web/src/lib/resumeLatex.ts:34-117). */
module LatexMeaning {
  import opened JsText
  import opened TextLaws
  import opened LatexEscape
  import opened LatexText
  import opened LatexSkills

  // ---- fields and dates

  /** A field of white space counts as absent. */
  lemma OrIff(s: string, fallback: string)
    ensures Or(s, fallback) == if AllSpace(s) then fallback else Trim(s)
  {
    hide AllSpace, Trim;
    BlankIff(s);
  }

  /** "present" in any case is spelled "Present"; another date is escaped. */
  lemma DateIs(s: string)
    ensures AllSpace(s) ==> FmtDate(s) == ""
    ensures IsPresent(Trim(s)) ==> FmtDate(s) == "Present"
    ensures !AllSpace(s) && !IsPresent(Trim(s)) ==> FmtDate(s) == EscapeLatex(Trim(s))
  {
    hide AllSpace, Trim, EscapeLatex, Lower;
    BlankIff(s);
    LowerSameIff(Trim(s), "present");
    LowerPresent();
  }

  predicate IsPresent(t: string) { |t| == 7 && forall i :: 0 <= i < 7 ==> SameLetter(t[i], "present"[i]) }

  lemma LowerPresent()
    ensures Lower("present") == "present"
  {
  }

  /** Two dates are joined by a dash; a missing one leaves the other alone. */
  lemma RangeIs(from: string, to: string)
    ensures FmtDate(from) == "" ==> DateRange(from, to) == FmtDate(to)
    ensures FmtDate(to) == "" ==> DateRange(from, to) == FmtDate(from)
    ensures FmtDate(from) != "" && FmtDate(to) != "" ==> DateRange(from, to) == FmtDate(from) + " -- " + FmtDate(to)
  {
    hide FmtDate, NonEmptyAfter, Join;
    var x, y := FmtDate(from), FmtDate(to);
    KeptTwo(from, to, FmtDate);
    JoinUpToTwo(x, y, " -- ");
    assert x == "" ==> NonEmptyAfter([from, to], FmtDate) == if y == "" then [] else [y];
  }

  lemma KeptTwo(a: string, b: string, f: string -> string)
    ensures NonEmptyAfter([a, b], f) == (if f(a) == "" then [] else [f(a)]) + (if f(b) == "" then [] else [f(b)])
  {
    hide NonEmptyAfter;
    NonEmptyAfterCons(a, [b], f);
    NonEmptyAfterCons(b, [], f);
    NonEmptyAfterNone(f);
    assert [a] + [b] == [a, b] && [b] + [] == [b];
  }

  lemma JoinUpToTwo(a: string, b: string, sep: string)
    ensures Join([], sep) == "" && Join([a], sep) == a && Join([b], sep) == b
    ensures Join([a] + [b], sep) == a + sep + b
    ensures Join([a] + [], sep) == a && Join([] + [b], sep) == b
  {
    assert ([a] + [b])[1..] == [b] && [a] + [] == [a] && [] + [b] == [b];
  }

  // ---- bullets

  lemma {:induction false} ColonAt(before: string, after: string)
    requires ':' !in before
    ensures IndexOfChar(before + (":" + after), ':') == |before|
  {
    var s := before + (":" + after);
    assert s[|before|] == ':' && s[..|before|] == before;
  }

  /** The words of a bullet up to an early colon, the third to the eightieth character, are bold. */
  lemma BulletWithLabel(before: string, after: string)
    requires ':' !in before && 2 <= |before| < 80 && Trimmed(before + (":" + after))
    ensures FormatBullet(before + (":" + after))
         == Trim("\\textbf{" + EscapeLatex(before + ":") + "} " + EscapeLatex(Trim(after)))
  {
    hide EscapeLatex, Trim, IndexOfChar;
    var s := before + (":" + after);
    ColonAt(before, after);
    assert s[..|before| + 1] == before + ":" && s[|before| + 1..] == after;
    TrimmedStays(s);
  }

  lemma TrimmedStays(s: string)
    requires Trimmed(s)
    ensures Trim(s) == s
  {
  }

  /** A bullet without an early colon is escaped as it is. */
  lemma BulletWithoutLabel(raw: string)
    requires ':' !in Trim(raw) || IndexOfChar(Trim(raw), ':') <= 1 || IndexOfChar(Trim(raw), ':') >= 80
    ensures FormatBullet(raw) == EscapeLatex(Trim(raw))
  {
    hide Trim;
    EmptyStays();
  }

  // ---- the summary

  predicate OneSpaced(s: string) {
    && (forall i :: 0 <= i < |s| && IsSpace(s[i]) ==> s[i] == ' ')
    && (forall i :: 0 <= i < |s| - 1 ==> s[i] != ' ' || s[i + 1] != ' ')
  }

  /** The words of a text: what stands between white space. */
  function Words(s: string): seq<string> {
    if s == "" then []
    else if IsSpace(s[0]) then Words(s[1..])
    else if |s| == 1 || IsSpace(s[1]) then [[s[0]]] + Words(s[1..])
    else
      var rest := Words(s[1..]);
      if rest == [] then [] else [[s[0]] + rest[0]] + rest[1..]
  }

  lemma {:induction false} TrimStartWords(s: string)
    ensures Words(TrimStart(s)) == Words(s)
  {
    hide IsSpace;
    if s != "" && IsSpace(s[0]) { TrimStartWords(s[1..]); }
  }

  /** Collapsing white space leaves the words, and single blanks between them. */
  lemma {:induction false} CollapseWords(s: string)
    ensures Words(CollapseSpace(s)) == Words(s) && OneSpaced(CollapseSpace(s))
    ensures s != "" ==> CollapseSpace(s) != "" && CollapseSpace(s)[0] == if IsSpace(s[0]) then ' ' else s[0]
    decreases |s|
  {
    hide IsSpace;
    if s != "" {
      BlankIsSpace();
      if IsSpace(s[0]) {
        TrimStartWords(s[1..]);
        CollapseWords(TrimStart(s[1..]));
        AfterBlank(TrimStart(s[1..]), CollapseSpace(TrimStart(s[1..])));
      } else {
        CollapseWords(s[1..]);
        AfterLetter(s, CollapseSpace(s[1..]));
      }
    }
  }

  lemma BlankIsSpace()
    ensures IsSpace(' ')
  {
  }

  lemma AfterBlank(s: string, t: string)
    requires (s == "" || !IsSpace(s[0])) && OneSpaced(t) && IsSpace(' ')
    requires s == "" ==> t == ""
    requires s != "" ==> t != "" && t[0] == s[0]
    ensures OneSpaced(" " + t) && Words(" " + t) == Words(t)
  {
    hide IsSpace;
    var u := " " + t;
    assert u[1..] == t && u[0] == ' ';
    assert forall i :: 1 <= i < |u| ==> u[i] == t[i - 1];
  }

  lemma AfterLetter(s: string, t: string)
    requires s != "" && !IsSpace(s[0]) && OneSpaced(t) && IsSpace(' ') && Words(t) == Words(s[1..])
    requires s[1..] != "" ==> t != "" && t[0] == if IsSpace(s[1]) then ' ' else s[1]
    requires s[1..] == "" ==> t == ""
    ensures OneSpaced([s[0]] + t) && Words([s[0]] + t) == Words(s)
  {
    hide IsSpace;
    var u := [s[0]] + t;
    assert u[1..] == t && u[0] == s[0];
    assert forall i :: 1 <= i < |u| ==> u[i] == t[i - 1];
    assert |s| > 1 ==> s[1..][0] == s[1] && u[1] == t[0];
  }

  lemma BreakStarts(s: string)
    ensures "\n\n" <= s <==> |s| >= 2 && s[0] == '\n' && s[1] == '\n'
  {
    assert |"\n\n"| == 2 && "\n\n"[0] == '\n' && "\n\n"[1] == '\n';
    assert "\n\n" <= s ==> s[0] == "\n\n"[0] && s[1] == "\n\n"[1];
    assert |s| >= 2 && s[0] == '\n' && s[1] == '\n' ==> s[..2] == "\n\n";
  }

  lemma SplitStep(s: string)
    ensures s == "" ==> SplitText(s, "\n\n") == [""]
    ensures s != "" && "\n\n" <= s ==> SplitText(s, "\n\n") == [""] + SplitText(s[2..], "\n\n")
    ensures s != "" && !("\n\n" <= s) ==>
      var rest := SplitText(s[1..], "\n\n"); SplitText(s, "\n\n") == [[s[0]] + rest[0]] + rest[1..]
  {
  }

  /** A paragraph break after text that does not end in a newline divides the text in two. */
  lemma {:induction false} SplitAtBreak(a: string, b: string)
    requires a == "" || a[|a| - 1] != '\n'
    ensures SplitText(a + ("\n\n" + b), "\n\n") == SplitText(a, "\n\n") + SplitText(b, "\n\n")
    decreases |a|
  {
    hide SplitText;
    var sep := "\n\n";
    var s := a + (sep + b);
    SplitStep(s);
    SplitStep(a);
    BreakStarts(a);
    BreakStarts(s);
    if a == "" {
      assert s == sep + b && s[2..] == b && sep <= s;
    } else if sep <= a {
      assert a[2..] == "" || a[2..][|a| - 3] == a[|a| - 1];
      SplitAtBreak(a[2..], b);
      assert s[2..] == a[2..] + (sep + b);
      Assoc([""], SplitText(a[2..], sep), SplitText(b, sep));
    } else {
      assert a[1..] == "" || a[1..][|a| - 2] == a[|a| - 1];
      SplitAtBreak(a[1..], b);
      assert s[1..] == a[1..] + (sep + b) && s[0] == a[0];
      FirstPieces(a[0], SplitText(a[1..], sep), SplitText(b, sep));
    }
  }

  lemma FirstPieces(c: char, rest: seq<string>, more: seq<string>)
    requires rest != []
    ensures [[c] + (rest + more)[0]] + (rest + more)[1..] == ([[c] + rest[0]] + rest[1..]) + more
  {
    assert (rest + more)[0] == rest[0] && (rest + more)[1..] == rest[1..] + more;
  }

  /** The paragraphs of two texts with a break between them are those of the first and those of the second. */
  lemma ParagraphsOfBoth(a: string, b: string)
    requires '\r' !in a && '\r' !in b && (a == "" || a[|a| - 1] != '\n')
    ensures Paragraphs(a + ("\n\n" + b)) == Paragraphs(a) + Paragraphs(b)
  {
    hide SplitText, CollapseSpace, TrimmedNonEmpty, UnixLines;
    UnixAlready(a);
    UnixAlready(b);
    UnixAlready(a + ("\n\n" + b));
    SplitAtBreak(a, b);
    var p, q := SplitText(a, "\n\n"), SplitText(b, "\n\n");
    assert CollapseAll(p + q) == CollapseAll(p) + CollapseAll(q);
    TrimmedBoth(CollapseAll(p), CollapseAll(q));
  }

  lemma TrimmedBoth(a: seq<string>, b: seq<string>)
    ensures TrimmedNonEmpty(a + b) == TrimmedNonEmpty(a) + TrimmedNonEmpty(b)
  {
    NonEmptyAfterBoth(a, b, Trim);
  }

  /** A line break of two characters becomes one. */
  lemma {:induction false} UnixIs(a: string, b: string)
    requires '\r' !in a
    ensures UnixLines(a + ("\r\n" + b)) == a + ("\n" + UnixLines(b))
  {
    var s := a + ("\r\n" + b);
    if a == "" {
      assert s == "\r\n" + b && s[2..] == b && "\r\n" <= s;
    } else {
      assert "\r\n"[0] == '\r' && a[0] in a && forall c :: c in a[1..] ==> c in a;
      UnixIs(a[1..], b);
      assert s[1..] == a[1..] + ("\r\n" + b) && s[0] == a[0] && !("\r\n" <= s);
      assert a == [a[0]] + a[1..];
    }
  }

  lemma {:induction false} UnixAlready(s: string)
    requires '\r' !in s
    ensures UnixLines(s) == s
  {
    if s != "" {
      assert "\r\n"[0] == '\r' && s[0] in s && forall c :: c in s[1..] ==> c in s;
      UnixAlready(s[1..]);
      assert s == [s[0]] + s[1..];
    }
  }

  predicate NoBreak(s: string) { forall i :: 0 <= i < |s| - 1 && s[i] == '\n' ==> s[i + 1] != '\n' }

  lemma {:induction false} NoBreakIsOne(s: string)
    requires NoBreak(s)
    ensures SplitText(s, "\n\n") == [s]
  {
    hide SplitText;
    SplitStep(s);
    BreakStarts(s);
    if s != "" {
      assert NoBreak(s[1..]);
      NoBreakIsOne(s[1..]);
      assert s == [s[0]] + s[1..];
    }
  }

  /** A text without a paragraph break is one paragraph, if it is not white space. */
  lemma OneParagraph(s: string)
    requires '\r' !in s && NoBreak(s)
    ensures Paragraphs(s) == if Trim(CollapseSpace(s)) == "" then [] else [Trim(CollapseSpace(s))]
  {
    hide CollapseSpace, UnixLines, Trim, SplitText;
    UnixAlready(s);
    NoBreakIsOne(s);
    assert CollapseAll([s]) == [CollapseSpace(s)];
    NonEmptyAfterCons(CollapseSpace(s), [], Trim);
    NonEmptyAfterNone(Trim);
    assert [CollapseSpace(s)] + [] == [CollapseSpace(s)];
  }

  // ---- the table of skills

  /** An entry with a label names its row by the text before its colon; any other starts a row named "Other". */
  lemma HeadIs(name: string, val: string, bare: string)
    requires ':' !in name && name != "" && ':' !in bare
    ensures HeadRow(name + (":" + val)) == SkillRow(EscTrim(name), EscTrim(val))
    ensures HeadRow(bare) == SkillRow("Other", EscapeLatex(bare))
    ensures IsLabelled(name + (":" + val)) && !IsLabelled(bare) && !IsLabelled(":" + val)
  {
    hide EscapeLatex, Trim;
    ColonAt(name, val);
    var s := name + (":" + val);
    assert s[..|name|] == name && s[|name| + 1..] == val;
    ColonAt("", val);
    assert "" + (":" + val) == ":" + val;
    OtherStays();
  }

  lemma OtherStays()
    ensures EscapeLatex("Other") == "Other" && EscapeLatex("Skills") == "Skills"
  {
    hide EscapeLatex;
    PlainStays("Other");
    PlainStays("Skills");
  }

  predicate IsLetter(c: char) { 'a' <= c <= 'z' || 'A' <= c <= 'Z' }

  lemma {:induction false} PlainStays(s: string)
    requires forall i :: 0 <= i < |s| ==> IsLetter(s[i])
    ensures EscapeLatex(s) == s
  {
    hide EscapeLatex, EscapeChar;
    if s == "" {
      EmptyStays();
    } else {
      assert s[0] != MARK && !FakeAt(s) by { assert IsLetter(s[0]); }
      ChainAhead(s);
      PlainStays(s[1..]);
      LetterStays(s[0]);
      assert s == [s[0]] + s[1..];
    }
  }

  lemma EmptyStays()
    ensures EscapeLatex("") == ""
  {
    StepsAreSubst("", 0);
  }

  lemma LetterStays(c: char)
    requires IsLetter(c)
    ensures EscapeChar(c) == [c]
  {
  }

  /** Without labels all skills stand in one row named "Skills". */
  lemma FlatIs(skills: seq<string>)
    requires skills != [] && forall i :: 0 <= i < |skills| ==> ':' !in skills[i]
    ensures SkillRows(skills) == [SkillRow("Skills", Join(NonEmptyAfter(skills, EscOfTrim), ", "))]
    ensures SkillRows([]) == []
  {
    hide EscapeLatex, NonEmptyAfter, EscOfTrim, Join;
    OtherStays();
  }
}
