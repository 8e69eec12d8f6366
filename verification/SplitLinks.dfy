/**
 When a certificate's link breaks the nesting of the source-split document
 (apps/web/src/lib/resumeLatex.ts:42-44, 245-262). Only `%` and `#` are escaped in link targets, so a
 brace or a backslash in one reaches the document.
 */
module SplitLinks {
  import opened JsText
  import opened LatexEscape
  import opened LatexNesting
  import opened LatexText
  import opened LatexLines
  import opened LatexBlocks
  import opened LatexDocuments
  import opened TemplateParts
  import opened SplitTemplate

  const VERIFY := "{\\underline{Verify}}" + " \\\\"

  lemma VerifyNeutral()
    ensures Neutral(VERIFY)
  {
    hide Neutral;
    PlainNeutral("Verify");
    Underline("Verify");
    assert "\\underline{" + "Verify" + "}" == "\\underline{Verify}";
    GroupNeutral("\\underline{Verify}");
    assert "{" + "\\underline{Verify}" + "}" == "{\\underline{Verify}}";
    Break();
    NeutralAppend("{\\underline{Verify}}", " \\\\");
  }

  lemma VerifyIsOneLine()
    ensures '\n' !in VERIFY
  {
  }

  /** What a certificate's line holds before its link. */
  function BeforeLink(name: string, issuer: string, date: string): string {
    "\\textbf{" + name + "}" + (if issuer != "" then " --- " + issuer else "")
    + " \\hfill {\\small \\textit{" + date + "}} " + " \\; "
  }

  lemma BeforeLinkNeutral(name: string, issuer: string, date: string)
    requires Neutral(name) && Neutral(issuer) && Neutral(date)
    ensures Neutral(BeforeLink(name, issuer, date))
  {
    hide Neutral;
    PlainNeutral("");
    TextBf(name);
    DashedNeutral(issuer);
    var from := if issuer != "" then " --- " + issuer else "";
    HFill();
    SmallItalic(date);
    GapNeutral();
    Neutral5("\\textbf{" + name + "}", from, " \\hfill ", "{\\small \\textit{" + date + "}}", GAP);
    BeforeRegrouped("\\textbf{" + name + "}" + from, date);
  }

  const GAP := " " + " \\; "

  lemma GapNeutral()
    ensures Neutral(GAP)
  {
    hide Neutral;
    PlainNeutral(" ");
    PlainNeutral("");
    SkippedLink("");
    assert " \\; " + "" == " \\; ";
    NeutralAppend(" ", " \\; ");
  }

  lemma BeforeRegrouped(left: string, date: string)
    ensures left + " \\hfill " + ("{\\small \\textit{" + date + "}}") + GAP
         == left + " \\hfill {\\small \\textit{" + date + "}} " + " \\; "
  {
    assert " \\hfill " + ("{\\small \\textit{" + date + "}}") + GAP
        == " \\hfill {\\small \\textit{" + date + "}} " + " \\; ";
  }

  lemma LineSplits(name: string, issuer: string, date: string, url: string)
    requires Trim(url) != ""
    ensures CertificateLine(name, issuer, date, VerifyLink(url))
         == BeforeLink(name, issuer, date) + ("\\href{" + Target(url) + "}") + VERIFY
  {
    hide Trim, Target;
    var left := "\\textbf{" + name + "}" + (if issuer != "" then " --- " + issuer else "")
        + " \\hfill {\\small \\textit{" + date + "}} ";
    LinkCell(left, Target(url));
  }

  lemma LinkCell(left: string, target: string)
    ensures left + (" \\; " + ("\\href{" + target + "}{\\underline{Verify}}")) + " \\\\"
         == (left + " \\; ") + ("\\href{" + target + "}") + VERIFY
  {
    assert "\\href{" + target + "}{\\underline{Verify}}" == ("\\href{" + target + "}") + "{\\underline{Verify}}";
    Reassociate(left, " \\; ", "\\href{" + target + "}", "{\\underline{Verify}}", " \\\\");
  }

  lemma Reassociate(a: string, b: string, c: string, d: string, e: string)
    ensures a + (b + (c + d)) + e == (a + b) + c + (d + e)
  {
  }

  function LineOf(c: Certification): string {
    CertificateLine(EscapeLatex(Or(c.name, "Certification")), EscTrim(c.issuer), EscTrim(c.date), VerifyLink(c.url))
  }

  lemma BlankEndsGroup(url: string)
    requires Trim(url) == ""
    ensures GoodTarget(url)
  {
  }

  lemma BalancedKeeps(line: string)
    requires Balanced([line])
    ensures KeepsDocument(line)
  {
    EmitOne(line);
  }

  /** Whatever else it says, a certificate's line keeps the document iff its target ends its group. */
  lemma CertificateLineIff(c: Certification)
    ensures KeepsDocument(LineOf(c)) <==> EndsItsGroup(Target(c.url))
  {
    hide EscapeLatex, Or, Neutral, KeepsDocument, EndsItsGroup, CertificateLine, Target, Trim, GoodTarget, BeforeLink;
    var name, issuer, date := EscapeLatex(Or(c.name, "Certification")), EscTrim(c.issuer), EscTrim(c.date);
    EscapedNeutral(Or(c.name, "Certification"));
    EscapedNeutral(Trim(c.issuer));
    EscapedNeutral(Trim(c.date));
    if Trim(c.url) == "" {
      BlankEndsGroup(c.url);
      VerifyLinkNeutral(c.url);
      CertificateLineNeutral(name, issuer, date, VerifyLink(c.url));
      OneBalanced(LineOf(c));
      BalancedKeeps(LineOf(c));
      GoodEndsGroup(c.url);
    } else {
      BeforeLinkNeutral(name, issuer, date);
      VerifyNeutral();
      VerifyIsOneLine();
      LineSplits(name, issuer, date, c.url);
      LinkLineIff(BeforeLink(name, issuer, date), Target(c.url), VERIFY);
    }
  }

  // ---- the document around the line

  lemma {:induction false} EachAppend<T(!new)>(a: seq<T>, b: seq<T>, f: T -> seq<string>)
    ensures Each(a + b, f) == Each(a, f) + Each(b, f)
  {
    if b == [] {
      assert a + b == a;
    } else {
      EachAppend(a, b[..|b| - 1], f);
      assert (a + b)[..|a + b| - 1] == a + b[..|b| - 1];
      Assoc(Each(a, f), Each(b[..|b| - 1], f), f(b[|b| - 1]));
    }
  }

  /** All printed targets but that of the i-th certificate are good. */
  predicate GoodExcept(d: ResumeData, i: int) {
    && GoodInfo(d.info)
    && (forall j :: 0 <= j < |d.projects| ==> GoodTarget(d.projects[j].link))
    && (forall j :: 0 <= j < |d.certifications| && j != i ==> GoodTarget(d.certifications[j].url))
  }

  function Earlier(d: ResumeData): seq<string> { Top(d) + Experiences(d) + ProjectList(d) + Schools(d) }

  function Before(d: ResumeData, i: nat): seq<string>
    requires i < |d.certifications|
  {
    Earlier(d) + ([SectionLine("Certifications")] + Each(d.certifications[..i], CertificationLines))
  }

  function After(d: ResumeData, i: nat): seq<string>
    requires i < |d.certifications|
  {
    [SPACE_3] + Each(d.certifications[i + 1..], CertificationLines) + [""]
  }

  lemma EachSplit(l: seq<Certification>, c: Certification, r: seq<Certification>)
    ensures Each(l + [c] + r, CertificationLines)
         == Each(l, CertificationLines) + ([LineOf(c)] + [SPACE_3]) + Each(r, CertificationLines)
  {
    hide Each, CertificationLines, LineOf;
    EachAppend(l + [c], r, CertificationLines);
    EachAppend(l, [c], CertificationLines);
    EachOne(c);
  }

  lemma Insert(head: seq<string>, a: seq<string>, x: string, y: string, b: seq<string>, tail: seq<string>)
    ensures head + (a + ([x] + [y]) + b) + tail == head + a + [x] + ([y] + b + tail)
  {
  }

  lemma CertificatesSplit(d: ResumeData, i: nat)
    requires i < |d.certifications|
    ensures Certificates(d)
         == [SectionLine("Certifications")] + Each(d.certifications[..i], CertificationLines)
          + [LineOf(d.certifications[i])] + After(d, i)
  {
    hide LineOf, CertificationLines, Each, SectionLine;
    var l, c, r := d.certifications[..i], d.certifications[i], d.certifications[i + 1..];
    assert d.certifications == l + [c] + r;
    EachSplit(l, c, r);
    Insert([SectionLine("Certifications")], Each(l, CertificationLines), LineOf(c), SPACE_3,
        Each(r, CertificationLines), [""]);
  }

  lemma EachOne(c: Certification)
    ensures Each([c], CertificationLines) == [LineOf(c)] + [SPACE_3]
  {
    assert [c][..0] == [];
  }

  lemma BodySplits(d: ResumeData, i: nat)
    requires i < |d.certifications|
    ensures Body(d) == Before(d, i) + [LineOf(d.certifications[i])] + After(d, i)
  {
    hide Top, Experiences, ProjectList, Schools, Certificates, LineOf, After, SectionLine, Each;
    CertificatesSplit(d, i);
    Assoc(Top(d) + Experiences(d) + ProjectList(d), Schools(d), Certificates(d));
    var start := [SectionLine("Certifications")] + Each(d.certifications[..i], CertificationLines);
    Regroup4(Earlier(d), start, [LineOf(d.certifications[i])], After(d, i));
  }

  lemma Regroup4(a: seq<string>, b: seq<string>, c: seq<string>, d: seq<string>)
    ensures a + (b + c + d) == (a + b) + c + d
  {
  }

  lemma SomeBalanced(cs: seq<Certification>)
    requires forall j :: 0 <= j < |cs| ==> GoodTarget(cs[j].url)
    ensures Balanced(Each(cs, CertificationLines))
  {
    hide CertificationLines, Balanced, GoodTarget;
    forall c | c in cs ensures Balanced(CertificationLines(c)) { CertificationBalanced(c); }
    EachBalanced(cs, CertificationLines);
  }

  /** What comes before the certificates does not depend on them. */
  lemma EarlierBalanced(d: ResumeData, i: nat)
    requires GoodExcept(d, i)
    ensures Balanced(Earlier(d))
  {
    hide GoodTarget, GoodInfo, Balanced, Header, SummaryLines, SkillSection, SectionOf;
    var rest := d.(certifications := []);
    TopBalanced(rest);
    ExperiencesBalanced(rest);
    ProjectListBalanced(rest);
    SchoolsBalanced(rest);
    Balanced4(Top(rest), Experiences(rest), ProjectList(rest), Schools(rest));
  }

  lemma HeadingBalanced()
    ensures Balanced([SectionLine("Certifications")])
  {
    PlainNeutral("Certifications");
    Section("Certifications");
    OneBalanced(SectionLine("Certifications"));
  }

  lemma BeforeBalanced(d: ResumeData, i: nat)
    requires i < |d.certifications| && GoodExcept(d, i)
    ensures Balanced(Before(d, i))
  {
    hide GoodTarget, GoodInfo, Earlier, Balanced, SectionLine, Each;
    EarlierBalanced(d, i);
    SomeBalanced(d.certifications[..i]);
    HeadingBalanced();
    BalancedAppend([SectionLine("Certifications")], Each(d.certifications[..i], CertificationLines));
    BalancedAppend(Earlier(d), [SectionLine("Certifications")] + Each(d.certifications[..i], CertificationLines));
  }

  lemma AfterBalanced(d: ResumeData, i: nat)
    requires i < |d.certifications| && GoodExcept(d, i)
    ensures Balanced(After(d, i))
  {
    hide GoodTarget, GoodInfo, Balanced, Neutral, CertificationLines;
    SpacesNeutral();
    OneBalanced(SPACE_3);
    SomeBalanced(d.certifications[i + 1..]);
    NothingBalanced();
    Balanced3([SPACE_3], Each(d.certifications[i + 1..], CertificationLines), [""]);
  }

  /**
   With all other targets good, the finished text is well nested exactly when the one target, read
   inside the braces of its link, is ended by the brace behind it.
   */
  lemma OneTargetIff(d: ResumeData, i: nat)
    requires i < |d.certifications| && GoodExcept(d, i)
    ensures WellNested(Document(AllLines(d))) <==> EndsItsGroup(Target(d.certifications[i].url))
  {
    hide Body, Document, WellNested, PREAMBLE, LineOf, EndsItsGroup, KeepsDocument, Before, After, GoodExcept, Balanced;
    PreambleBalanced();
    BeforeBalanced(d, i);
    AfterBalanced(d, i);
    BodySplits(d, i);
    OneLineIff(PREAMBLE, Before(d, i), LineOf(d.certifications[i]), After(d, i));
    CertificateLineIff(d.certifications[i]);
  }

  /** A resume with a single certificate whose link is an opening brace. */
  function BracedResume(config: CustomConfig): ResumeData {
    ResumeData(PersonalInfo("", "", "", "", "", "", []), [], [], [], [], [Certification("C", "", "", "{")], config)
  }

  lemma BraceStaysOpen()
    ensures !EndsItsGroup(Target("{"))
  {
    assert Trim("{") == "{";
    assert Target("{") == "{";
    assert "{" + "}" == ['{', '}'] && ['{', '}'][1..] == ['}'] && ['}'][1..] == "";
    var r := Reader(Plain, IN_GROUP);
    assert Scan(['{', '}'], r) == Scan(['}'], Push(r, Brace));
    assert Scan(['}'], Push(r, Brace)) == Pop(Push(r, Brace), Brace);
    assert Pop(Push(r, Brace), Brace) == r;
  }

  /** The text that the template makes of it is not well nested. */
  lemma BracedLinkBreaks(config: CustomConfig)
    ensures !WellNested(Document(AllLines(BracedResume(config))))
  {
    hide WellNested, Document, AllLines, EndsItsGroup, Target, GoodTarget;
    var d := BracedResume(config);
    PlainUrlIsGood("");
    OneTargetIff(d, 0);
    BraceStaysOpen();
  }
}
