/**
 The headings of the custom template's document (apps/web/src/lib/resumeLatex.ts:863-936): one for each
 section that is shown, in the user's order, and no other line looks like one.
 */
module CustomHeadings {
  import opened JsText
  import opened LatexEscape
  import opened LatexText
  import opened LatexSkills
  import opened LatexLines
  import opened TemplateParts
  import opened CustomTemplate
  import opened CustomContents

  predicate IsHeading(line: string) { "\\section{" <= line }

  /** The lines that look like headings, in order. */
  function Headings(lines: seq<string>): seq<string> {
    if lines == [] then []
    else (if IsHeading(lines[0]) then [lines[0]] else []) + Headings(lines[1..])
  }

  lemma {:induction false} HeadingsBoth(a: seq<string>, b: seq<string>)
    ensures Headings(a + b) == Headings(a) + Headings(b)
  {
    hide IsHeading;
    if a == [] {
      assert a + b == b;
    } else {
      HeadingsBoth(a[1..], b);
      assert (a + b)[1..] == a[1..] + b;
      Assoc(if IsHeading(a[0]) then [a[0]] else [], Headings(a[1..]), Headings(b));
    }
  }

  predicate NoHeading(lines: seq<string>) { forall i :: 0 <= i < |lines| ==> !IsHeading(lines[i]) }

  lemma {:induction false} NoHeadingNone(lines: seq<string>)
    requires NoHeading(lines)
    ensures Headings(lines) == []
  {
    hide IsHeading;
    if lines != [] {
      assert NoHeading(lines[1..]);
      NoHeadingNone(lines[1..]);
    }
  }

  lemma {:induction false} EachNoHeading<T(!new)>(items: seq<T>, f: T -> seq<string>)
    requires forall x :: x in items ==> NoHeading(f(x))
    ensures NoHeading(Each(items, f))
  {
    hide IsHeading;
    if items != [] { EachNoHeading(items[..|items| - 1], f); }
  }

  /** Not the start of a section command. */
  predicate Harmless(t: string) { t == "" || t[0] != '\\' || (|t| >= 2 && t[1] != 's') }

  lemma HarmlessLine(t: string, rest: string)
    requires Harmless(t) && t != ""
    ensures !IsHeading(t + rest) && !IsHeading(t) && Harmless(t + rest)
  {
    assert "\\section{"[0] == '\\' && "\\section{"[1] == 's';
    assert (t + rest)[0] == t[0] && (|t| >= 2 ==> (t + rest)[1] == t[1]);
  }

  lemma BlankLine()
    ensures !IsHeading("")
  {
  }

  // ---- escaped text

  lemma CharHarmless(c: char)
    ensures Harmless(EscapeChar(c)) && EscapeChar(c) != ""
  {
    if 9 <= Rank(c) < 16 {
      SymbolCode(c);
    } else if c == '\\' {
      assert BACKSLASH_TEXT[1] == 't';
    } else if Rank(c) >= 16 {
      WordCode(c);
    }
  }

  lemma SymbolCode(c: char)
    requires 9 <= Rank(c) < 16
    ensures EscapeChar(c) == ['\\', c] && c != 's'
  {
    RankDetermines(c);
  }

  lemma WordCode(c: char)
    requires Rank(c) >= 16
    ensures |EscapeChar(c)| >= 2 && EscapeChar(c)[1] == 't'
  {
  }

  /** No text can forge a heading. */
  lemma EscapedHarmless(s: string)
    ensures Harmless(EscapeLatex(s)) && (s != "" ==> EscapeLatex(s) != "")
  {
    hide EscapeChar, EscapeLatex, IsHeading;
    if s == "" {
      EscapedNone();
    } else if FakeAt(s) {
      ChainAtFakeText(s);
    } else {
      ChainAhead(s);
      CharHarmless(s[0]);
      HarmlessLine(EscapeChar(s[0]), EscapeLatex(s[1..]));
    }
  }

  lemma EscapedNone()
    ensures EscapeLatex("") == ""
  {
    StepsAreSubst("", 0);
  }

  lemma ChainAtFakeText(s: string)
    requires FakeAt(s)
    ensures Harmless(EscapeLatex(s)) && EscapeLatex(s) != ""
  {
    hide EscapeLatex, FakeAt;
    ChainStartsWithBackslash(s);
    HarmlessLine(BACKSLASH_TEXT, EscapeLatex(s)[|BACKSLASH_TEXT|..]);
    assert EscapeLatex(s) == BACKSLASH_TEXT + EscapeLatex(s)[|BACKSLASH_TEXT|..];
  }

  lemma ChainStartsWithBackslash(s: string)
    requires FakeAt(s)
    ensures BACKSLASH_TEXT <= EscapeLatex(s)
  {
    StepsAreSubst(s, 0);
    PlaceholderAhead(s);
  }

  lemma JoinHarmless(pieces: seq<string>, sep: string)
    requires (forall i :: 0 <= i < |pieces| ==> Harmless(pieces[i])) && sep != "" && sep[0] != '\\'
    ensures Harmless(Join(pieces, sep))
  {
    if |pieces| >= 2 {
      var rest := Join(pieces[1..], sep);
      if pieces[0] == "" {
        assert (pieces[0] + sep + rest)[0] == sep[0];
      } else {
        HarmlessLine(pieces[0], sep + rest);
        Assoc(pieces[0], sep, rest);
      }
    }
  }

  lemma TextLine(t: string)
    requires Harmless(t)
    ensures !IsHeading(t)
  {
    if t == "" { BlankLine(); } else { HarmlessLine(t, ""); }
  }

  lemma SummaryLine(summary: string)
    ensures !IsHeading(FormatSummary(summary))
  {
    hide EscapeLatex, Paragraphs, Trim, Join, IsHeading;
    var texts := EscAll(Paragraphs(Trim(summary)));
    forall i | 0 <= i < |texts| ensures Harmless(texts[i]) { EscapedHarmless(Paragraphs(Trim(summary))[i]); }
    JoinHarmless(texts, "\n\n");
    TextLine(FormatSummary(summary));
  }

  // ---- the rows of skills

  lemma HeadHarmless(s: string)
    ensures Harmless(HeadRow(s).value)
  {
    hide EscapeLatex, Trim;
    EscapedHarmless(s);
    if IsLabelled(s) { EscapedHarmless(Trim(s[IndexOfChar(s, ':') + 1..])); }
  }

  lemma RowHarmless(g: seq<string>)
    ensures Harmless(RowOf(g).value)
  {
    hide EscapeLatex, HeadRow, Join;
    if g != [] {
      var texts := [HeadRow(g[0]).value] + EscAll(g[1..]);
      HeadHarmless(g[0]);
      forall i | 0 <= i < |texts| ensures Harmless(texts[i]) { if i > 0 { EscapedHarmless(g[1..][i - 1]); } }
      JoinHarmless(texts, ", ");
    }
  }

  lemma {:induction false} KeptHarmless(skills: seq<string>)
    ensures forall i :: 0 <= i < |NonEmptyAfter(skills, EscOfTrim)| ==> Harmless(NonEmptyAfter(skills, EscOfTrim)[i])
  {
    hide EscOfTrim;
    if skills != [] {
      KeptHarmless(skills[1..]);
      OneKept(skills[0]);
      NonEmptyAfterCons(skills[0], skills[1..], EscOfTrim);
      assert [skills[0]] + skills[1..] == skills;
    }
  }

  lemma OneKept(s: string)
    ensures Harmless(EscOfTrim(s))
  {
    EscapedHarmless(Trim(s));
  }

  lemma ValuesHarmless(skills: seq<string>)
    ensures forall row :: row in SkillRows(skills) ==> Harmless(row.value)
  {
    hide RowOf, Groups, TrimmedNonEmpty, Harmless, NonEmptyAfter, EscOfTrim, EscapeLatex;
    KeptHarmless(skills);
    JoinHarmless(NonEmptyAfter(skills, EscOfTrim), ", ");
    var groups := Groups(TrimmedNonEmpty(skills));
    forall i | 0 <= i < |groups| ensures Harmless(RowsOf(groups)[i].value) { RowHarmless(groups[i]); }
    FlatValue(skills);
  }

  lemma FlatValue(skills: seq<string>)
    ensures forall row :: row in FlatSkills(skills) ==> row.value == Join(NonEmptyAfter(skills, EscOfTrim), ", ")
  {
    hide EscapeLatex, NonEmptyAfter, EscOfTrim, Join;
  }

  // ---- the lines of the items

  lemma Words(words: string, rest: string)
    requires |words| >= 2 && words[1] != 's'
    ensures !IsHeading(words + rest) && !IsHeading(words)
  {
    HarmlessLine(words, rest);
  }

  lemma BulletsNoHeading(options: string, bullets: seq<string>)
    ensures NoHeading(BulletLines(options, bullets))
  {
    hide IsHeading, FormatBullet, TrimmedNonEmpty;
    var shown := TrimmedNonEmpty(bullets);
    Words(SPACE_2, "");
    Words(BEGIN_ITEMIZE, options);
    Words(END_ITEMIZE, "");
    forall i | 0 <= i < |shown| ensures !IsHeading(ItemLines(shown)[i]) { Words(ITEM, FormatBullet(shown[i])); }
  }

  lemma JobNoHeading(e: Experience)
    ensures NoHeading(JobLines(e))
  {
    hide IsHeading, EscapeLatex, Or, Prefixed, DateRange, BulletLines;
    BulletsNoHeading(NO_SEPARATION, e.bullets);
    Bold(JobTop(e));
    Words(SPACE_4, "");
  }

  lemma Bold(line: string)
    requires "\\textbf{" <= line
    ensures !IsHeading(line)
  {
    Words("\\textbf{", line[8..]);
    assert line == "\\textbf{" + line[8..];
  }

  lemma LineIfNoHeading(text: string)
    requires Harmless(text)
    ensures NoHeading(LineIf(text)) && NoHeading(SmallIf(text))
  {
    hide IsHeading;
    if text != "" {
      HarmlessLine(text, " \\\\");
      Words("{\\small ", text + "} \\\\");
      Assoc("{\\small ", text, "} \\\\");
    }
  }

  lemma WorkNoHeading(p: Project)
    ensures NoHeading(WorkLines(p))
  {
    hide IsHeading, EscapeLatex, Or, EscTrim, TechList, UrlLink, LineIf, SmallIf;
    Bold(WorkTop(p));
    TechHarmless(p.tech);
    LineIfNoHeading(TechList(p.tech));
    TrimHarmless(p.description);
    LineIfNoHeading(EscTrim(p.description));
    LinkHarmless(p.link);
    LineIfNoHeading(UrlLink(p.link));
    Words(SPACE_4, "");
  }

  lemma TrimHarmless(s: string)
    ensures Harmless(EscTrim(s))
  {
    EscapedHarmless(Trim(s));
  }

  lemma TechHarmless(tech: seq<string>)
    ensures Harmless(TechList(tech))
  {
    hide EscapeLatex;
    if tech != [] {
      var rest := Join(EscAll(tech), " $\\cdot$ ") + "}";
      HarmlessLine("\\textit{", rest);
      Assoc("\\textit{", Join(EscAll(tech), " $\\cdot$ "), "}");
    }
  }

  lemma LinkHarmless(link: string)
    ensures Harmless(UrlLink(link))
  {
    hide EscapeLatex, Target, Trim;
    if Trim(link) != "" {
      var line := UrlLink(link);
      assert line[0] == '\\' && line[1] == 'h';
    }
  }

  lemma StudyNoHeading(e: Education)
    ensures NoHeading(StudyLines(e))
  {
    hide IsHeading, EscapeLatex, Or, Prefixed, DateRange, SmallIf;
    Bold(StudyTop(e));
    GradeHarmless(e.cgpa);
    LineIfNoHeading(Prefixed("CGPA: ", e.cgpa));
    Words(SPACE_4, "");
  }

  lemma GradeHarmless(cgpa: string)
    ensures Harmless(Prefixed("CGPA: ", cgpa))
  {
    hide EscapeLatex, Trim;
    HarmlessLine("CGPA: ", EscTrim(cgpa));
  }

  lemma DiplomaNoHeading(c: Certification)
    ensures NoHeading(DiplomaLines(c))
  {
    hide IsHeading, EscapeLatex, Or, Prefixed, EscTrim, CustomVerify;
    Bold(DiplomaTop(c));
    Words(SPACE_3, "");
  }

  lemma SkillTableNoHeading(rows: seq<SkillRow>)
    ensures NoHeading(SkillTable(rows))
  {
    hide IsHeading;
    Words(BEGIN_TABULAR, SKILL_COLUMNS);
    Words(END_TABULAR, "");
    forall i | 0 <= i < |rows| ensures !IsHeading(SkillLines(rows)[i]) { RowLine(rows[i]); }
  }

  lemma RowLine(r: SkillRow)
    ensures !IsHeading(SkillLine(r))
  {
    var line := SkillLine(r);
    assert line[0] == ' ';
    HarmlessLine(line, "");
    assert line + "" == line;
  }

  // ---- the headings

  lemma OwnLinesNoHeading(d: ResumeData, id: SectionId)
    ensures NoHeading(OwnLines(d, id))
  {
    hide IsHeading, SkillRows, SkillTable, JobLines, WorkLines, StudyLines, DiplomaLines, Each, FormatSummary;
    match id
    case Summary => SummaryLine(d.info.summary);
    case Skills =>
      var rows := SkillRows(d.skills);
      ValuesHarmless(d.skills);
      SkillTableNoHeading(rows);
      if |rows| == 1 {
        assert rows[0] in rows;
        TextLine(rows[0].value);
      }
    case ExperienceId =>
      forall e: Experience ensures NoHeading(JobLines(e)) { JobNoHeading(e); }
      EachNoHeading(d.experience, JobLines);
    case Projects =>
      forall p: Project ensures NoHeading(WorkLines(p)) { WorkNoHeading(p); }
      EachNoHeading(d.projects, WorkLines);
    case EducationId =>
      forall e: Education ensures NoHeading(StudyLines(e)) { StudyNoHeading(e); }
      EachNoHeading(d.education, StudyLines);
    case Certifications =>
      forall c: Certification ensures NoHeading(DiplomaLines(c)) { DiplomaNoHeading(c); }
      EachNoHeading(d.certifications, DiplomaLines);
  }

  function HeadingOf(id: SectionId): seq<string> { ["\\section{" + Title(id) + "}"] }

  lemma BlockHeading(d: ResumeData, id: SectionId)
    ensures Headings(Block(d)(id)) == HeadingOf(id)
  {
    hide IsHeading, OwnLines, Title;
    var line := "\\section{" + Title(id) + "}";
    StartsHeading(Title(id));
    OwnLinesNoHeading(d, id);
    BlankLine();
    assert NoHeading(OwnLines(d, id) + [""]);
    NoHeadingNone(OwnLines(d, id) + [""]);
    HeadingsBoth([line], OwnLines(d, id) + [""]);
    OneHeading(line);
    Assoc([line], OwnLines(d, id), [""]);
  }

  lemma StartsHeading(title: string)
    ensures IsHeading("\\section{" + title + "}")
  {
  }

  lemma OneHeading(line: string)
    requires IsHeading(line)
    ensures Headings([line]) == [line]
  {
    assert [line][1..] == [];
  }

  /** The headings are the titles of the sections shown, in the user's order. */
  lemma {:induction false} SectionHeadings(d: ResumeData, shown: seq<SectionId>)
    ensures Headings(Each(shown, Block(d))) == Each(shown, HeadingOf)
  {
    hide IsHeading, Block, HeadingOf;
    if shown != [] {
      var n := |shown| - 1;
      SectionHeadings(d, shown[..n]);
      BlockHeading(d, shown[n]);
      HeadingsBoth(Each(shown[..n], Block(d)), Block(d)(shown[n]));
    }
  }

  lemma HeaderNoHeading(p: PersonalInfo, c: CustomConfig)
    ensures NoHeading(CustomHeader(p, c))
  {
    hide IsHeading, CustomName, CustomHeadline, AllContact, EscTrim;
    RuleLine("accent", "0.6pt");
    RuleLine("accent", "2.5pt");
    Words(SPACE_4, "");
    Words(SPACE_6, "");
    Words(BEGIN_CENTER, "");
    Words(END_CENTER, "");
    CenterNoHeading(CustomName(p, c.density), EscTrim(p.location), CustomHeadline(p.headline, c.headingStyle),
                    AllContact(p));
  }

  lemma RuleLine(color: string, width: string)
    ensures !IsHeading(RuleText(color, width))
  {
    var line := RuleText(color, width);
    assert line[0] == '{';
    HarmlessLine(line, "");
  }

  lemma SpacedLine(line: string)
    requires "  " <= line
    ensures !IsHeading(line)
  {
    assert line[0] == ' ';
    HarmlessLine(line, "");
  }

  lemma CenterNoHeading(name: string, location: string, headline: string, contact: string)
    ensures NoHeading(CenterLines(name, location, headline, contact))
  {
    hide IsHeading, PlaceText, HeadlineText;
    SpacedLine(CenterLine(name, "2pt"));
    SpacedLine(CenterLine(PlaceText(location), "2pt"));
    SpacedLine(CenterLine(HeadlineText(headline), "4pt"));
    SpacedLine(ContactLine(contact));
  }

  /**
   The headings of the document's body are the titles of exactly those entries of the order that are not
   hidden and have content, in that order: no other line is a heading, whatever the user's texts.
   */
  lemma BodyHeadings(d: ResumeData)
    ensures Headings(CustomBody(d)) == Each(Shown(d, Order(d.config)), HeadingOf)
  {
    hide IsHeading, CustomHeader, CustomSections, Block, HeadingOf, Order, Shown;
    HeaderNoHeading(d.info, d.config);
    NoHeadingNone(CustomHeader(d.info, d.config));
    SectionsAreBlocks(d, Order(d.config));
    SectionHeadings(d, Shown(d, Order(d.config)));
    HeadingsBoth(CustomHeader(d.info, d.config), CustomSections(d, Order(d.config)));
  }
}
