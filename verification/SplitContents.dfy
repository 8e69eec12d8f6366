/**
 What the source-split template prints (apps/web/src/lib/resumeLatex.ts:147-263): the sections that have
 content, in a fixed order, and every field of the resume in its place.
 */
module SplitContents {
  import opened JsText
  import opened TextLaws
  import opened LatexEscape
  import opened LatexText
  import opened LatexSkills
  import opened LatexLines
  import opened TemplateParts
  import opened SplitTemplate
  import opened LatexContents

  // ---- the header

  function ContactParts(p: PersonalInfo): seq<string> { MailParts(p.email) + Given("", p.phone) }

  function HeaderParts(p: PersonalInfo): seq<string> {
    [EscapeLatex(Or(p.fullName, "Jane Doe"))] + Given("", p.location) + Each(p.links, LinkParts) + ContactParts(p)
    + [if AllSpace(p.headline) then "FULL STACK DEVELOPER" else EscTrim(p.headline)]
  }

  /** A link whose text is underlined. */
  lemma UnderlinedSays(target: string, text: string)
    ensures Says("\\href{" + target + "}{\\underline{" + text + "}}", ["\\href{" + target + "}", text])
  {
    hide Says;
    var head := "\\href{" + target + "}";
    SaysItself(head);
    SaysItself(text);
    Goes(head, [head], "{\\underline{", text, [text]);
    Ends(head + "{\\underline{" + text, [head] + [text], "}}");
    assert "\\href{" + target + "}{\\underline{" + text + "}}" == head + "{\\underline{" + text + "}}";
    assert [head] + [text] == [head, text];
  }

  lemma LinkSays(l: Link)
    requires !AllSpace(l.url)
    ensures Says(LinkText(l), LinkParts(l))
  {
    hide Says, AllSpace, Target, EscapeLatex;
    UnderlinedSays(Target(l.url), LinkName(l));
  }

  lemma LinksSay(p: PersonalInfo)
    ensures Says(LinkCells(p), Each(p.links, LinkParts))
  {
    hide Says, LinkText, LinkParts, AllSpace;
    WithUrlParts(p.links);
    forall l | l in WithUrl(p.links) ensures Says(LinkText(l), LinkParts(l)) { LinkSays(l); }
    JoinEachSays(WithUrl(p.links), LinkText, LinkParts, BAR);
    assert LinkTexts(WithUrl(p.links)) == Texts(WithUrl(p.links), LinkText);
  }

  lemma MailSays(email: string)
    requires !AllSpace(email)
    ensures Says(MailText(email), MailParts(email))
  {
    hide Says, AllSpace, Target, EscapeLatex, Trim;
    UnderlinedSays("mailto:" + Target(email), EscTrim(email));
    assert "\\href{" + ("mailto:" + Target(email)) + "}" == "\\href{mailto:" + Target(email) + "}";
    assert "\\href{" + ("mailto:" + Target(email)) + "}{\\underline{" + EscTrim(email) + "}}" == MailText(email);
  }

  function MailOf(p: PersonalInfo): seq<string> { if Trim(p.email) != "" then [MailText(p.email)] else [] }
  function PhoneOf(p: PersonalInfo): seq<string> { if Trim(p.phone) != "" then [EscTrim(p.phone)] else [] }

  lemma ContactSays(p: PersonalInfo)
    ensures Says(ContactCells(p), ContactParts(p))
  {
    hide Says, AllSpace, Trim, EscapeLatex, MailText, MailParts, Join, Given;
    BlankIff(p.email);
    BlankIff(p.phone);
    SaysNothing("");
    OneJoined(MailText(p.email), BAR);
    OneJoined(EscTrim(p.phone), BAR);
    if !AllSpace(p.email) { MailSays(p.email); } else { NoMail(p.email); }
    TextSays(p.phone);
    if AllSpace(p.phone) { NotGiven(p.phone); }
    JoinedSay(MailOf(p), MailParts(p.email), PhoneOf(p), Given("", p.phone), BAR);
  }

  lemma NoMail(email: string)
    requires AllSpace(email)
    ensures MailParts(email) == []
  {
  }

  lemma NotGiven(s: string)
    requires AllSpace(s)
    ensures Given("", s) == []
  {
  }

  lemma NameLineSays(name: string, location: string, place: seq<string>)
    requires Says(location, place)
    ensures Says(NameLine(name, location), [name] + place)
  {
    hide Says, NAME_SIZE;
    SaysItself(name);
    Starts("  {" + NAME_SIZE + "\\bfseries ", name, [name]);
    Goes("  {" + NAME_SIZE + "\\bfseries " + name, [name], "} & {\\small ", location, place);
    Ends("  {" + NAME_SIZE + "\\bfseries " + name + "} & {\\small " + location, [name] + place, "} \\\\");
  }

  lemma CellLineSays(links: string, ls: seq<string>, contact: string, cs: seq<string>)
    requires Says(links, ls) && Says(contact, cs)
    ensures Says(CellLine(links, contact), ls + cs)
  {
    hide Says;
    Starts("  {\\small ", links, ls);
    Goes("  {\\small " + links, ls, "} & {\\small ", contact, cs);
    Ends("  {\\small " + links + "} & {\\small " + contact, ls + cs, "} \\\\");
  }

  lemma CellsSay(name: string, location: string, place: seq<string>, links: string, ls: seq<string>, contact: string,
                 cs: seq<string>)
    requires Says(location, place) && Says(links, ls) && Says(contact, cs)
    ensures LinesSay(HeaderCells(name, location, links, contact), [name] + place + (ls + cs))
  {
    hide Says, LinesSay, NameLine, CellLine;
    NameLineSays(name, location, place);
    LineSays(NameLine(name, location), [name] + place);
    CellLineSays(links, ls, contact, cs);
    LineSays(CellLine(links, contact), ls + cs);
    if links == "" && contact == "" {
      SaysBoth("", ls, "", cs);
      assert "" + "" == "";
      NothingSaid(ls + cs);
    }
    LinesSayBoth([NameLine(name, location)], [name] + place,
                 if links != "" || contact != "" then [CellLine(links, contact)] else [], ls + cs);
  }

  lemma NothingSaid(parts: seq<string>)
    requires Says("", parts)
    ensures LinesSay([], parts)
  {
    assert Emit([]) == "";
  }

  lemma HeadlineSays(headline: string)
    ensures Says(HeadlineLine(headline), [headline])
  {
    hide Says;
    SaysItself(headline);
    Starts("{\\large \\bfseries \\MakeUppercase{", headline, [headline]);
    Ends("{\\large \\bfseries \\MakeUppercase{" + headline, [headline], "}} \\\\");
  }

  lemma HeaderEndSays(headline: string)
    ensures LinesSay(HeaderEnd(headline), [headline])
  {
    hide LinesSay, HAIRLINE, SPACE_2, SPACE_4;
    HeadlineSays(headline);
    LineSays(HeadlineLine(headline), [headline]);
    LinesEnd([HeadlineLine(headline)], [headline], [SPACE_4, ""]);
    LinesStart([SPACE_2, HAIRLINE, SPACE_4], [HeadlineLine(headline)] + [SPACE_4, ""], [headline]);
    assert [HeadlineLine(headline)] + [SPACE_4, ""] == [HeadlineLine(headline), SPACE_4, ""];
  }

  lemma HeaderSays(p: PersonalInfo)
    ensures LinesSay(Header(p), HeaderParts(p))
  {
    hide LinesSay, Says, HeaderCells, LinkCells, ContactCells, ContactParts, EscapeLatex, Or, Given, Trim, HeaderEnd,
        AllSpace, SpreadColumns, HEADER_NOTE, Each;
    var name := EscapeLatex(Or(p.fullName, "Jane Doe"));
    TextSays(p.location);
    LinksSay(p);
    ContactSays(p);
    CellsSay(name, EscTrim(p.location), Given("", p.location), LinkCells(p), Each(p.links, LinkParts),
             ContactCells(p), ContactParts(p));
    var cells := HeaderCells(name, EscTrim(p.location), LinkCells(p), ContactCells(p));
    var parts := [name] + Given("", p.location) + (Each(p.links, LinkParts) + ContactParts(p));
    LinesStart([BEGIN_TABULAR + SpreadColumns(" l r")], cells, parts);
    LinesEnd([BEGIN_TABULAR + SpreadColumns(" l r")] + cells, parts, [END_TABULAR]);
    LinesStart(["", "%" + HEADER_NOTE], HeaderTable(p), parts);
    BlankIff(p.headline);
    HeaderEndSays(Headline(p));
    LinesSayBoth(["", "%" + HEADER_NOTE] + HeaderTable(p), parts, HeaderEnd(Headline(p)), [Headline(p)]);
    assert parts + [Headline(p)] == HeaderParts(p);
  }

  // ---- items

  function ExperienceParts(e: Experience): seq<string> {
    [EscapeLatex(Or(e.role, "Role")), DateRange(e.startDate, e.endDate), EscapeLatex(Or(e.company, "Company"))]
    + Given("", e.location) + BulletParts(e.bullets)
  }

  lemma RoleSays(role: string, dates: string)
    ensures Says(RoleLine(role, dates), [role, dates])
  {
    hide Says;
    SaysItself(role);
    SaysItself(dates);
    Starts("{\\bfseries ", role, [role]);
    Goes("{\\bfseries " + role, [role], "} \\hfill {\\small \\textit{", dates, [dates]);
    assert [role] + [dates] == [role, dates];
    Ends("{\\bfseries " + role + "} \\hfill {\\small \\textit{" + dates, [role, dates], "}} \\\\");
  }

  lemma CompanySays(company: string, location: string, place: seq<string>)
    requires Says(location, place)
    ensures Says(CompanyLine(company, location), [company] + place)
  {
    hide Says;
    SaysItself(company);
    Starts("{\\small \\textit{", company, [company]);
    Goes("{\\small \\textit{" + company, [company], "}} \\hfill {\\small \\textit{", location, place);
    Ends("{\\small \\textit{" + company + "}} \\hfill {\\small \\textit{" + location, [company] + place, "}} \\\\");
  }

  lemma HeadSays(role: string, dates: string, company: string, location: string, place: seq<string>)
    requires Says(location, place)
    ensures LinesSay(ExperienceHead(role, dates, company, location), [role, dates, company] + place)
  {
    hide Says, LinesSay, RoleLine, CompanyLine;
    RoleSays(role, dates);
    CompanySays(company, location, place);
    LineSays(RoleLine(role, dates), [role, dates]);
    LineSays(CompanyLine(company, location), [company] + place);
    LinesSayBoth([RoleLine(role, dates)], [role, dates], [CompanyLine(company, location)], [company] + place);
    assert [role, dates] + ([company] + place) == [role, dates, company] + place;
    assert [RoleLine(role, dates)] + [CompanyLine(company, location)]
        == ExperienceHead(role, dates, company, location);
  }

  lemma ExperienceSays(e: Experience)
    ensures LinesSay(ExperienceLines(e), ExperienceParts(e))
  {
    hide LinesSay, Says, ExperienceHead, BulletLines, BulletParts, EscapeLatex, Or, DateRange, Given, EscTrim;
    var role, company := EscapeLatex(Or(e.role, "Role")), EscapeLatex(Or(e.company, "Company"));
    var dates, place := DateRange(e.startDate, e.endDate), Given("", e.location);
    TextSays(e.location);
    HeadSays(role, dates, company, EscTrim(e.location), place);
    BulletsSay(LIST_OPTIONS, e.bullets);
    LinesSayBoth(ExperienceTop(e), [role, dates, company] + place, BulletLines(LIST_OPTIONS, e.bullets),
                 BulletParts(e.bullets));
    LinesEnd(ExperienceTop(e) + BulletLines(LIST_OPTIONS, e.bullets), ExperienceParts(e), [SPACE_4]);
  }

  function ProjectParts(p: Project): seq<string> {
    [EscapeLatex(Or(p.title, "Untitled Project"))] + EscAll(p.tech)
    + (if AllSpace(p.link) then [] else ["\\href{" + Target(p.link) + "}", "Source Code"]) + Given("", p.description)
  }

  lemma SourceSays(link: string)
    ensures Says(SourceLink(link), if AllSpace(link) then [] else ["\\href{" + Target(link) + "}", "Source Code"])
  {
    hide Says, Trim, AllSpace, Target;
    BlankIff(link);
    SaysNothing("");
    UnderlinedSays(Target(link), "Source Code");
    assert "\\href{" + Target(link) + "}{\\underline{" + "Source Code" + "}}"
        == "\\href{" + Target(link) + "}{\\underline{Source Code}}";
  }

  lemma ProjectHeadSays(title: string, tech: string, ts: seq<string>, link: string, ls: seq<string>)
    requires Says(tech, ts) && Says(link, ls)
    ensures LinesSay(ProjectHead(title, tech, link), [title] + ts + ls)
  {
    hide Says, LinesSay, SpreadColumns;
    SaysItself(title);
    if tech != "" || link != "" {
      Starts("  \\textbf{", title, [title]);
      Goes("  \\textbf{" + title, [title], "} & {\\small ", tech, ts);
      var head := "  \\textbf{" + title + "} & {\\small " + tech;
      Goes(head, [title] + ts, "} & {\\small ", link, ls);
      Ends(head + "} & {\\small " + link, [title] + ts + ls, "} \\\\");
      LineSays(ProjectCells(title, tech, link), [title] + ts + ls);
      LinesStart([BEGIN_TABULAR + SpreadColumns(" l c r")], [ProjectCells(title, tech, link)], [title] + ts + ls);
      LinesEnd([BEGIN_TABULAR + SpreadColumns(" l c r")] + [ProjectCells(title, tech, link)], [title] + ts + ls,
               [END_TABULAR]);
    } else {
      Starts("\\textbf{", title, [title]);
      SaysBoth("\\textbf{" + title, [title], tech, ts);
      SaysBoth("\\textbf{" + title + tech, [title] + ts, link, ls);
      assert "\\textbf{" + title + tech + link == "\\textbf{" + title;
      Ends("\\textbf{" + title, [title] + ts + ls, "} \\\\");
      LineSays(TitleLine(title), [title] + ts + ls);
    }
  }

  lemma DescriptionSays(description: string)
    ensures LinesSay(DescriptionLine(description), Given("", description))
  {
    hide LinesSay, Says, Trim, EscapeLatex, AllSpace;
    BlankIff(description);
    TextSays(description);
    if AllSpace(description) {
      LinesSayNothing([]);
    } else if EscTrim(description) == "" {
      EmptyLines(Given("", description));
    } else {
      Ends(EscTrim(description), Given("", description), " \\\\");
      LineSays(EscTrim(description) + " \\\\", Given("", description));
    }
  }

  lemma EmptyLines(parts: seq<string>)
    requires Says("", parts)
    ensures LinesSay([], parts)
  {
    assert Emit([]) == "";
  }

  lemma ProjectSays(p: Project)
    ensures LinesSay(ProjectLines(p), ProjectParts(p))
  {
    hide LinesSay, Says, ProjectHead, TechList, SourceLink, DescriptionLine, EscapeLatex, Or, Given, EscAll, AllSpace,
        Target;
    var title := EscapeLatex(Or(p.title, "Untitled Project"));
    var link := if AllSpace(p.link) then [] else ["\\href{" + Target(p.link) + "}", "Source Code"];
    TechSays(p.tech);
    SourceSays(p.link);
    ProjectHeadSays(title, TechList(p.tech), EscAll(p.tech), SourceLink(p.link), link);
    DescriptionSays(p.description);
    LinesSayBoth(ProjectTop(p), [title] + EscAll(p.tech) + link, DescriptionLine(p.description),
                 Given("", p.description));
    LinesEnd(ProjectTop(p) + DescriptionLine(p.description), ProjectParts(p), [SPACE_4]);
  }

  function EducationParts(e: Education): seq<string> {
    [EscapeLatex(Or(e.degree, "Degree")), DateRange(e.startDate, e.endDate), EscapeLatex(Or(e.school, "Institution"))]
    + Given(", ", e.location) + Given("CGPA: ", e.cgpa)
  }

  lemma DegreeSays(degree: string, dates: string)
    ensures Says(DegreeLine(degree, dates), [degree, dates])
  {
    hide Says;
    SaysItself(degree);
    SaysItself(dates);
    Starts("\\textbf{", degree, [degree]);
    Goes("\\textbf{" + degree, [degree], "} \\hfill {\\small \\textit{", dates, [dates]);
    assert [degree] + [dates] == [degree, dates];
    Ends("\\textbf{" + degree + "} \\hfill {\\small \\textit{" + dates, [degree, dates], "}} \\\\");
  }

  lemma SchoolSays(school: string, location: string, place: seq<string>, grade: string, gs: seq<string>)
    requires Says(location, place) && Says(grade, gs)
    ensures Says(SchoolLine(school, location, grade), [school] + place + gs)
  {
    hide Says;
    SaysItself(school);
    Starts("{\\small \\textit{", school, [school]);
    SaysBoth("{\\small \\textit{" + school, [school], location, place);
    Ends("{\\small \\textit{" + school + location, [school] + place, "}}");
    var tail := if grade != "" then " \\hfill {\\small " + grade + "}" else "";
    if grade != "" {
      Starts(" \\hfill {\\small ", grade, gs);
      Ends(" \\hfill {\\small " + grade, gs, "}");
    }
    SaysBoth("{\\small \\textit{" + school + location + "}}", [school] + place, tail, gs);
    Ends("{\\small \\textit{" + school + location + "}}" + tail, [school] + place + gs, " \\\\");
  }

  lemma EducationSays(e: Education)
    ensures LinesSay(EducationLines(e), EducationParts(e))
  {
    hide LinesSay, Says, DegreeLine, SchoolLine, EscapeLatex, Or, DateRange, Prefixed, Given, SPACE_4;
    var degree, dates := EscapeLatex(Or(e.degree, "Degree")), DateRange(e.startDate, e.endDate);
    var school := EscapeLatex(Or(e.school, "Institution"));
    var place, grade := Given(", ", e.location), Given("CGPA: ", e.cgpa);
    DegreeSays(degree, dates);
    LineSays(DegreeLine(degree, dates), [degree, dates]);
    PrefixedSays(", ", e.location);
    PrefixedSays("CGPA: ", e.cgpa);
    SchoolSays(school, Prefixed(", ", e.location), place, Prefixed("CGPA: ", e.cgpa), grade);
    var line := SchoolLine(school, Prefixed(", ", e.location), Prefixed("CGPA: ", e.cgpa));
    LineSays(line, [school] + place + grade);
    LinesSayBoth([DegreeLine(degree, dates)], [degree, dates], [line], [school] + place + grade);
    LinesEnd([DegreeLine(degree, dates)] + [line], [degree, dates] + ([school] + place + grade), [SPACE_4]);
    assert [DegreeLine(degree, dates)] + [line] + [SPACE_4] == EducationLines(e);
    assert [degree, dates] + ([school] + place + grade) == EducationParts(e);
  }

  function CertificationParts(c: Certification): seq<string> {
    [EscapeLatex(Or(c.name, "Certification"))] + Given("", c.issuer) + Given("", c.date)
    + (if AllSpace(c.url) then [] else ["\\href{" + Target(c.url) + "}", "Verify"])
  }

  lemma VerifySays(url: string)
    ensures Says(VerifyLink(url), if AllSpace(url) then [] else ["\\href{" + Target(url) + "}", "Verify"])
  {
    hide Says, Trim, AllSpace, Target;
    BlankIff(url);
    SaysNothing("");
    UnderlinedSays(Target(url), "Verify");
    assert "\\href{" + Target(url) + "}{\\underline{" + "Verify" + "}}"
        == "\\href{" + Target(url) + "}{\\underline{Verify}}";
  }

  lemma CertificateSays(name: string, issuer: string, giver: seq<string>, date: string, day: seq<string>, link: string,
                        target: seq<string>)
    requires Says(issuer, giver) && Says(date, day) && Says(link, target)
    ensures Says(CertificateLine(name, issuer, date, link), [name] + giver + day + target)
  {
    hide Says;
    SaysItself(name);
    Starts("\\textbf{", name, [name]);
    Ends("\\textbf{" + name, [name], "}");
    var from := if issuer != "" then " --- " + issuer else "";
    if issuer != "" { Starts(" --- ", issuer, giver); }
    SaysBoth("\\textbf{" + name + "}", [name], from, giver);
    var head := "\\textbf{" + name + "}" + from;
    Goes(head, [name] + giver, " \\hfill {\\small \\textit{", date, day);
    Ends(head + " \\hfill {\\small \\textit{" + date, [name] + giver + day, "}} ");
    var tail := if link != "" then " \\; " + link else "";
    if link != "" { Starts(" \\; ", link, target); }
    SaysBoth(head + " \\hfill {\\small \\textit{" + date + "}} ", [name] + giver + day, tail, target);
    Ends(head + " \\hfill {\\small \\textit{" + date + "}} " + tail, [name] + giver + day + target, " \\\\");
  }

  lemma CertificationSays(c: Certification)
    ensures LinesSay(CertificationLines(c), CertificationParts(c))
  {
    hide LinesSay, Says, EscapeLatex, Or, EscTrim, VerifyLink, CertificateLine, Given, Target, AllSpace, SPACE_3;
    var name := EscapeLatex(Or(c.name, "Certification"));
    var target := if AllSpace(c.url) then [] else ["\\href{" + Target(c.url) + "}", "Verify"];
    TextSays(c.issuer);
    TextSays(c.date);
    VerifySays(c.url);
    CertificateSays(name, EscTrim(c.issuer), Given("", c.issuer), EscTrim(c.date), Given("", c.date), VerifyLink(c.url),
                    target);
    var line := CertificateLine(name, EscTrim(c.issuer), EscTrim(c.date), VerifyLink(c.url));
    LineSays(line, CertificationParts(c));
    LinesEnd([line], CertificationParts(c), [SPACE_3]);
    assert [line] + [SPACE_3] == CertificationLines(c);
  }

  // ---- the document

  function SummaryParts(summary: string): seq<string> {
    if AllSpace(summary) then [] else ["Summary"] + EscAll(Paragraphs(Trim(summary)))
  }

  /** The table of skills under its title, when it has a row. */
  function SkillParts(skills: seq<string>): seq<string> {
    if SkillRows(skills) == [] then [] else ["Technical Skills"] + Each(SkillRows(skills), RowParts)
  }

  lemma SummarySays(summary: string)
    ensures LinesSay(SummaryLines(summary), SummaryParts(summary))
  {
    hide LinesSay, Says, Trim, AllSpace, Paragraphs, EscAll, Join, Headed;
    BlankIff(summary);
    LinesSayNothing([]);
    if !AllSpace(summary) {
      var texts := EscAll(Paragraphs(Trim(summary)));
      SummaryIsShown(summary);
      JoinSays(texts, "\n\n");
      LineSays(FormatSummary(summary), texts);
      HeadedSays("Summary", [FormatSummary(summary)], texts);
    }
  }

  lemma SkillsSay(skills: seq<string>)
    ensures LinesSay(SkillSection(SkillRows(skills)), SkillParts(skills))
  {
    hide LinesSay, SkillRows, SkillTable, Headed, SPACE_2;
    var rows := SkillRows(skills);
    LinesSayNothing([]);
    SkillTableSays(rows);
    LinesEnd(SkillTable(rows), Each(rows, RowParts), [SPACE_2]);
    HeadedSays("Technical Skills", SkillTable(rows) + [SPACE_2], Each(rows, RowParts));
  }

  function AllParts(d: ResumeData): seq<string> {
    HeaderParts(d.info) + SummaryParts(d.info.summary) + SkillParts(d.skills)
    + SectionParts("Experience", d.experience, ExperienceParts)
    + SectionParts("Projects", d.projects, ProjectParts)
    + (SectionParts("Education", d.education, EducationParts)
       + SectionParts("Certifications", d.certifications, CertificationParts))
  }

  lemma TopSays(d: ResumeData)
    ensures LinesSay(Top(d), HeaderParts(d.info) + SummaryParts(d.info.summary) + SkillParts(d.skills))
  {
    hide LinesSay, Header, SummaryLines, SkillSection, SkillRows, HeaderParts, SummaryParts, SkillParts;
    HeaderSays(d.info);
    SummarySays(d.info.summary);
    SkillsSay(d.skills);
    LinesSayBoth(Header(d.info), HeaderParts(d.info), SummaryLines(d.info.summary), SummaryParts(d.info.summary));
    LinesSayBoth(Header(d.info) + SummaryLines(d.info.summary), HeaderParts(d.info) + SummaryParts(d.info.summary),
                 SkillSection(SkillRows(d.skills)), SkillParts(d.skills));
  }

  lemma SectionsSay(d: ResumeData)
    ensures LinesSay(Experiences(d), SectionParts("Experience", d.experience, ExperienceParts))
    ensures LinesSay(ProjectList(d), SectionParts("Projects", d.projects, ProjectParts))
    ensures LinesSay(Schools(d), SectionParts("Education", d.education, EducationParts))
    ensures LinesSay(Certificates(d), SectionParts("Certifications", d.certifications, CertificationParts))
  {
    hide LinesSay, ExperienceLines, ProjectLines, EducationLines, CertificationLines, ExperienceParts, ProjectParts,
        EducationParts, CertificationParts, SectionOf, SectionParts;
    forall e: Experience ensures LinesSay(ExperienceLines(e), ExperienceParts(e)) { ExperienceSays(e); }
    forall p: Project ensures LinesSay(ProjectLines(p), ProjectParts(p)) { ProjectSays(p); }
    forall e: Education ensures LinesSay(EducationLines(e), EducationParts(e)) { EducationSays(e); }
    forall c: Certification ensures LinesSay(CertificationLines(c), CertificationParts(c)) { CertificationSays(c); }
    SectionSays("Experience", d.experience, ExperienceLines, ExperienceParts);
    SectionSays("Projects", d.projects, ProjectLines, ProjectParts);
    SectionSays("Education", d.education, EducationLines, EducationParts);
    SectionSays("Certifications", d.certifications, CertificationLines, CertificationParts);
  }

  lemma BodySays(d: ResumeData)
    ensures LinesSay(Body(d), AllParts(d))
  {
    hide LinesSay, Top, Experiences, ProjectList, Schools, Certificates, SectionParts, HeaderParts, SummaryParts,
        SkillParts;
    var top := HeaderParts(d.info) + SummaryParts(d.info.summary) + SkillParts(d.skills);
    var jobs := SectionParts("Experience", d.experience, ExperienceParts);
    var work := SectionParts("Projects", d.projects, ProjectParts);
    var schools := SectionParts("Education", d.education, EducationParts);
    var diplomas := SectionParts("Certifications", d.certifications, CertificationParts);
    TopSays(d);
    SectionsSay(d);
    LinesSayBoth(Top(d), top, Experiences(d), jobs);
    LinesSayBoth(Top(d) + Experiences(d), top + jobs, ProjectList(d), work);
    LinesSayBoth(Schools(d), schools, Certificates(d), diplomas);
    LinesSayBoth(Top(d) + Experiences(d) + ProjectList(d), top + jobs + work, Schools(d) + Certificates(d),
                 schools + diplomas);
  }

  /** Every field that is not blank stands in the document, in its place, section by section. */
  lemma SplitSays(d: ResumeData)
    ensures Says(Document(AllLines(d)), AllParts(d))
  {
    hide Says, LinesSay, Body, PREAMBLE, AllParts, Document;
    BodySays(d);
    LinesStart([BEGIN_DOCUMENT], Body(d), AllParts(d));
    LinesEnd([BEGIN_DOCUMENT] + Body(d), AllParts(d), [END_DOCUMENT]);
    LinesStart(PREAMBLE, [BEGIN_DOCUMENT] + Body(d) + [END_DOCUMENT], AllParts(d));
    DocumentSays(AllLines(d), AllParts(d));
  }

  // ---- the preamble

  /** The packages of the template, in the order in which it loads them. */
  lemma PreambleLoads()
    ensures Loads(PREAMBLE, ["inputenc", "fontenc", "sourcesanspro", "geometry"] + ["enumitem", "titlesec", "xcolor"]
                        + ["tabularx", "hyperref"])
  {
    hide Loads, PackageLine, LAYOUT_PACKAGES, DOCUMENT_CLASS, NOTES, STYLE;
    FirstPackages();
    LayoutLoads();
    LoadsOne("", "tabularx");
    LoadsOne("[hidelinks]", "hyperref");
    LoadsBoth([TABULARX], ["tabularx"], [HYPERREF], ["hyperref"]);
    assert ["tabularx"] + ["hyperref"] == ["tabularx", "hyperref"];
    var first := [DOCUMENT_CLASS, INPUT_ENCODING, FONT_ENCODING, SOURCE_SANS, MARGIN];
    var names := ["inputenc", "fontenc", "sourcesanspro", "geometry"];
    LoadsBoth(first, names, LAYOUT_PACKAGES, ["enumitem", "titlesec", "xcolor"]);
    LoadsBoth(first + LAYOUT_PACKAGES, names + ["enumitem", "titlesec", "xcolor"], [TABULARX] + [HYPERREF],
              ["tabularx", "hyperref"]);
    assert [TABULARX] + [HYPERREF] == [TABULARX, HYPERREF];
    var all := names + ["enumitem", "titlesec", "xcolor"] + ["tabularx", "hyperref"];
    LoadsNothing(NOTES);
    LoadsNothing(STYLE);
    LoadsBoth(NOTES, [], PACKAGES, all);
    LoadsBoth(NOTES + PACKAGES, [] + all, STYLE, []);
    assert [] + all + [] == all;
  }

  lemma FirstPackages()
    ensures Loads([DOCUMENT_CLASS, INPUT_ENCODING, FONT_ENCODING, SOURCE_SANS, MARGIN],
                  ["inputenc", "fontenc", "sourcesanspro", "geometry"])
  {
    hide Loads, PackageLine, DOCUMENT_CLASS;
    LoadsOne("[utf8]", "inputenc");
    LoadsOne("[T1]", "fontenc");
    LoadsOne("[default]", "sourcesanspro");
    LoadsOne("[margin=0.5in]", "geometry");
    LoadsNothing([DOCUMENT_CLASS]);
    LoadsBoth([DOCUMENT_CLASS], [], [INPUT_ENCODING], ["inputenc"]);
    LoadsBoth([DOCUMENT_CLASS] + [INPUT_ENCODING], [] + ["inputenc"], [FONT_ENCODING], ["fontenc"]);
    var two := [DOCUMENT_CLASS] + [INPUT_ENCODING] + [FONT_ENCODING];
    LoadsBoth(two, [] + ["inputenc"] + ["fontenc"], [SOURCE_SANS], ["sourcesanspro"]);
    LoadsBoth(two + [SOURCE_SANS], [] + ["inputenc"] + ["fontenc"] + ["sourcesanspro"], [MARGIN], ["geometry"]);
    assert two + [SOURCE_SANS] + [MARGIN] == [DOCUMENT_CLASS, INPUT_ENCODING, FONT_ENCODING, SOURCE_SANS, MARGIN];
    assert [] + ["inputenc"] + ["fontenc"] + ["sourcesanspro"] + ["geometry"]
        == ["inputenc", "fontenc", "sourcesanspro", "geometry"];
  }

  // ---- a summary that is not blank is shown

  lemma {:induction false} FirstOfUnix(s: string)
    requires s != "" && !IsSpace(s[0])
    ensures UnixLines(s) != "" && UnixLines(s)[0] == s[0]
  {
    assert "\r\n"[0] == '\r' && IsSpace('\r');
  }

  lemma FirstPiece(s: string)
    requires s != "" && !IsSpace(s[0])
    ensures SplitText(s, "\n\n")[0] != "" && SplitText(s, "\n\n")[0][0] == s[0]
  {
    assert "\n\n"[0] == '\n' && IsSpace('\n');
  }

  lemma CollapsedFirst(s: string)
    requires s != "" && !IsSpace(s[0])
    ensures Trim(CollapseSpace(s)) != ""
  {
    BlankIff(CollapseSpace(s));
    assert CollapseSpace(s)[0] == s[0];
  }

  lemma SummaryIsShown(summary: string)
    requires !AllSpace(summary)
    ensures Trim(summary) != "" && FormatSummary(summary) != ""
  {
    hide AllSpace, Trim, UnixLines, SplitText, CollapseSpace, EscapeLatex, Join, IsSpace;
    BlankIff(summary);
    var t := Trim(summary);
    FirstOfUnix(t);
    var pieces := SplitText(UnixLines(t), "\n\n");
    FirstPiece(UnixLines(t));
    CollapsedFirst(pieces[0]);
    var all := CollapseAll(pieces);
    NonEmptyAfterCons(all[0], all[1..], Trim);
    assert [all[0]] + all[1..] == all;
    FirstText(Paragraphs(t));
  }

  lemma FirstText(texts: seq<string>)
    requires texts != [] && texts[0] != ""
    ensures Join(EscAll(texts), "\n\n") != ""
  {
    hide EscapeLatex;
    EscapedSome(texts[0]);
  }

  lemma EscapedSome(s: string)
    requires s != ""
    ensures EscapeLatex(s) != ""
  {
    StepsAreSubst(s, 0);
    if FakeAt(s) {
      ChainAtFake(s);
    } else {
      ChainAhead(s);
      CodeStarts(s[0]);
      SomeCode(s[0]);
    }
  }

  lemma SomeCode(c: char)
    ensures EscapeChar(c) != ""
  {
  }
}
