/**
 What the custom template prints (apps/web/src/lib/resumeLatex.ts:839-936): which sections, in which
 order, under which headings, and that every field of the resume is in its place.
 */
module CustomContents {
  import opened JsText
  import opened TextLaws
  import opened LatexEscape
  import opened LatexText
  import opened LatexSkills
  import opened LatexLines
  import opened TemplateParts
  import opened CustomTemplate
  import opened LatexContents

  // ---- the sections

  function Title(id: SectionId): string {
    match id
    case Summary => "Summary"
    case Skills => "Technical Skills"
    case ExperienceId => "Experience"
    case Projects => "Projects"
    case EducationId => "Education"
    case Certifications => "Certifications"
  }

  predicate HasContent(d: ResumeData, id: SectionId) {
    match id
    case Summary => !AllSpace(d.info.summary)
    case Skills => |d.skills| > 0
    case ExperienceId => |d.experience| > 0
    case Projects => |d.projects| > 0
    case EducationId => |d.education| > 0
    case Certifications => |d.certifications| > 0
  }

  /** The entries of the order that are not hidden and have content. */
  function Shown(d: ResumeData, order: seq<SectionId>): seq<SectionId> {
    if order == [] then []
    else if order[0] !in d.config.hidden && HasContent(d, order[0]) then [order[0]] + Shown(d, order[1..])
    else Shown(d, order[1..])
  }

  /** The lines of a section between its heading and the empty line behind it. */
  function OwnLines(d: ResumeData, id: SectionId): seq<string> {
    match id
    case Summary => [FormatSummary(d.info.summary)]
    case Skills =>
      var rows := SkillRows(d.skills);
      if |rows| == 1 && rows[0].name == "Skills" then [rows[0].value] else SkillTable(rows)
    case ExperienceId => Each(d.experience, JobLines)
    case Projects => Each(d.projects, WorkLines)
    case EducationId => Each(d.education, StudyLines)
    case Certifications => Each(d.certifications, DiplomaLines)
  }

  function Block(d: ResumeData): SectionId -> seq<string> {
    (id: SectionId) => ["\\section{" + Title(id) + "}"] + OwnLines(d, id) + [""]
  }

  lemma SectionIsBlock(d: ResumeData, id: SectionId)
    ensures CustomSection(d, id) == if id !in d.config.hidden && HasContent(d, id) then Block(d)(id) else []
  {
    hide SkillRows, SkillTable, FormatSummary, Each, Trim, AllSpace;
    BlankIff(d.info.summary);
  }

  lemma {:induction false} ShownSnoc(d: ResumeData, order: seq<SectionId>, id: SectionId)
    ensures Shown(d, order + [id])
         == Shown(d, order) + (if id !in d.config.hidden && HasContent(d, id) then [id] else [])
  {
    hide HasContent;
    if order == [] {
      assert order + [id] == [id] && [id][1..] == [];
    } else {
      ShownSnoc(d, order[1..], id);
      assert (order + [id])[1..] == order[1..] + [id];
    }
  }

  /**
   The sections of the document are one block per entry of the order that is not hidden and has content:
   its heading, its own lines, and an empty line.
   */
  lemma {:induction false} SectionsAreBlocks(d: ResumeData, order: seq<SectionId>)
    ensures CustomSections(d, order) == Each(Shown(d, order), Block(d))
  {
    hide CustomSection, HasContent, Shown, Block;
    if order == [] {
      assert order == [];
      NothingShown(d);
    } else {
      var front, id := order[..|order| - 1], order[|order| - 1];
      assert order == front + [id];
      SectionsAreBlocks(d, front);
      SectionIsBlock(d, id);
      ShownSnoc(d, front, id);
      EachSnoc(Shown(d, front), id, Block(d));
      assert Shown(d, front) + [] == Shown(d, front);
      assert CustomSections(d, order) == CustomSections(d, front) + CustomSection(d, id);
    }
  }

  lemma NothingShown(d: ResumeData)
    ensures Shown(d, []) == []
  {
  }

  /** The user's order counts; without one all six sections stand in the usual order, from the summary on. */
  lemma OrderIs(c: CustomConfig, id: SectionId)
    ensures c.order != [] ==> Order(c) == c.order
    ensures c.order == [] ==> |Order(c)| == 6 && id in Order(c) && Order(c)[0] == Summary && Order(c)[1] == Skills
    ensures c.order == [] ==> Order(c)[2..] == [ExperienceId, Projects, EducationId, Certifications]
  {
  }

  // ---- what an item says

  function JobParts(e: Experience): seq<string> {
    [EscapeLatex(Or(e.role, "Role")), EscapeLatex(Or(e.company, "Company"))] + Given(" --- ", e.location)
    + [DateRange(e.startDate, e.endDate)] + BulletParts(e.bullets)
  }

  lemma JobTopSays(e: Experience)
    ensures Says(JobTop(e), [EscapeLatex(Or(e.role, "Role")), EscapeLatex(Or(e.company, "Company"))]
              + Given(" --- ", e.location) + [DateRange(e.startDate, e.endDate)])
  {
    hide Says, EscapeLatex, Or, Prefixed, DateRange, Given;
    var role, company := EscapeLatex(Or(e.role, "Role")), EscapeLatex(Or(e.company, "Company"));
    var location, dates := Prefixed(" --- ", e.location), DateRange(e.startDate, e.endDate);
    PrefixedSays(" --- ", e.location);
    JobLineSays(role, company, location, Given(" --- ", e.location), dates);
  }

  lemma JobLineSays(role: string, company: string, location: string, place: seq<string>, dates: string)
    requires Says(location, place)
    ensures Says(JobLine(role, company, location, dates), [role, company] + place + [dates])
  {
    hide Says;
    SaysItself(role);
    SaysItself(company);
    SaysItself(dates);
    Starts("\\textbf{", role, [role]);
    Goes("\\textbf{" + role, [role], "} --- \\textit{", company, [company]);
    assert [role] + [company] == [role, company];
    Goes("\\textbf{" + role + "} --- \\textit{" + company, [role, company], "}", location, place);
    var head := "\\textbf{" + role + "} --- \\textit{" + company + "}" + location;
    Goes(head, [role, company] + place, " \\hfill {\\small \\color{accent} ", dates, [dates]);
    Ends(head + " \\hfill {\\small \\color{accent} " + dates, [role, company] + place + [dates], "} \\\\");
  }

  lemma JobSays(e: Experience)
    ensures LinesSay(JobLines(e), JobParts(e))
  {
    hide LinesSay, JobTop, BulletLines, BulletParts, Given, EscapeLatex, Or, DateRange;
    JobTopSays(e);
    var top := [EscapeLatex(Or(e.role, "Role")), EscapeLatex(Or(e.company, "Company"))]
      + Given(" --- ", e.location) + [DateRange(e.startDate, e.endDate)];
    LineSays(JobTop(e), top);
    BulletsSay(NO_SEPARATION, e.bullets);
    LinesSayBoth([JobTop(e)], top, BulletLines(NO_SEPARATION, e.bullets), BulletParts(e.bullets));
    LinesEnd([JobTop(e)] + BulletLines(NO_SEPARATION, e.bullets), top + BulletParts(e.bullets), [SPACE_4]);
  }

  function WorkParts(p: Project): seq<string> {
    [EscapeLatex(Or(p.title, "Untitled"))] + Given("", p.date) + EscAll(p.tech) + Given("", p.description)
    + (if AllSpace(p.link) then [] else ["\\href{" + Target(p.link) + "}", EscTrim(p.link)])
  }

  lemma WorkTopSays(p: Project)
    ensures Says(WorkTop(p), [EscapeLatex(Or(p.title, "Untitled"))] + Given("", p.date))
  {
    hide Says, EscapeLatex, Or, EscTrim, Given;
    TextSays(p.date);
    WorkLineSays(EscapeLatex(Or(p.title, "Untitled")), EscTrim(p.date), Given("", p.date));
  }

  lemma WorkLineSays(title: string, date: string, given: seq<string>)
    requires Says(date, given)
    ensures Says(WorkLine(title, date), [title] + given)
  {
    hide Says;
    SaysItself(title);
    Starts("\\textbf{", title, [title]);
    Ends("\\textbf{" + title, [title], "} ");
    var tail := if date != "" then "\\hfill {\\small " + date + "}" else "";
    if date != "" {
      Starts("\\hfill {\\small ", date, given);
      Ends("\\hfill {\\small " + date, given, "}");
    }
    SaysBoth("\\textbf{" + title + "} ", [title], tail, given);
    Ends("\\textbf{" + title + "} " + tail, [title] + given, " \\\\");
  }

  lemma LineIfSays(text: string, parts: seq<string>)
    requires Says(text, parts)
    ensures LinesSay(LineIf(text), parts) && LinesSay(SmallIf(text), parts)
  {
    hide Says;
    if text != "" {
      Ends(text, parts, " \\\\");
      LineSays(text + " \\\\", parts);
      Starts("{\\small ", text, parts);
      Ends("{\\small " + text, parts, "} \\\\");
      LineSays("{\\small " + text + "} \\\\", parts);
    }
  }

  lemma UrlLinkSays(link: string)
    ensures Says(UrlLink(link), if AllSpace(link) then [] else ["\\href{" + Target(link) + "}", EscTrim(link)])
  {
    hide Says, Trim, AllSpace, Target, EscapeLatex;
    BlankIff(link);
    SaysNothing("");
    HrefSays(Target(link), EscTrim(link));
  }

  lemma WorkSays(p: Project)
    ensures LinesSay(WorkLines(p), WorkParts(p))
  {
    hide LinesSay, Says, WorkTop, TechList, EscTrim, UrlLink, LineIf, SmallIf, EscapeLatex, Or, Given, Target, AllSpace,
        EscAll;
    var top := [EscapeLatex(Or(p.title, "Untitled"))] + Given("", p.date);
    var link := if AllSpace(p.link) then [] else ["\\href{" + Target(p.link) + "}", EscTrim(p.link)];
    WorkTopSays(p);
    LineSays(WorkTop(p), top);
    TechSays(p.tech);
    LineIfSays(TechList(p.tech), EscAll(p.tech));
    TextSays(p.description);
    LineIfSays(EscTrim(p.description), Given("", p.description));
    UrlLinkSays(p.link);
    LineIfSays(UrlLink(p.link), link);
    LinesSayBoth(LineIf(TechList(p.tech)), EscAll(p.tech), LineIf(EscTrim(p.description)), Given("", p.description));
    LinesSayBoth(LineIf(TechList(p.tech)) + LineIf(EscTrim(p.description)), EscAll(p.tech) + Given("", p.description),
                 SmallIf(UrlLink(p.link)), link);
    LinesSayBoth([WorkTop(p)], top, WorkDetails(p), EscAll(p.tech) + Given("", p.description) + link);
    LinesEnd([WorkTop(p)] + WorkDetails(p), top + (EscAll(p.tech) + Given("", p.description) + link), [SPACE_4]);
    assert top + (EscAll(p.tech) + Given("", p.description) + link) == WorkParts(p);
  }

  function StudyParts(e: Education): seq<string> {
    [EscapeLatex(Or(e.degree, "Degree")), EscapeLatex(Or(e.school, "Institution"))] + Given(", ", e.location)
    + [DateRange(e.startDate, e.endDate)] + Given("CGPA: ", e.cgpa)
  }

  lemma StudyLineSays(degree: string, school: string, location: string, place: seq<string>, dates: string)
    requires Says(location, place)
    ensures Says(StudyLine(degree, school, location, dates), [degree, school] + place + [dates])
  {
    hide Says;
    SaysItself(degree);
    SaysItself(school);
    SaysItself(dates);
    Starts("\\textbf{", degree, [degree]);
    Goes("\\textbf{" + degree, [degree], "} --- ", school, [school]);
    assert [degree] + [school] == [degree, school];
    SaysBoth("\\textbf{" + degree + "} --- " + school, [degree, school], location, place);
    var head := "\\textbf{" + degree + "} --- " + school + location;
    Goes(head, [degree, school] + place, " \\hfill {\\small \\color{accent} ", dates, [dates]);
    Ends(head + " \\hfill {\\small \\color{accent} " + dates, [degree, school] + place + [dates], "} \\\\");
  }

  lemma StudySays(e: Education)
    ensures LinesSay(StudyLines(e), StudyParts(e))
  {
    hide LinesSay, Says, EscapeLatex, Or, Prefixed, DateRange, Given, SmallIf, StudyLine;
    var degree, school := EscapeLatex(Or(e.degree, "Degree")), EscapeLatex(Or(e.school, "Institution"));
    var dates, place, grade := DateRange(e.startDate, e.endDate), Given(", ", e.location), Given("CGPA: ", e.cgpa);
    PrefixedSays(", ", e.location);
    StudyLineSays(degree, school, Prefixed(", ", e.location), place, dates);
    LineSays(StudyTop(e), [degree, school] + place + [dates]);
    PrefixedSays("CGPA: ", e.cgpa);
    LineIfSays(Prefixed("CGPA: ", e.cgpa), grade);
    LinesSayBoth([StudyTop(e)], [degree, school] + place + [dates], SmallIf(Prefixed("CGPA: ", e.cgpa)), grade);
    LinesEnd([StudyTop(e)] + SmallIf(Prefixed("CGPA: ", e.cgpa)), [degree, school] + place + [dates] + grade,
             [SPACE_4]);
  }

  function DiplomaParts(c: Certification): seq<string> {
    [EscapeLatex(Or(c.name, "Cert"))] + Given("--- ", c.issuer) + Given("", c.date)
    + (if AllSpace(c.url) then [] else ["\\href{" + Target(c.url) + "}", "Verify"])
  }

  lemma CustomVerifySays(url: string)
    ensures Says(CustomVerify(url), if AllSpace(url) then [] else ["\\href{" + Target(url) + "}", "Verify"])
  {
    hide Says, Trim, AllSpace, Target;
    BlankIff(url);
    SaysNothing("");
    HrefSays(Target(url), "Verify");
    assert "\\href{" + Target(url) + "}{" + "Verify" + "}" == "\\href{" + Target(url) + "}{Verify}";
  }

  lemma DiplomaLineSays(name: string, issuer: string, giver: seq<string>, date: string, day: seq<string>, link: string,
                        target: seq<string>)
    requires Says(issuer, giver) && Says(date, day) && Says(link, target)
    ensures Says(DiplomaLine(name, issuer, date, link), [name] + giver + day + target)
  {
    hide Says;
    SaysItself(name);
    Starts("\\textbf{", name, [name]);
    Goes("\\textbf{" + name, [name], "} ", issuer, giver);
    var head := "\\textbf{" + name + "} " + issuer;
    Goes(head, [name] + giver, " \\hfill {\\small \\color{accent} ", date, day);
    Ends(head + " \\hfill {\\small \\color{accent} " + date, [name] + giver + day, "} ");
    var tail := if link != "" then "\\; " + link else "";
    if link != "" { Starts("\\; ", link, target); }
    SaysBoth(head + " \\hfill {\\small \\color{accent} " + date + "} ", [name] + giver + day, tail, target);
    Ends(head + " \\hfill {\\small \\color{accent} " + date + "} " + tail, [name] + giver + day + target, " \\\\");
  }

  lemma DiplomaSays(c: Certification)
    ensures LinesSay(DiplomaLines(c), DiplomaParts(c))
  {
    hide LinesSay, Says, EscapeLatex, Or, Prefixed, EscTrim, CustomVerify, DiplomaLine, Given, Target, AllSpace;
    var to := if AllSpace(c.url) then [] else ["\\href{" + Target(c.url) + "}", "Verify"];
    PrefixedSays("--- ", c.issuer);
    TextSays(c.date);
    CustomVerifySays(c.url);
    DiplomaLineSays(EscapeLatex(Or(c.name, "Cert")), Prefixed("--- ", c.issuer), Given("--- ", c.issuer),
                    EscTrim(c.date), Given("", c.date), CustomVerify(c.url), to);
    LineSays(DiplomaTop(c), DiplomaParts(c));
    LinesEnd([DiplomaTop(c)], DiplomaParts(c), [SPACE_3]);
    assert [DiplomaTop(c)] + [SPACE_3] == DiplomaLines(c);
  }

  // ---- what a section says

  function OwnParts(d: ResumeData, id: SectionId): seq<string> {
    match id
    case Summary => EscAll(Paragraphs(Trim(d.info.summary)))
    case Skills =>
      var rows := SkillRows(d.skills);
      if |rows| == 1 && rows[0].name == "Skills" then [rows[0].value] else Each(rows, RowParts)
    case ExperienceId => Each(d.experience, JobParts)
    case Projects => Each(d.projects, WorkParts)
    case EducationId => Each(d.education, StudyParts)
    case Certifications => Each(d.certifications, DiplomaParts)
  }

  lemma OwnLinesSay(d: ResumeData, id: SectionId)
    ensures LinesSay(OwnLines(d, id), OwnParts(d, id))
  {
    hide LinesSay, Says, SkillRows, SkillTable, JobLines, WorkLines, StudyLines, DiplomaLines, JobParts, WorkParts,
        StudyParts, DiplomaParts, Each, Paragraphs, EscAll, Trim;
    match id
    case Summary =>
      JoinSays(EscAll(Paragraphs(Trim(d.info.summary))), "\n\n");
      LineSays(FormatSummary(d.info.summary), EscAll(Paragraphs(Trim(d.info.summary))));
    case Skills =>
      var rows := SkillRows(d.skills);
      SkillTableSays(rows);
      if |rows| == 1 {
        SaysItself(rows[0].value);
        LineSays(rows[0].value, [rows[0].value]);
      }
    case ExperienceId =>
      forall e: Experience ensures LinesSay(JobLines(e), JobParts(e)) { JobSays(e); }
      EachSays(d.experience, JobLines, JobParts);
    case Projects =>
      forall p: Project ensures LinesSay(WorkLines(p), WorkParts(p)) { WorkSays(p); }
      EachSays(d.projects, WorkLines, WorkParts);
    case EducationId =>
      forall e: Education ensures LinesSay(StudyLines(e), StudyParts(e)) { StudySays(e); }
      EachSays(d.education, StudyLines, StudyParts);
    case Certifications =>
      forall c: Certification ensures LinesSay(DiplomaLines(c), DiplomaParts(c)) { DiplomaSays(c); }
      EachSays(d.certifications, DiplomaLines, DiplomaParts);
  }

  function BlockParts(d: ResumeData): SectionId -> seq<string> {
    (id: SectionId) => [Title(id)] + OwnParts(d, id)
  }

  lemma BlockSays(d: ResumeData, id: SectionId)
    ensures LinesSay(Block(d)(id), BlockParts(d)(id))
  {
    hide LinesSay, OwnLines, OwnParts, Title;
    OwnLinesSay(d, id);
    HeadedSays(Title(id), OwnLines(d, id), OwnParts(d, id));
  }

  // ---- the header

  function ContactParts(p: PersonalInfo): seq<string> {
    MailParts(p.email) + Given("", p.phone) + Each(p.links, LinkParts)
  }

  function HeaderParts(p: PersonalInfo): seq<string> {
    [EscapeLatex(Or(p.fullName, "Your Name"))] + Given("", p.location)
    + [EscapeLatex(Or(p.headline, "FULL STACK DEVELOPER"))] + ContactParts(p)
  }

  lemma MailSays(email: string)
    ensures AllSpace(email) ==> MailPart(email) == []
    ensures !AllSpace(email) ==> |MailPart(email)| == 1 && Says(MailPart(email)[0], MailParts(email))
  {
    hide Says, Trim, AllSpace, Target, EscapeLatex;
    BlankIff(email);
    HrefSays("mailto:" + Target(email), EscTrim(email));
    assert "\\href{" + ("mailto:" + Target(email)) + "}" == "\\href{mailto:" + Target(email) + "}";
    assert "\\href{" + ("mailto:" + Target(email)) + "}{" + EscTrim(email) + "}"
        == CustomMail(Target(email), EscTrim(email));
  }

  lemma LinkSays(l: Link)
    requires !AllSpace(l.url)
    ensures Says(CustomLink(l), LinkParts(l))
  {
    hide Says, AllSpace, Target, EscapeLatex;
    HrefSays(Target(l.url), LinkName(l));
  }

  lemma LinksSay(links: seq<Link>)
    ensures Says(Join(CustomLinks(WithUrl(links)), BAR), Each(links, LinkParts))
  {
    hide Says, CustomLink, LinkParts, AllSpace;
    WithUrlParts(links);
    forall l | l in WithUrl(links) ensures Says(CustomLink(l), LinkParts(l)) { LinkSays(l); }
    JoinEachSays(WithUrl(links), CustomLink, LinkParts, BAR);
    assert CustomLinks(WithUrl(links)) == Texts(WithUrl(links), CustomLink);
  }

  lemma ContactSays(p: PersonalInfo)
    ensures Says(AllContact(p), ContactParts(p))
  {
    hide Says, Join, AllSpace, EscTrim, Given, MailPart, MailParts, PhonePart, CustomLinks, WithUrl, LinkParts, Each;
    MailJoined(p.email);
    PhoneJoined(p.phone);
    JoinedSay(MailPart(p.email), MailParts(p.email), PhonePart(p.phone), Given("", p.phone), BAR);
    LinksSay(p.links);
    NoLinks(p.links);
    NoContact(p);
    JoinedSay(MailPart(p.email) + PhonePart(p.phone), MailParts(p.email) + Given("", p.phone),
              CustomLinks(WithUrl(p.links)), Each(p.links, LinkParts), BAR);
  }

  lemma MailJoined(email: string)
    ensures Says(Join(MailPart(email), BAR), MailParts(email)) && (MailPart(email) == [] ==> MailParts(email) == [])
  {
    hide Says, Join, AllSpace, Trim, CustomMail;
    MailSays(email);
    SaysNothing(Join(MailPart(email), BAR));
    if MailPart(email) != [] {
      OneJoined(MailPart(email)[0], BAR);
      assert MailPart(email) == [MailPart(email)[0]];
    }
  }

  lemma PhoneJoined(phone: string)
    ensures Says(Join(PhonePart(phone), BAR), Given("", phone)) && (PhonePart(phone) == [] ==> Given("", phone) == [])
  {
    hide Says, Join, AllSpace, Trim, EscapeLatex;
    BlankIff(phone);
    TextSays(phone);
    SaysNothing(Join(PhonePart(phone), BAR));
    OneJoined(EscTrim(phone), BAR);
  }

  lemma NoLinks(links: seq<Link>)
    ensures CustomLinks(WithUrl(links)) == [] ==> Each(links, LinkParts) == []
  {
    hide LinkParts, WithUrl;
    WithUrlParts(links);
    assert |CustomLinks(WithUrl(links))| == |WithUrl(links)|;
  }

  lemma NoContact(p: PersonalInfo)
    requires MailPart(p.email) == [] ==> MailParts(p.email) == []
    requires PhonePart(p.phone) == [] ==> Given("", p.phone) == []
    ensures MailPart(p.email) + PhonePart(p.phone) == [] ==> MailParts(p.email) + Given("", p.phone) == []
  {
    hide MailPart, PhonePart, MailParts, Given;
    if MailPart(p.email) + PhonePart(p.phone) == [] {
      assert |MailPart(p.email)| == 0 && |PhonePart(p.phone)| == 0;
    }
  }

  lemma CenterLineSays(text: string, gap: string, parts: seq<string>)
    requires Says(text, parts)
    ensures LinesSay([CenterLine(text, gap)], parts)
  {
    hide Says;
    Starts("  {", text, parts);
    Ends("  {" + text, parts, "} \\\\[");
    Ends("  {" + text + "} \\\\[", parts, gap);
    Ends("  {" + text + "} \\\\[" + gap, parts, "]");
    LineSays(CenterLine(text, gap), parts);
  }

  lemma NameSays(p: PersonalInfo, d: Density)
    ensures Says(CustomName(p, d), [EscapeLatex(Or(p.fullName, "Your Name"))])
  {
    hide Says, EscapeLatex, Or, NameHeight, NameSkip, NAME_FONT;
    var name := EscapeLatex(Or(p.fullName, "Your Name"));
    SaysItself(name);
    Starts("\\fontsize{" + NameHeight(d) + "}{" + NameSkip(d) + "}" + NAME_FONT, name, [name]);
  }

  lemma HeadlineSays(headline: string, style: HeadingStyle)
    ensures Says(CustomHeadline(headline, style), [EscapeLatex(Or(headline, "FULL STACK DEVELOPER"))])
  {
    hide Says, EscapeLatex, Or;
    var text := EscapeLatex(Or(headline, "FULL STACK DEVELOPER"));
    SaysItself(text);
    Starts("\\MakeUppercase{", text, [text]);
    Ends("\\MakeUppercase{" + text, [text], "}");
  }

  lemma CenterLinesSay(name: string, ns: seq<string>, location: string, ls: seq<string>, headline: string,
                       hs: seq<string>, contact: string, cs: seq<string>)
    requires Says(name, ns) && Says(location, ls) && Says(headline, hs) && Says(contact, cs)
    ensures LinesSay(CenterLines(name, location, headline, contact), ns + ls + hs + cs)
  {
    hide Says, LinesSay, CenterLine, ContactLine;
    CenterLineSays(name, "2pt", ns);
    Starts("\\small \\color{accent} ", location, ls);
    CenterLineSays(PlaceText(location), "2pt", ls);
    Starts("\\large \\bfseries ", headline, hs);
    CenterLineSays(HeadlineText(headline), "4pt", hs);
    ContactLineSays(contact, cs);
    var place := if location != "" then [CenterLine(PlaceText(location), "2pt")] else [];
    var ways := if contact != "" then [ContactLine(contact)] else [];
    NothingSaid(location, ls);
    NothingSaid(contact, cs);
    LinesSayBoth([CenterLine(name, "2pt")], ns, place, ls);
    LinesSayBoth([CenterLine(name, "2pt")] + place, ns + ls, [CenterLine(HeadlineText(headline), "4pt")], hs);
    LinesSayBoth([CenterLine(name, "2pt")] + place + [CenterLine(HeadlineText(headline), "4pt")], ns + ls + hs,
                 ways, cs);
  }

  lemma NothingSaid(t: string, parts: seq<string>)
    requires Says(t, parts)
    ensures t == "" ==> LinesSay([], parts)
  {
    assert Emit([]) == "";
  }

  lemma ContactLineSays(contact: string, parts: seq<string>)
    requires Says(contact, parts)
    ensures LinesSay([ContactLine(contact)], parts)
  {
    hide Says;
    Starts("  {\\small ", contact, parts);
    Ends("  {\\small " + contact, parts, "}");
    LineSays(ContactLine(contact), parts);
  }

  lemma HeaderSays(p: PersonalInfo, c: CustomConfig)
    ensures LinesSay(CustomHeader(p, c), HeaderParts(p))
  {
    hide LinesSay, Says, CustomName, CustomHeadline, AllContact, CenterLines, ContactParts, EscapeLatex, Or, Given,
        Trim, THICK_RULE, AfterCenter;
    NameSays(p, c.density);
    TextSays(p.location);
    HeadlineSays(p.headline, c.headingStyle);
    ContactSays(p);
    CenterLinesSay(CustomName(p, c.density), [EscapeLatex(Or(p.fullName, "Your Name"))],
                   EscTrim(p.location), Given("", p.location),
                   CustomHeadline(p.headline, c.headingStyle), [EscapeLatex(Or(p.headline, "FULL STACK DEVELOPER"))],
                   AllContact(p), ContactParts(p));
    var lines := CenterLines(CustomName(p, c.density), EscTrim(p.location), CustomHeadline(p.headline, c.headingStyle),
        AllContact(p));
    LinesStart([BEGIN_CENTER], lines, HeaderParts(p));
    LinesEnd([BEGIN_CENTER] + lines, HeaderParts(p), [END_CENTER]);
    LinesStart([THICK_RULE, SPACE_6], CenterBlock(p, c), HeaderParts(p));
    LinesEnd([THICK_RULE, SPACE_6] + CenterBlock(p, c), HeaderParts(p), AfterCenter(c));
  }

  // ---- the document

  /** The header's fields, and for each section shown, in the user's order, its title and its items' fields. */
  function AllParts(d: ResumeData): seq<string> {
    HeaderParts(d.info) + Each(Shown(d, Order(d.config)), BlockParts(d))
  }

  /** Every field that is not blank stands in the document, in its place. */
  lemma CustomSays(d: ResumeData)
    ensures Says(Document(CustomLines(d)), AllParts(d))
  {
    hide Says, LinesSay, CustomHeader, CustomSections, CustomPreamble, HeaderParts, Shown, Each, Document, BlockParts,
        Block, Order;
    var order := Order(d.config);
    HeaderSays(d.info, d.config);
    SectionsAreBlocks(d, order);
    forall id: SectionId ensures LinesSay(Block(d)(id), BlockParts(d)(id)) { BlockSays(d, id); }
    EachSays(Shown(d, order), Block(d), BlockParts(d));
    LinesSayBoth(CustomHeader(d.info, d.config), HeaderParts(d.info), CustomSections(d, order),
                 Each(Shown(d, order), BlockParts(d)));
    LinesStart([BEGIN_DOCUMENT], CustomBody(d), AllParts(d));
    LinesEnd([BEGIN_DOCUMENT] + CustomBody(d), AllParts(d), [END_DOCUMENT]);
    LinesStart(CustomPreamble(d.config), [BEGIN_DOCUMENT] + CustomBody(d) + [END_DOCUMENT], AllParts(d));
    DocumentSays(CustomLines(d), AllParts(d));
  }
}
