/**
 What the source-split and the custom resume template share (apps/web/src/lib/resumeLatex.ts:120-266,
 792-940): the resume, package lines, sections, the skill table and bullet lists. Lines are the
 strings that the templates push; a long string is cut into several that are joined with `+`.
 */
module TemplateParts {
  import opened JsText
  import opened LatexEscape
  import opened LatexNesting
  import opened LatexText
  import opened LatexLines
  import opened LatexSkills
  import opened LatexBlocks

  // ---- resumes; absent text fields are empty strings

  datatype Link = Link(name: string, url: string)

  datatype PersonalInfo = PersonalInfo(
    fullName: string, email: string, phone: string, location: string, headline: string, summary: string,
    links: seq<Link>)

  datatype Experience = Experience(
    role: string, company: string, location: string, startDate: string, endDate: string, bullets: seq<string>)

  datatype Project = Project(title: string, description: string, tech: seq<string>, link: string, date: string)

  datatype Education = Education(
    degree: string, school: string, location: string, startDate: string, endDate: string, cgpa: string)

  datatype Certification = Certification(name: string, issuer: string, date: string, url: string)

  datatype SectionId = Summary | Skills | ExperienceId | Projects | EducationId | Certifications
  datatype Font = Sans | Serif | Mono | Display
  datatype Density = Compact | Comfortable | Spacious
  datatype HeadingStyle = Uppercase | Capitalize | Normal

  datatype CustomConfig = CustomConfig(
    accentColor: string, font: Font, density: Density, order: seq<SectionId>, hidden: set<SectionId>,
    showDividers: bool, headingStyle: HeadingStyle)

  datatype ResumeData = ResumeData(
    info: PersonalInfo, skills: seq<string>, projects: seq<Project>, experience: seq<Experience>,
    education: seq<Education>, certifications: seq<Certification>, config: CustomConfig)

  /** Every link target and e-mail address that is printed is good. */
  predicate GoodLinks(links: seq<Link>) { forall i :: 0 <= i < |links| ==> GoodTarget(links[i].url) }

  predicate GoodInfo(p: PersonalInfo) { GoodTarget(p.email) && GoodLinks(p.links) }

  predicate GoodTargets(d: ResumeData) {
    && GoodInfo(d.info)
    && (forall i :: 0 <= i < |d.projects| ==> GoodTarget(d.projects[i].link))
    && (forall i :: 0 <= i < |d.certifications| ==> GoodTarget(d.certifications[i].url))
  }

  // ---- preamble lines

  /** A command with an option text and an argument, both plain. */
  lemma OptionNeutral(name: string, options: string, arg: string)
    requires CommandName(name) && AllPlain(options) && AllPlain(arg)
    ensures Neutral("\\" + name + options + "{" + arg + "}")
  {
    CommandNeutral(name);
    PlainNeutral(options);
    PlainNeutral(arg);
    GroupNeutral(arg);
    Neutral3("\\" + name, options, "{" + arg + "}");
    assert "\\" + name + options + "{" + arg + "}" == "\\" + name + options + ("{" + arg + "}");
  }

  function PackageLine(options: string, name: string): string { "\\usepackage" + options + "{" + name + "}" }

  lemma PackageNeutral(options: string, name: string)
    requires AllPlain(options) && AllPlain(name)
    ensures Neutral(PackageLine(options, name))
  {
    OptionNeutral("usepackage", options, name);
    assert "\\" + "usepackage" == "\\usepackage";
  }

  const DOCUMENT_CLASS := "\\documentclass" + "[10pt,a4paper]" + "{" + "article" + "}"

  lemma DocumentClassNeutral()
    ensures Neutral(DOCUMENT_CLASS)
  {
    OptionNeutral("documentclass", "[10pt,a4paper]", "article");
    assert "\\" + "documentclass" == "\\documentclass";
  }

  lemma WordGroup(name: string)
    requires CommandName(name)
    ensures Neutral("{\\" + name + "}")
  {
    CommandNeutral(name);
    GroupNeutral("\\" + name);
    assert "{" + ("\\" + name) + "}" == "{\\" + name + "}";
  }

  lemma PlainGroup(t: string)
    requires AllPlain(t)
    ensures Neutral("{" + t + "}")
  {
    PlainNeutral(t);
    GroupNeutral(t);
  }

  const PAGE_STYLE := "\\pagestyle{empty}"
  const NO_INDENT := "\\setlength" + "{\\parindent}" + "{0pt}"
  const NO_SKIP := "\\setlength" + "{\\parskip}" + "{0pt}"
  const NO_PAGE_STYLE := [PAGE_STYLE, NO_INDENT, NO_SKIP]

  lemma PageStyleNeutral()
    ensures Neutral(PAGE_STYLE)
  {
    PlainNeutral("empty");
    AppliedNeutral("pagestyle", "empty");
    assert "\\" + "pagestyle" + "{" + "empty" + "}" == PAGE_STYLE;
  }

  lemma SetLengthNeutral()
    ensures Neutral(NO_INDENT) && Neutral(NO_SKIP)
  {
    CommandNeutral("setlength");
    WordGroup("parindent");
    WordGroup("parskip");
    PlainGroup("0pt");
    assert "\\" + "setlength" == "\\setlength" && "{" + "0pt" + "}" == "{0pt}";
    assert "{\\" + "parindent" + "}" == "{\\parindent}" && "{\\" + "parskip" + "}" == "{\\parskip}";
    Neutral3("\\setlength", "{\\parindent}", "{0pt}");
    Neutral3("\\setlength", "{\\parskip}", "{0pt}");
  }

  lemma NoPageStyleNeutral()
    ensures AllNeutral(NO_PAGE_STYLE)
  {
    PageStyleNeutral();
    SetLengthNeutral();
  }

  /** `{\color{c}\hrule height w}`. */
  function RuleText(color: string, width: string): string { "{\\color{" + color + "}\\hrule height " + width + "}" }

  lemma RuleNeutral(color: string, width: string)
    requires AllPlain(color) && AllPlain(width)
    ensures Neutral(RuleText(color, width))
  {
    ColorNeutral(color);
    RuleHeight();
    PlainNeutral(width);
    var start := "\\color{" + color + "}";
    Neutral3(start, "\\hrule height ", width);
    GroupNeutral(start + "\\hrule height " + width);
    assert "{" + (start + "\\hrule height " + width) + "}" == RuleText(color, width);
  }

  lemma ColorNeutral(color: string)
    requires AllPlain(color)
    ensures Neutral("\\color{" + color + "}")
  {
    PlainNeutral(color);
    AppliedNeutral("color", color);
    assert "\\" + "color" + "{" + color + "}" == "\\color{" + color + "}";
  }

  lemma RuleHeight()
    ensures Neutral("\\hrule height ")
  {
    WordSpace("hrule");
    PlainNeutral("height ");
    NeutralAppend("\\" + "hrule" + " ", "height ");
    assert "\\" + "hrule" + " " + "height " == "\\hrule height ";
  }

  const TITLE_HEAD := "\\titleformat" + "{\\section}"

  lemma TitleHeadNeutral()
    ensures Neutral(TITLE_HEAD)
  {
    CommandNeutral("titleformat");
    WordGroup("section");
    assert "\\" + "titleformat" == "\\titleformat" && "{\\" + "section" + "}" == "{\\section}";
    NeutralAppend("\\titleformat", "{\\section}");
  }

  const TITLE_FONT := "\\raggedright" + "\\large" + "\\bfseries"

  lemma TitleFontNeutral()
    ensures Neutral(TITLE_FONT)
  {
    CommandNeutral("raggedright");
    CommandNeutral("large");
    CommandNeutral("bfseries");
    assert "\\" + "raggedright" == "\\raggedright" && "\\" + "large" == "\\large" && "\\" + "bfseries" == "\\bfseries";
    Neutral3("\\raggedright", "\\large", "\\bfseries");
  }

  const TITLE_GAPS := "{}" + "{0em}" + "{}"

  lemma TitleGapsNeutral()
    ensures Neutral(TITLE_GAPS)
  {
    PlainGroup("");
    PlainGroup("0em");
    assert "{" + "" + "}" == "{}" && "{" + "0em" + "}" == "{0em}";
    Neutral3("{}", "{0em}", "{}");
  }

  lemma VSpaceNeutral(size: string)
    requires AllPlain(size)
    ensures Neutral("\\vspace{" + size + "}")
  {
    PlainNeutral(size);
    VSpace(size);
  }

  function TitleSpacing(before: string): string {
    "\\titlespacing*" + "{\\section}" + "{0pt}" + ("{" + before + "}") + "{4pt}"
  }

  lemma TitleSpacingNeutral(before: string)
    requires AllPlain(before)
    ensures Neutral(TitleSpacing(before))
  {
    CommandNeutral("titlespacing");
    PlainNeutral("*");
    NeutralAppend("\\" + "titlespacing", "*");
    WordGroup("section");
    PlainGroup("0pt");
    PlainGroup(before);
    PlainGroup("4pt");
    assert "\\" + "titlespacing" + "*" == "\\titlespacing*" && "{\\" + "section" + "}" == "{\\section}";
    assert "{" + "0pt" + "}" == "{0pt}" && "{" + "4pt" + "}" == "{4pt}";
    Neutral5("\\titlespacing*", "{\\section}", "{0pt}", "{" + before + "}", "{4pt}");
  }

  function SetList(mark: string, spacing: string): string {
    "\\setlist" + "[itemize]" + ("{" + "leftmargin=*, label=" + ("{" + mark + "}") + spacing + "}")
  }

  lemma SetListNeutral(mark: string, spacing: string)
    requires Neutral(mark) && AllPlain(spacing)
    ensures Neutral(SetList(mark, spacing))
  {
    CommandNeutral("setlist");
    PlainNeutral("[itemize]");
    PlainNeutral("leftmargin=*, label=");
    GroupNeutral(mark);
    PlainNeutral(spacing);
    var inner := "leftmargin=*, label=" + ("{" + mark + "}") + spacing;
    Neutral3("leftmargin=*, label=", "{" + mark + "}", spacing);
    GroupNeutral(inner);
    assert "{" + "leftmargin=*, label=" + ("{" + mark + "}") + spacing + "}" == "{" + inner + "}";
    assert "\\" + "setlist" == "\\setlist";
    Neutral3("\\setlist", "[itemize]", "{" + inner + "}");
  }

  const INPUT_ENCODING := PackageLine("[utf8]", "inputenc")
  const FONT_ENCODING := PackageLine("[T1]", "fontenc")
  const HYPERREF := PackageLine("[hidelinks]", "hyperref")
  const SOURCE_SANS := PackageLine("[default]", "sourcesanspro")
  const LAYOUT_PACKAGES := [PackageLine("", "enumitem"), PackageLine("", "titlesec"), PackageLine("", "xcolor")]

  lemma EncodingsNeutral()
    ensures Neutral(INPUT_ENCODING) && Neutral(FONT_ENCODING)
  {
    PackageNeutral("[utf8]", "inputenc");
    PackageNeutral("[T1]", "fontenc");
  }

  lemma HyperRefNeutral()
    ensures Neutral(HYPERREF)
  {
    PackageNeutral("[hidelinks]", "hyperref");
  }

  lemma SourceSansNeutral()
    ensures Neutral(SOURCE_SANS)
  {
    PackageNeutral("[default]", "sourcesanspro");
  }

  lemma LayoutNeutral()
    ensures AllNeutral(LAYOUT_PACKAGES)
  {
    PackageNeutral("", "enumitem");
    PackageNeutral("", "titlesec");
    PackageNeutral("", "xcolor");
  }

  // ---- sections

  const NOTHING: seq<string> := []

  lemma NothingBalanced()
    ensures Balanced(NOTHING) && Balanced([""])
  {
    PlainNeutral("");
    LinesBalanced(NOTHING);
    OneBalanced("");
  }

  function SectionLine(name: string): string { "\\section{" + name + "}" }

  /** The heading, the lines, and an empty line. */
  function Headed(name: string, body: seq<string>): seq<string> { [SectionLine(name)] + body + [""] }

  lemma HeadedBalanced(name: string, body: seq<string>)
    requires AllPlain(name) && Balanced(body)
    ensures Balanced(Headed(name, body))
  {
    PlainNeutral(name);
    Section(name);
    OneBalanced(SectionLine(name));
    NothingBalanced();
    Balanced3([SectionLine(name)], body, [""]);
  }

  function SectionOf<T(!new)>(name: string, items: seq<T>, f: T -> seq<string>): seq<string> {
    if items == [] then [] else Headed(name, Each(items, f))
  }

  lemma SectionBalanced<T(!new)>(name: string, items: seq<T>, f: T -> seq<string>)
    requires AllPlain(name) && forall x :: x in items ==> Balanced(f(x))
    ensures Balanced(SectionOf(name, items, f))
  {
    NothingBalanced();
    EachBalanced(items, f);
    HeadedBalanced(name, Each(items, f));
  }

  /** A section's heading, its items one by one, and an empty line; nothing when there are no items. */
  method PushSection<T(!new)>(lines: seq<string>, name: string, items: seq<T>, f: T -> seq<string>)
    returns (r: seq<string>)
    ensures r == lines + SectionOf(name, items, f)
  {
    r := lines;
    if items != [] {
      r := r + [SectionLine(name)];
      r := PushEach(r, items, f);
      r := r + [""];
    }
  }

  function SummaryLines(summary: string): seq<string> {
    var text := if Trim(summary) != "" then FormatSummary(summary) else "";
    if text == "" then [] else Headed("Summary", [text])
  }

  lemma SummaryBalanced(summary: string)
    ensures Balanced(SummaryLines(summary))
  {
    hide FormatSummary, Headed, Trim, Neutral, Balanced;
    NothingBalanced();
    SummaryNeutral(summary);
    OneBalanced(FormatSummary(summary));
    HeadedBalanced("Summary", [FormatSummary(summary)]);
  }

  // ---- the skill table

  const SKILL_LEFT := "@{ }" + " p{0.22\\textwidth}"
  const SKILL_RIGHT := " p{0.76\\textwidth}" + " @{}"
  const SKILL_COLUMNS := "{\\textwidth}" + ("{" + (SKILL_LEFT + " @{\\hspace{6pt}}" + SKILL_RIGHT) + "}")
  const BEGIN_TABULAR := "\\begin{tabular*}"
  const END_TABULAR := "\\end{tabular*}"

  lemma WidthNeutral(width: string)
    requires AllPlain(width)
    ensures Neutral(" p{" + width + "\\textwidth}")
  {
    PlainNeutral(" p");
    PlainNeutral(width);
    CommandNeutral("textwidth");
    NeutralAppend(width, "\\" + "textwidth");
    GroupNeutral(width + ("\\" + "textwidth"));
    NeutralAppend(" p", "{" + (width + ("\\" + "textwidth")) + "}");
    assert " p" + ("{" + (width + ("\\" + "textwidth")) + "}") == " p{" + width + "\\textwidth}";
  }

  lemma AtNeutral(before: string, t: string)
    requires AllPlain(before) && Neutral(t)
    ensures Neutral(before + "{" + t + "}")
  {
    PlainNeutral(before);
    GroupNeutral(t);
    NeutralAppend(before, "{" + t + "}");
    assert before + "{" + t + "}" == before + ("{" + t + "}");
  }

  lemma SkillSides()
    ensures Neutral(SKILL_LEFT) && Neutral(SKILL_RIGHT)
  {
    PlainNeutral(" ");
    PlainNeutral("");
    AtNeutral("@", " ");
    AtNeutral(" @", "");
    WidthNeutral("0.22");
    WidthNeutral("0.76");
    assert "@" + "{" + " " + "}" == "@{ }" && " @" + "{" + "" + "}" == " @{}";
    assert " p{" + "0.22" + "\\textwidth}" == " p{0.22\\textwidth}";
    assert " p{" + "0.76" + "\\textwidth}" == " p{0.76\\textwidth}";
    NeutralAppend("@{ }", " p{0.22\\textwidth}");
    NeutralAppend(" p{0.76\\textwidth}", " @{}");
  }

  lemma SkillGap()
    ensures Neutral(" @{\\hspace{6pt}}")
  {
    PlainNeutral("6pt");
    AppliedNeutral("hspace", "6pt");
    AtNeutral(" @", "\\" + "hspace" + "{" + "6pt" + "}");
    assert " @" + "{" + ("\\" + "hspace" + "{" + "6pt" + "}") + "}" == " @{\\hspace{6pt}}";
  }

  lemma TextWidthGroup()
    ensures Neutral("{\\textwidth}")
  {
    WordGroup("textwidth");
    assert "{\\" + "textwidth" + "}" == "{\\textwidth}";
  }

  lemma SkillColumnsNeutral()
    ensures Neutral(SKILL_COLUMNS)
  {
    SkillSides();
    SkillGap();
    TextWidthGroup();
    Neutral3(SKILL_LEFT, " @{\\hspace{6pt}}", SKILL_RIGHT);
    GroupNeutral(SKILL_LEFT + " @{\\hspace{6pt}}" + SKILL_RIGHT);
    NeutralAppend("{\\textwidth}", "{" + (SKILL_LEFT + " @{\\hspace{6pt}}" + SKILL_RIGHT) + "}");
  }

  function SkillLine(r: SkillRow): string { "  \\textbf{" + r.name + ":} & " + r.value + " \\\\" }

  lemma SkillLineNeutral(r: SkillRow)
    requires RowNeutral(r)
    ensures Neutral(SkillLine(r))
  {
    PlainNeutral("  ");
    PlainNeutral(":");
    PlainNeutral(" & ");
    NeutralAppend(r.name, ":");
    TextBf(r.name + ":");
    Break();
    Neutral5("  ", "\\textbf{" + (r.name + ":") + "}", " & ", r.value, " \\\\");
    assert SkillLine(r) == "  " + ("\\textbf{" + (r.name + ":") + "}") + " & " + r.value + " \\\\";
  }

  function SkillLines(rows: seq<SkillRow>): (r: seq<string>)
    ensures |r| == |rows| && forall i :: 0 <= i < |r| ==> r[i] == SkillLine(rows[i])
  {
    seq(|rows|, i requires 0 <= i < |rows| => SkillLine(rows[i]))
  }

  /** The line that begins the table, one line per row, and the line that ends it. */
  function SkillTable(rows: seq<SkillRow>): seq<string> {
    [BEGIN_TABULAR + SKILL_COLUMNS] + SkillLines(rows) + [END_TABULAR]
  }

  lemma TabularBalanced(args: string, body: seq<string>)
    requires Neutral(args) && Balanced(body)
    ensures Balanced([BEGIN_TABULAR + args] + body + [END_TABULAR])
  {
    assert "\\begin{" + "tabular*" + "}" == BEGIN_TABULAR && "\\end{" + "tabular*" + "}" == END_TABULAR;
    EnvironmentBalanced(BEGIN_TABULAR + args, "tabular*", args, body, END_TABULAR);
  }

  lemma SkillTableBalanced(skills: seq<string>)
    ensures Balanced(SkillTable(SkillRows(skills)))
  {
    var rows := SkillRows(skills);
    SkillRowsNeutral(skills);
    forall i | 0 <= i < |rows| ensures Neutral(SkillLines(rows)[i]) {
      assert rows[i] in rows;
      SkillLineNeutral(rows[i]);
    }
    LinesBalanced(SkillLines(rows));
    SkillColumnsNeutral();
    TabularBalanced(SKILL_COLUMNS, SkillLines(rows));
  }

  // ---- bullet lists

  const SPACE_2 := "\\vspace{2pt}"
  const SPACE_3 := "\\vspace{3pt}"
  const SPACE_4 := "\\vspace{4pt}"
  const SPACE_6 := "\\vspace{6pt}"

  lemma SpacesNeutral()
    ensures Neutral(SPACE_2) && Neutral(SPACE_3) && Neutral(SPACE_4) && Neutral(SPACE_6)
  {
    VSpaceNeutral("2pt");
    VSpaceNeutral("3pt");
    VSpaceNeutral("4pt");
    VSpaceNeutral("6pt");
    assert "\\vspace{" + "2pt" + "}" == SPACE_2 && "\\vspace{" + "3pt" + "}" == SPACE_3;
    assert "\\vspace{" + "4pt" + "}" == SPACE_4 && "\\vspace{" + "6pt" + "}" == SPACE_6;
  }

  const ITEM := "  \\item "

  lemma ItemStart()
    ensures Neutral(ITEM)
  {
    PlainNeutral("  ");
    WordSpace("item");
    NeutralAppend("  ", "\\" + "item" + " ");
    assert "  " + ("\\" + "item" + " ") == ITEM;
  }

  lemma ItemNeutral(bullet: string)
    ensures Neutral(ITEM + FormatBullet(bullet))
  {
    ItemStart();
    BulletTextNeutral(bullet);
    NeutralAppend(ITEM, FormatBullet(bullet));
  }

  function ItemLines(bullets: seq<string>): (r: seq<string>)
    ensures |r| == |bullets| && forall i :: 0 <= i < |r| ==> r[i] == ITEM + FormatBullet(bullets[i])
  {
    seq(|bullets|, i requires 0 <= i < |bullets| => ITEM + FormatBullet(bullets[i]))
  }

  const BEGIN_ITEMIZE := "\\begin{itemize}"
  const END_ITEMIZE := "\\end{itemize}"

  /** The line that begins the list, one line per bullet, and the line that ends it; a gap when there is none. */
  function BulletLines(options: string, bullets: seq<string>): seq<string> {
    var shown := TrimmedNonEmpty(bullets);
    if shown == [] then [SPACE_2] else [BEGIN_ITEMIZE + options] + ItemLines(shown) + [END_ITEMIZE]
  }

  lemma BulletsBalanced(options: string, bullets: seq<string>)
    requires AllPlain(options)
    ensures Balanced(BulletLines(options, bullets))
  {
    var shown := TrimmedNonEmpty(bullets);
    SpacesNeutral();
    OneBalanced(SPACE_2);
    PlainNeutral(options);
    forall i | 0 <= i < |shown| ensures Neutral(ItemLines(shown)[i]) { ItemNeutral(shown[i]); }
    LinesBalanced(ItemLines(shown));
    ItemizeBalanced(options, ItemLines(shown));
  }

  lemma ItemizeBalanced(options: string, body: seq<string>)
    requires Neutral(options) && Balanced(body)
    ensures Balanced([BEGIN_ITEMIZE + options] + body + [END_ITEMIZE])
  {
    assert "\\begin{" + "itemize" + "}" == BEGIN_ITEMIZE && "\\end{" + "itemize" + "}" == END_ITEMIZE;
    EnvironmentBalanced(BEGIN_ITEMIZE + options, "itemize", options, body, END_ITEMIZE);
  }

  // ---- links

  function WithUrl(links: seq<Link>): seq<Link> {
    if links == [] then []
    else (if Trim(links[0].url) == "" then [] else [links[0]]) + WithUrl(links[1..])
  }

  lemma {:induction false} WithUrlGood(links: seq<Link>)
    requires GoodLinks(links)
    ensures GoodLinks(WithUrl(links))
  {
    hide GoodTarget, Trim;
    if links != [] { WithUrlGood(links[1..]); }
  }

  function LinkName(l: Link): string { EscapeLatex(if l.name == "" then "Link" else l.name) }

  const BAR := " $|$ "

  lemma BarNeutral()
    ensures Neutral(BAR)
  {
    PlainNeutral(BAR);
  }

  /** The technologies in italics, with dots between them. */
  function TechList(tech: seq<string>): string {
    if tech == [] then "" else "\\textit{" + Join(EscAll(tech), " $\\cdot$ ") + "}"
  }

  lemma TechNeutral(tech: seq<string>)
    ensures Neutral(TechList(tech))
  {
    PlainNeutral("");
    PlainNeutral(" $");
    CommandNeutral("cdot");
    PlainNeutral("$ ");
    Neutral3(" $", "\\" + "cdot", "$ ");
    assert " $" + ("\\" + "cdot") + "$ " == " $\\cdot$ ";
    JoinEscaped(tech, " $\\cdot$ ");
    TextIt(Join(EscAll(tech), " $\\cdot$ "));
  }

  // ---- the whole document

  lemma Balanced4(a: seq<string>, b: seq<string>, c: seq<string>, d: seq<string>)
    requires Balanced(a) && Balanced(b) && Balanced(c) && Balanced(d)
    ensures Balanced(a + b + c + d)
  {
    Balanced3(a, b, c);
    BalancedAppend(a + b + c, d);
  }

  const BEGIN_DOCUMENT := "\\begin{document}"
  const END_DOCUMENT := "\\end{document}"

  lemma WholeNested(preamble: seq<string>, body: seq<string>)
    requires Balanced(preamble) && Balanced(body)
    ensures WellNested(Document(preamble + ([BEGIN_DOCUMENT] + body + [END_DOCUMENT])))
  {
    PlainNeutral("");
    assert "\\begin{" + "document" + "}" + "" == BEGIN_DOCUMENT && "\\end{" + "document" + "}" == END_DOCUMENT;
    EnvironmentBalanced(BEGIN_DOCUMENT, "document", "", body, END_DOCUMENT);
    BalancedAppend(preamble, [BEGIN_DOCUMENT] + body + [END_DOCUMENT]);
    DocumentNested(preamble + ([BEGIN_DOCUMENT] + body + [END_DOCUMENT]));
  }
}
