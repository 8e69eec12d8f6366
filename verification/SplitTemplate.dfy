/** The source-split resume template (apps/web/src/lib/resumeLatex.ts:120-266). */
module SplitTemplate {
  import opened JsText
  import opened LatexEscape
  import opened LatexNesting
  import opened LatexText
  import opened LatexLines
  import opened LatexSkills
  import opened LatexBlocks
  import opened TemplateParts

  // ---- preamble

  const TITLE_INNER := "\\vspace{-4pt}" + TITLE_FONT
  const TITLE_RULE := "[" + "\\vspace{-2pt}" + RuleText("black", "0.4pt") + "\\vspace{-5pt}" + "]"
  const TITLE_FORMAT := TITLE_HEAD + ("{" + TITLE_INNER + "}") + TITLE_GAPS + TITLE_RULE
  const LIST_SPACING := ", itemsep=1pt, parsep=0pt," + " topsep=3pt, partopsep=0pt"

  const PROGRAM_NOTE := " !TEX program = pdflatex"
  const MADE_NOTE := " Generated by CampusFlow \U{2014} " + "Source Sans Split " + "(Exact Overleaf PDF Replica)"
  const PASTE_NOTE := " Paste into Overleaf main.tex " + "\U{2192} Recompile (pdflatex)."
  const REQUIRES_NOTE := " Requires sourcesanspro, geometry," + " enumitem, titlesec, xcolor," + " hyperref, tabularx"
  const USE_NOTE := PASTE_NOTE + REQUIRES_NOTE
  const HEADER_NOTE := " ---------- HEADER (split" + " left/right, pipe separators," + " underline) ----------"

  const NOTES := ["%" + PROGRAM_NOTE, "%" + MADE_NOTE, "%" + USE_NOTE]

  const MARGIN := PackageLine("[margin=0.5in]", "geometry")
  const TABULARX := PackageLine("", "tabularx")

  const PACKAGES :=
    [DOCUMENT_CLASS, INPUT_ENCODING, FONT_ENCODING, SOURCE_SANS, MARGIN] + LAYOUT_PACKAGES + [TABULARX, HYPERREF]

  const BULLET_LIST := SetList("\\textbullet", LIST_SPACING)
  const STYLE := NO_PAGE_STYLE + [TITLE_FORMAT, TitleSpacing("6pt"), BULLET_LIST]
  const PREAMBLE := NOTES + PACKAGES + STYLE

  lemma TitleRuleNeutral()
    ensures Neutral(TITLE_RULE)
  {
    PlainNeutral("[");
    PlainNeutral("]");
    VSpaceNeutral("-2pt");
    VSpaceNeutral("-5pt");
    RuleNeutral("black", "0.4pt");
    assert "\\vspace{" + "-2pt" + "}" == "\\vspace{-2pt}" && "\\vspace{" + "-5pt" + "}" == "\\vspace{-5pt}";
    Neutral5("[", "\\vspace{-2pt}", RuleText("black", "0.4pt"), "\\vspace{-5pt}", "]");
  }

  lemma TitleFormatNeutral()
    ensures Neutral(TITLE_FORMAT)
  {
    VSpaceNeutral("-4pt");
    assert "\\vspace{" + "-4pt" + "}" == "\\vspace{-4pt}";
    TitleFontNeutral();
    NeutralAppend("\\vspace{-4pt}", TITLE_FONT);
    GroupNeutral(TITLE_INNER);
    TitleHeadNeutral();
    TitleGapsNeutral();
    TitleRuleNeutral();
    Neutral4(TITLE_HEAD, "{" + TITLE_INNER + "}", TITLE_GAPS, TITLE_RULE);
  }

  lemma ListSpacingPlain()
    ensures AllPlain(LIST_SPACING)
  {
  }

  lemma ListNeutral()
    ensures Neutral(BULLET_LIST)
  {
    CommandNeutral("textbullet");
    assert "\\" + "textbullet" == "\\textbullet";
    ListSpacingPlain();
    SetListNeutral("\\textbullet", LIST_SPACING);
  }

  lemma NotesBalanced()
    ensures Balanced(NOTES)
  {
    ProgramNote();
    MadeNote();
    UseNote();
    ThreeNotes(PROGRAM_NOTE, MADE_NOTE, USE_NOTE);
  }

  lemma ThreeNotes(a: string, b: string, c: string)
    requires '\n' !in a && '\n' !in b && '\n' !in c
    ensures Balanced(["%" + a, "%" + b, "%" + c])
  {
    CommentLine(a);
    CommentLine(b);
    CommentLine(c);
    Balanced3(["%" + a], ["%" + b], ["%" + c]);
    assert ["%" + a] + ["%" + b] + ["%" + c] == ["%" + a, "%" + b, "%" + c];
  }

  lemma ProgramNote()
    ensures '\n' !in PROGRAM_NOTE
  {
  }

  lemma MadeNote()
    ensures '\n' !in MADE_NOTE
  {
  }

  lemma PasteNote()
    ensures '\n' !in PASTE_NOTE
  {
  }

  lemma RequiresNote()
    ensures '\n' !in REQUIRES_NOTE
  {
  }

  lemma UseNote()
    ensures '\n' !in USE_NOTE
  {
    hide PASTE_NOTE, REQUIRES_NOTE;
    PasteNote();
    RequiresNote();
  }

  lemma HeaderNote()
    ensures '\n' !in HEADER_NOTE
  {
  }

  lemma MarginNeutral()
    ensures Neutral(MARGIN)
  {
    PackageNeutral("[margin=0.5in]", "geometry");
  }

  lemma TabularxNeutral()
    ensures Neutral(TABULARX)
  {
    PackageNeutral("", "tabularx");
  }

  lemma PackagesBalanced()
    ensures Balanced(PACKAGES)
  {
    DocumentClassNeutral();
    EncodingsNeutral();
    SourceSansNeutral();
    MarginNeutral();
    LayoutNeutral();
    TabularxNeutral();
    HyperRefNeutral();
    LinesBalanced(PACKAGES);
  }

  lemma StyleBalanced()
    ensures Balanced(STYLE)
  {
    NoPageStyleNeutral();
    LinesBalanced(NO_PAGE_STYLE);
    TitleFormatNeutral();
    TitleSpacingNeutral("6pt");
    ListNeutral();
    ThreeLines(TITLE_FORMAT, TitleSpacing("6pt"), BULLET_LIST);
    BalancedAppend(NO_PAGE_STYLE, [TITLE_FORMAT, TitleSpacing("6pt"), BULLET_LIST]);
  }

  lemma PreambleBalanced()
    ensures Balanced(PREAMBLE)
  {
    NotesBalanced();
    PackagesBalanced();
    StyleBalanced();
    Balanced3(NOTES, PACKAGES, STYLE);
  }

  // ---- header

  function LinkText(l: Link): string { "\\href{" + Target(l.url) + "}{\\underline{" + LinkName(l) + "}}" }

  function LinkTexts(links: seq<Link>): (r: seq<string>)
    ensures |r| == |links| && forall i :: 0 <= i < |r| ==> r[i] == LinkText(links[i])
  {
    seq(|links|, i requires 0 <= i < |links| => LinkText(links[i]))
  }

  function MailLink(address: string, text: string): string {
    "\\href{mailto:" + address + "}{\\underline{" + text + "}}"
  }

  function MailText(email: string): string { MailLink(Target(email), EscTrim(email)) }

  function Contact(p: PersonalInfo): seq<string> {
    (if Trim(p.email) != "" then [MailText(p.email)] else []) + (if Trim(p.phone) != "" then [EscTrim(p.phone)] else [])
  }

  lemma UnderlinedLink(url: string, name: string)
    requires Neutral(url) && Neutral(name)
    ensures Neutral("\\href{" + url + "}{\\underline{" + name + "}}")
  {
    Underline(name);
    Href(url, "\\underline{" + name + "}");
    assert "\\href{" + url + "}{" + ("\\underline{" + name + "}") + "}"
        == "\\href{" + url + "}{\\underline{" + name + "}}";
  }

  lemma LinkTextsNeutral(links: seq<Link>)
    requires GoodLinks(links)
    ensures AllNeutral(LinkTexts(links))
  {
    forall i | 0 <= i < |links| ensures Neutral(LinkTexts(links)[i]) {
      GoodTargetIff(links[i].url);
      EscapedNeutral(if links[i].name == "" then "Link" else links[i].name);
      UnderlinedLink(Target(links[i].url), LinkName(links[i]));
    }
  }

  lemma MailLinkNeutral(address: string, text: string)
    requires Neutral(address) && Neutral(text)
    ensures Neutral(MailLink(address, text))
  {
    var url := "mailto:" + address;
    PlainNeutral("mailto:");
    NeutralAppend("mailto:", address);
    UnderlinedLink(url, text);
    assert MailLink(address, text) == "\\href{" + url + "}{\\underline{" + text + "}}";
  }

  lemma MailNeutral(email: string)
    requires GoodTarget(email)
    ensures Neutral(MailText(email))
  {
    GoodTargetIff(email);
    EscapedNeutral(Trim(email));
    MailLinkNeutral(Target(email), EscTrim(email));
  }

  lemma ContactNeutral(p: PersonalInfo)
    requires GoodInfo(p)
    ensures AllNeutral(Contact(p))
  {
    hide MailText, Neutral, EscapeLatex, Trim;
    MailNeutral(p.email);
    EscapedNeutral(Trim(p.phone));
  }

  function LinkCells(p: PersonalInfo): string { Join(LinkTexts(WithUrl(p.links)), BAR) }
  function ContactCells(p: PersonalInfo): string { Join(Contact(p), BAR) }

  lemma CellsNeutral(p: PersonalInfo)
    requires GoodInfo(p)
    ensures Neutral(LinkCells(p)) && Neutral(ContactCells(p))
  {
    BarNeutral();
    WithUrlGood(p.links);
    LinkTextsNeutral(WithUrl(p.links));
    ContactNeutral(p);
    JoinNeutral(LinkTexts(WithUrl(p.links)), BAR);
    JoinNeutral(Contact(p), BAR);
  }

  /** `{\textwidth}{@{\extracolsep{\fill}} l r}` */
  function SpreadColumns(columns: string): string { "{\\textwidth}" + ("{" + STRETCH + columns + "}") }

  const STRETCH := "@{\\extracolsep{\\fill}}"

  lemma StretchNeutral()
    ensures Neutral(STRETCH)
  {
    hide Neutral;
    CommandNeutral("fill");
    AppliedNeutral("extracolsep", "\\" + "fill");
    AtNeutral("@", "\\" + "extracolsep" + "{" + ("\\" + "fill") + "}");
    assert "@" + "{" + ("\\" + "extracolsep" + "{" + ("\\" + "fill") + "}") + "}" == STRETCH;
  }

  lemma SpreadNeutral(columns: string)
    requires AllPlain(columns)
    ensures Neutral(SpreadColumns(columns))
  {
    TextWidthGroup();
    StretchNeutral();
    PlainNeutral(columns);
    DeclaredNeutral(STRETCH, columns);
    NeutralAppend("{\\textwidth}", "{" + STRETCH + columns + "}");
  }

  const NAME_SIZE := "\\fontsize" + "{24.8}" + "{28}" + "\\selectfont "

  lemma NameSizeNeutral()
    ensures Neutral(NAME_SIZE)
  {
    CommandNeutral("fontsize");
    PlainGroup("24.8");
    PlainGroup("28");
    WordSpace("selectfont");
    assert "\\" + "fontsize" == "\\fontsize" && "\\" + "selectfont" + " " == "\\selectfont ";
    assert "{" + "24.8" + "}" == "{24.8}" && "{" + "28" + "}" == "{28}";
    Neutral4("\\fontsize", "{24.8}", "{28}", "\\selectfont ");
  }

  function NameLine(name: string, location: string): string {
    "  {" + NAME_SIZE + "\\bfseries " + name + "} & {\\small " + location + "} \\\\"
  }

  lemma NameLineNeutral(name: string, location: string)
    requires Neutral(name) && Neutral(location)
    ensures Neutral(NameLine(name, location))
  {
    hide Neutral;
    NameSizeNeutral();
    WordSpace("bfseries");
    assert "\\" + "bfseries" + " " == "\\bfseries ";
    NeutralAppend(NAME_SIZE, "\\bfseries ");
    DeclaredNeutral(NAME_SIZE + "\\bfseries ", name);
    CellsLine("{" + (NAME_SIZE + "\\bfseries ") + name + "}", location);
    assert NameLine(name, location)
        == "  " + ("{" + (NAME_SIZE + "\\bfseries ") + name + "}") + " & {\\small " + location + "} \\\\";
  }

  lemma CellsLine(left: string, right: string)
    requires Neutral(left) && Neutral(right)
    ensures Neutral("  " + left + " & {\\small " + right + "} \\\\")
  {
    PlainNeutral("  ");
    PlainNeutral(" & ");
    Small(right);
    Break();
    Neutral5("  ", left, " & ", "{\\small " + right + "}", " \\\\");
    assert "  " + left + " & {\\small " + right + "} \\\\"
        == "  " + left + " & " + ("{\\small " + right + "}") + " \\\\";
  }

  function CellLine(links: string, contact: string): string {
    "  {\\small " + links + "} & {\\small " + contact + "} \\\\"
  }

  lemma CellLineNeutral(links: string, contact: string)
    requires Neutral(links) && Neutral(contact)
    ensures Neutral(CellLine(links, contact))
  {
    Small(links);
    CellsLine("{\\small " + links + "}", contact);
    assert CellLine(links, contact) == "  " + ("{\\small " + links + "}") + " & {\\small " + contact + "} \\\\";
  }

  function HeadlineLine(headline: string): string { "{\\large \\bfseries \\MakeUppercase{" + headline + "}} \\\\" }

  lemma HeadlineNeutral(headline: string)
    requires Neutral(headline)
    ensures Neutral(HeadlineLine(headline))
  {
    Uppercased(headline);
    LargeBold("\\MakeUppercase{" + headline + "}");
    Break();
    NeutralAppend("{\\large \\bfseries " + ("\\MakeUppercase{" + headline + "}") + "}", " \\\\");
    assert HeadlineLine(headline) == ("{\\large \\bfseries " + ("\\MakeUppercase{" + headline + "}") + "}") + " \\\\";
  }

  const DEFAULT_HEADLINE := "FULL STACK DEVELOPER"

  function Headline(p: PersonalInfo): string {
    if Trim(p.headline) != "" then EscTrim(p.headline) else DEFAULT_HEADLINE
  }

  function HeaderCells(name: string, location: string, links: string, contact: string): seq<string> {
    [NameLine(name, location)] + (if links != "" || contact != "" then [CellLine(links, contact)] else [])
  }

  lemma HeaderCellsBalanced(name: string, location: string, links: string, contact: string)
    requires Neutral(name) && Neutral(location) && Neutral(links) && Neutral(contact)
    ensures Balanced(HeaderCells(name, location, links, contact))
  {
    NameLineNeutral(name, location);
    OneBalanced(NameLine(name, location));
    CellLineNeutral(links, contact);
    OneBalanced(CellLine(links, contact));
    NothingBalanced();
    BalancedAppend([NameLine(name, location)], if links != "" || contact != "" then [CellLine(links, contact)] else []);
  }

  const HAIRLINE := RuleText("black", "0.4pt")

  function HeaderTable(p: PersonalInfo): seq<string> {
    [BEGIN_TABULAR + SpreadColumns(" l r")]
    + HeaderCells(EscapeLatex(Or(p.fullName, "Jane Doe")), EscTrim(p.location), LinkCells(p), ContactCells(p))
    + [END_TABULAR]
  }

  function HeaderEnd(headline: string): seq<string> {
    [SPACE_2, HAIRLINE, SPACE_4] + [HeadlineLine(headline), SPACE_4, ""]
  }

  function Header(p: PersonalInfo): seq<string> {
    ["", "%" + HEADER_NOTE] + HeaderTable(p) + HeaderEnd(Headline(p))
  }

  lemma HeaderTableBalanced(p: PersonalInfo)
    requires GoodInfo(p)
    ensures Balanced(HeaderTable(p))
  {
    hide EscapeLatex, EscTrim, Or, LinkCells, ContactCells, HeaderCells, SpreadColumns, Balanced, Neutral;
    var name, location := EscapeLatex(Or(p.fullName, "Jane Doe")), EscTrim(p.location);
    EscapedNeutral(Or(p.fullName, "Jane Doe"));
    EscTrimNeutral(p.location);
    CellsNeutral(p);
    HeaderCellsBalanced(name, location, LinkCells(p), ContactCells(p));
    SpreadNeutral(" l r");
    TabularBalanced(SpreadColumns(" l r"), HeaderCells(name, location, LinkCells(p), ContactCells(p)));
  }

  lemma HeadlineIsNeutral(p: PersonalInfo)
    ensures Neutral(Headline(p))
  {
    hide EscapeLatex, Trim, Neutral;
    EscapedNeutral(Trim(p.headline));
    PlainNeutral(DEFAULT_HEADLINE);
  }

  lemma HeaderEndBalanced(headline: string)
    requires Neutral(headline)
    ensures Balanced(HeaderEnd(headline))
  {
    SpacesNeutral();
    RuleNeutral("black", "0.4pt");
    ThreeLines(SPACE_2, HAIRLINE, SPACE_4);
    HeadlineNeutral(headline);
    PlainNeutral("");
    ThreeLines(HeadlineLine(headline), SPACE_4, "");
    BalancedAppend([SPACE_2, HAIRLINE, SPACE_4], [HeadlineLine(headline), SPACE_4, ""]);
  }

  lemma HeaderStart()
    ensures Balanced(["", "%" + HEADER_NOTE])
  {
    NothingBalanced();
    HeaderNote();
    CommentLine(HEADER_NOTE);
    BalancedAppend([""], ["%" + HEADER_NOTE]);
    assert [""] + ["%" + HEADER_NOTE] == ["", "%" + HEADER_NOTE];
  }

  lemma HeaderBalanced(p: PersonalInfo)
    requires GoodInfo(p)
    ensures Balanced(Header(p))
  {
    HeaderStart();
    HeaderTableBalanced(p);
    HeadlineIsNeutral(p);
    HeaderEndBalanced(Headline(p));
    Balanced3(["", "%" + HEADER_NOTE], HeaderTable(p), HeaderEnd(Headline(p)));
  }

  // ---- items

  const LIST_OPTIONS := "[leftmargin=*, nosep]"

  function RoleLine(role: string, dates: string): string {
    "{\\bfseries " + role + "} \\hfill {\\small \\textit{" + dates + "}} \\\\"
  }

  function CompanyLine(company: string, location: string): string {
    "{\\small \\textit{" + company + "}} \\hfill {\\small \\textit{" + location + "}} \\\\"
  }

  function ExperienceHead(role: string, dates: string, company: string, location: string): seq<string> {
    [RoleLine(role, dates), CompanyLine(company, location)]
  }

  function ExperienceTop(e: Experience): seq<string> {
    ExperienceHead(EscapeLatex(Or(e.role, "Role")), DateRange(e.startDate, e.endDate),
                   EscapeLatex(Or(e.company, "Company")), EscTrim(e.location))
  }

  function ExperienceLines(e: Experience): seq<string> {
    ExperienceTop(e) + BulletLines(LIST_OPTIONS, e.bullets) + [SPACE_4]
  }

  /** Something, a stretch, something small in italics, and a line break. */
  lemma StretchLine(left: string, right: string)
    requires Neutral(left) && Neutral(right)
    ensures Neutral(left + " \\hfill {\\small \\textit{" + right + "}} \\\\")
  {
    HFill();
    SmallItalic(right);
    Break();
    Neutral4(left, " \\hfill ", "{\\small \\textit{" + right + "}}", " \\\\");
    assert left + " \\hfill {\\small \\textit{" + right + "}} \\\\"
        == left + " \\hfill " + ("{\\small \\textit{" + right + "}}") + " \\\\";
  }

  lemma RoleLineNeutral(role: string, dates: string)
    requires Neutral(role) && Neutral(dates)
    ensures Neutral(RoleLine(role, dates))
  {
    Bold(role);
    StretchLine("{\\bfseries " + role + "}", dates);
    assert RoleLine(role, dates) == ("{\\bfseries " + role + "}") + " \\hfill {\\small \\textit{" + dates + "}} \\\\";
  }

  lemma CompanyLineNeutral(company: string, location: string)
    requires Neutral(company) && Neutral(location)
    ensures Neutral(CompanyLine(company, location))
  {
    SmallItalic(company);
    StretchLine("{\\small \\textit{" + company + "}}", location);
    assert CompanyLine(company, location)
        == ("{\\small \\textit{" + company + "}}") + " \\hfill {\\small \\textit{" + location + "}} \\\\";
  }

  lemma ExperienceHeadBalanced(role: string, dates: string, company: string, location: string)
    requires Neutral(role) && Neutral(dates) && Neutral(company) && Neutral(location)
    ensures Balanced(ExperienceHead(role, dates, company, location))
  {
    RoleLineNeutral(role, dates);
    CompanyLineNeutral(company, location);
    TwoLines(RoleLine(role, dates), CompanyLine(company, location));
  }

  lemma ExperienceTopBalanced(e: Experience)
    ensures Balanced(ExperienceTop(e))
  {
    EscapedNeutral(Or(e.role, "Role"));
    DateRangeNeutral(e.startDate, e.endDate);
    EscapedNeutral(Or(e.company, "Company"));
    EscapedNeutral(Trim(e.location));
    ExperienceHeadBalanced(EscapeLatex(Or(e.role, "Role")), DateRange(e.startDate, e.endDate),
                           EscapeLatex(Or(e.company, "Company")), EscTrim(e.location));
  }

  lemma WithSpace(head: seq<string>, middle: seq<string>)
    requires Balanced(head) && Balanced(middle)
    ensures Balanced(head + middle + [SPACE_4])
  {
    SpacesNeutral();
    OneBalanced(SPACE_4);
    Balanced3(head, middle, [SPACE_4]);
  }

  lemma ExperienceBalanced(e: Experience)
    ensures Balanced(ExperienceLines(e))
  {
    hide ExperienceTop, BulletLines, Emit;
    ExperienceTopBalanced(e);
    BulletsBalanced(LIST_OPTIONS, e.bullets);
    WithSpace(ExperienceTop(e), BulletLines(LIST_OPTIONS, e.bullets));
  }

  function ProjectCells(title: string, tech: string, link: string): string {
    "  \\textbf{" + title + "} & {\\small " + tech + "} & {\\small " + link + "} \\\\"
  }

  lemma ProjectCellsText(title: string, tech: string, link: string)
    ensures ProjectCells(title, tech, link)
        == "  " + ("\\textbf{" + title + "}" + " & " + ("{\\small " + tech + "}")) + " & {\\small " + link + "} \\\\"
  {
  }

  lemma ProjectCellsNeutral(title: string, tech: string, link: string)
    requires Neutral(title) && Neutral(tech) && Neutral(link)
    ensures Neutral(ProjectCells(title, tech, link))
  {
    hide Neutral;
    TextBf(title);
    PlainNeutral(" & ");
    Small(tech);
    var left := "\\textbf{" + title + "}" + " & " + ("{\\small " + tech + "}");
    Neutral3("\\textbf{" + title + "}", " & ", "{\\small " + tech + "}");
    CellsLine(left, link);
    ProjectCellsText(title, tech, link);
  }

  function TitleLine(title: string): string { "\\textbf{" + title + "} \\\\" }

  lemma TitleLineNeutral(title: string)
    requires Neutral(title)
    ensures Neutral(TitleLine(title))
  {
    TextBf(title);
    BrokenNeutral("\\textbf{" + title + "}");
    assert TitleLine(title) == ("\\textbf{" + title + "}") + " \\\\";
  }

  function SourceLink(link: string): string {
    if Trim(link) != "" then "\\href{" + Target(link) + "}{\\underline{Source Code}}" else ""
  }

  lemma SourceLinkNeutral(link: string)
    requires GoodTarget(link)
    ensures Neutral(SourceLink(link))
  {
    PlainNeutral("");
    PlainNeutral("Source Code");
    GoodTargetIff(link);
    UnderlinedLink(Target(link), "Source Code");
    assert "\\href{" + Target(link) + "}{\\underline{" + "Source Code" + "}}"
        == "\\href{" + Target(link) + "}{\\underline{Source Code}}";
  }

  function ProjectHead(title: string, tech: string, link: string): seq<string> {
    if tech != "" || link != ""
    then [BEGIN_TABULAR + SpreadColumns(" l c r")] + [ProjectCells(title, tech, link)] + [END_TABULAR]
    else [TitleLine(title)]
  }

  function DescriptionLine(description: string): seq<string> {
    var text := if Trim(description) != "" then EscTrim(description) else "";
    if text != "" then [text + " \\\\"] else []
  }

  function ProjectTop(p: Project): seq<string> {
    ProjectHead(EscapeLatex(Or(p.title, "Untitled Project")), TechList(p.tech), SourceLink(p.link))
  }

  function ProjectLines(p: Project): seq<string> { ProjectTop(p) + DescriptionLine(p.description) + [SPACE_4] }

  lemma ProjectHeadBalanced(title: string, tech: string, link: string)
    requires Neutral(title) && Neutral(tech) && Neutral(link)
    ensures Balanced(ProjectHead(title, tech, link))
  {
    TitleLineNeutral(title);
    OneBalanced(TitleLine(title));
    ProjectCellsNeutral(title, tech, link);
    OneBalanced(ProjectCells(title, tech, link));
    SpreadNeutral(" l c r");
    TabularBalanced(SpreadColumns(" l c r"), [ProjectCells(title, tech, link)]);
  }

  lemma BrokenNeutral(t: string)
    requires Neutral(t)
    ensures Neutral(t + " \\\\")
  {
    Break();
    NeutralAppend(t, " \\\\");
  }

  lemma DescriptionBalanced(description: string)
    ensures Balanced(DescriptionLine(description))
  {
    var text := EscTrim(description);
    EscapedNeutral(Trim(description));
    BrokenNeutral(text);
    OneBalanced(text + " \\\\");
    NothingBalanced();
  }

  lemma ProjectTopBalanced(p: Project)
    requires GoodTarget(p.link)
    ensures Balanced(ProjectTop(p))
  {
    EscapedNeutral(Or(p.title, "Untitled Project"));
    TechNeutral(p.tech);
    SourceLinkNeutral(p.link);
    ProjectHeadBalanced(EscapeLatex(Or(p.title, "Untitled Project")), TechList(p.tech), SourceLink(p.link));
  }

  lemma ProjectBalanced(p: Project)
    requires GoodTarget(p.link)
    ensures Balanced(ProjectLines(p))
  {
    ProjectTopBalanced(p);
    DescriptionBalanced(p.description);
    WithSpace(ProjectTop(p), DescriptionLine(p.description));
  }

  function DegreeLine(degree: string, dates: string): string {
    "\\textbf{" + degree + "} \\hfill {\\small \\textit{" + dates + "}} \\\\"
  }

  function SchoolLine(school: string, location: string, grade: string): string {
    "{\\small \\textit{" + school + location + "}}"
    + (if grade != "" then " \\hfill {\\small " + grade + "}" else "") + " \\\\"
  }

  lemma DegreeLineNeutral(degree: string, dates: string)
    requires Neutral(degree) && Neutral(dates)
    ensures Neutral(DegreeLine(degree, dates))
  {
    TextBf(degree);
    StretchLine("\\textbf{" + degree + "}", dates);
    assert DegreeLine(degree, dates)
        == ("\\textbf{" + degree + "}") + " \\hfill {\\small \\textit{" + dates + "}} \\\\";
  }

  lemma StretchSmall(t: string)
    requires Neutral(t)
    ensures Neutral(" \\hfill {\\small " + t + "}")
  {
    HFill();
    Small(t);
    NeutralAppend(" \\hfill ", "{\\small " + t + "}");
    assert " \\hfill " + ("{\\small " + t + "}") == " \\hfill {\\small " + t + "}";
  }

  lemma SchoolLineNeutral(school: string, location: string, grade: string)
    requires Neutral(school) && Neutral(location) && Neutral(grade)
    ensures Neutral(SchoolLine(school, location, grade))
  {
    NeutralAppend(school, location);
    SmallItalic(school + location);
    StretchSmall(grade);
    PlainNeutral("");
    Break();
    var tail := if grade != "" then " \\hfill {\\small " + grade + "}" else "";
    Neutral3("{\\small \\textit{" + (school + location) + "}}", tail, " \\\\");
    assert "{\\small \\textit{" + school + location + "}}" == "{\\small \\textit{" + (school + location) + "}}";
  }

  function EducationLines(e: Education): seq<string> {
    [DegreeLine(EscapeLatex(Or(e.degree, "Degree")), DateRange(e.startDate, e.endDate)),
     SchoolLine(EscapeLatex(Or(e.school, "Institution")), Prefixed(", ", e.location), Prefixed("CGPA: ", e.cgpa)),
     SPACE_4]
  }

  lemma DegreeIsNeutral(e: Education)
    ensures Neutral(DegreeLine(EscapeLatex(Or(e.degree, "Degree")), DateRange(e.startDate, e.endDate)))
  {
    EscapedNeutral(Or(e.degree, "Degree"));
    DateRangeNeutral(e.startDate, e.endDate);
    DegreeLineNeutral(EscapeLatex(Or(e.degree, "Degree")), DateRange(e.startDate, e.endDate));
  }

  lemma SchoolIsNeutral(e: Education)
    ensures Neutral(
      SchoolLine(EscapeLatex(Or(e.school, "Institution")), Prefixed(", ", e.location), Prefixed("CGPA: ", e.cgpa)))
  {
    hide SchoolLine, Prefixed, EscapeLatex, Or, Neutral;
    EscapedNeutral(Or(e.school, "Institution"));
    PrefixedNeutral(", ", e.location);
    PrefixedNeutral("CGPA: ", e.cgpa);
    SchoolLineNeutral(EscapeLatex(Or(e.school, "Institution")), Prefixed(", ", e.location), Prefixed("CGPA: ", e.cgpa));
  }

  lemma EducationBalanced(e: Education)
    ensures Balanced(EducationLines(e))
  {
    DegreeIsNeutral(e);
    SchoolIsNeutral(e);
    SpacesNeutral();
    ThreeLines(DegreeLine(EscapeLatex(Or(e.degree, "Degree")), DateRange(e.startDate, e.endDate)),
               SchoolLine(EscapeLatex(Or(e.school, "Institution")), Prefixed(", ", e.location),
                   Prefixed("CGPA: ", e.cgpa)),
               SPACE_4);
  }

  function CertificateLine(name: string, issuer: string, date: string, link: string): string {
    "\\textbf{" + name + "}" + (if issuer != "" then " --- " + issuer else "")
    + " \\hfill {\\small \\textit{" + date + "}} " + (if link != "" then " \\; " + link else "") + " \\\\"
  }

  function VerifyLink(url: string): string {
    if Trim(url) != "" then "\\href{" + Target(url) + "}{\\underline{Verify}}" else ""
  }

  lemma VerifyLinkNeutral(url: string)
    requires GoodTarget(url)
    ensures Neutral(VerifyLink(url))
  {
    PlainNeutral("");
    PlainNeutral("Verify");
    GoodTargetIff(url);
    UnderlinedLink(Target(url), "Verify");
    assert "\\href{" + Target(url) + "}{\\underline{" + "Verify" + "}}"
        == "\\href{" + Target(url) + "}{\\underline{Verify}}";
  }

  lemma SkippedLink(link: string)
    requires Neutral(link)
    ensures Neutral(" \\; " + link)
  {
    PlainNeutral(" ");
    ThickSpace();
    Neutral3(" ", "\\; ", link);
    assert " " + "\\; " + link == " \\; " + link;
  }

  lemma DashedNeutral(t: string)
    requires Neutral(t)
    ensures Neutral(" --- " + t)
  {
    PlainNeutral(" --- ");
    NeutralAppend(" --- ", t);
  }

  lemma CertificateLineNeutral(name: string, issuer: string, date: string, link: string)
    requires Neutral(name) && Neutral(issuer) && Neutral(date) && Neutral(link)
    ensures Neutral(CertificateLine(name, issuer, date, link))
  {
    PlainNeutral("");
    TextBf(name);
    DashedNeutral(issuer);
    var from := if issuer != "" then " --- " + issuer else "";
    NeutralAppend("\\textbf{" + name + "}", from);
    SkippedLink(link);
    var tail := if link != "" then " \\; " + link else "";
    CertificateTail("\\textbf{" + name + "}" + from, date, tail);
  }

  lemma CertificateTail(left: string, date: string, tail: string)
    requires Neutral(left) && Neutral(date) && Neutral(tail)
    ensures Neutral(left + " \\hfill {\\small \\textit{" + date + "}} " + tail + " \\\\")
  {
    hide Neutral;
    HFill();
    SmallItalic(date);
    PlainNeutral(" ");
    Break();
    var right := "{\\small \\textit{" + date + "}}" + " " + tail;
    Neutral3("{\\small \\textit{" + date + "}}", " ", tail);
    Neutral4(left, " \\hfill ", right, " \\\\");
    assert left + " \\hfill {\\small \\textit{" + date + "}} " + tail + " \\\\" == left + " \\hfill " + right + " \\\\";
  }

  function CertificationLines(c: Certification): seq<string> {
    [CertificateLine(EscapeLatex(Or(c.name, "Certification")), EscTrim(c.issuer), EscTrim(c.date), VerifyLink(c.url)),
     SPACE_3]
  }

  lemma CertificationBalanced(c: Certification)
    requires GoodTarget(c.url)
    ensures Balanced(CertificationLines(c))
  {
    hide CertificateLine, VerifyLink, EscapeLatex, Or, Neutral;
    EscapedNeutral(Or(c.name, "Certification"));
    EscapedNeutral(Trim(c.issuer));
    EscapedNeutral(Trim(c.date));
    VerifyLinkNeutral(c.url);
    CertificateLineNeutral(EscapeLatex(Or(c.name, "Certification")), EscTrim(c.issuer), EscTrim(c.date),
        VerifyLink(c.url));
    SpacesNeutral();
    TwoLines(CertificateLine(EscapeLatex(Or(c.name, "Certification")), EscTrim(c.issuer), EscTrim(c.date),
        VerifyLink(c.url)), SPACE_3);
  }

  // ---- the document

  function SkillSection(rows: seq<SkillRow>): seq<string> {
    if rows == [] then [] else Headed("Technical Skills", SkillTable(rows) + [SPACE_2])
  }

  lemma SkillSectionBalanced(skills: seq<string>)
    ensures Balanced(SkillSection(SkillRows(skills)))
  {
    hide SkillTable, SkillRows, Balanced, Neutral, Headed;
    NothingBalanced();
    SkillTableBalanced(skills);
    SpacesNeutral();
    OneBalanced(SPACE_2);
    BalancedAppend(SkillTable(SkillRows(skills)), [SPACE_2]);
    HeadedBalanced("Technical Skills", SkillTable(SkillRows(skills)) + [SPACE_2]);
  }

  function Experiences(d: ResumeData): seq<string> { SectionOf("Experience", d.experience, ExperienceLines) }
  function ProjectList(d: ResumeData): seq<string> { SectionOf("Projects", d.projects, ProjectLines) }
  function Schools(d: ResumeData): seq<string> { SectionOf("Education", d.education, EducationLines) }
  function Certificates(d: ResumeData): seq<string> {
    SectionOf("Certifications", d.certifications, CertificationLines)
  }

  function Top(d: ResumeData): seq<string> {
    Header(d.info) + SummaryLines(d.info.summary) + SkillSection(SkillRows(d.skills))
  }

  function Body(d: ResumeData): seq<string> {
    Top(d) + Experiences(d) + ProjectList(d) + (Schools(d) + Certificates(d))
  }

  lemma TopBalanced(d: ResumeData)
    requires GoodTargets(d)
    ensures Balanced(Top(d))
  {
    HeaderBalanced(d.info);
    SummaryBalanced(d.info.summary);
    SkillSectionBalanced(d.skills);
    Balanced3(Header(d.info), SummaryLines(d.info.summary), SkillSection(SkillRows(d.skills)));
  }

  lemma ExperiencesBalanced(d: ResumeData)
    ensures Balanced(Experiences(d))
  {
    forall e ensures Balanced(ExperienceLines(e)) { ExperienceBalanced(e); }
    SectionBalanced("Experience", d.experience, ExperienceLines);
  }

  lemma ProjectListBalanced(d: ResumeData)
    requires GoodTargets(d)
    ensures Balanced(ProjectList(d))
  {
    hide ProjectLines, Balanced, GoodTarget;
    forall p | p in d.projects ensures Balanced(ProjectLines(p)) { ProjectBalanced(p); }
    SectionBalanced("Projects", d.projects, ProjectLines);
  }

  lemma SchoolsBalanced(d: ResumeData)
    ensures Balanced(Schools(d))
  {
    forall e ensures Balanced(EducationLines(e)) { EducationBalanced(e); }
    SectionBalanced("Education", d.education, EducationLines);
  }

  lemma CertificatesBalanced(d: ResumeData)
    requires GoodTargets(d)
    ensures Balanced(Certificates(d))
  {
    hide CertificationLines, Balanced, GoodTarget;
    forall c | c in d.certifications ensures Balanced(CertificationLines(c)) { CertificationBalanced(c); }
    SectionBalanced("Certifications", d.certifications, CertificationLines);
  }

  lemma BodyBalanced(d: ResumeData)
    requires GoodTargets(d)
    ensures Balanced(Body(d))
  {
    TopBalanced(d);
    ExperiencesBalanced(d);
    ProjectListBalanced(d);
    SchoolsBalanced(d);
    CertificatesBalanced(d);
    BalancedAppend(Schools(d), Certificates(d));
    Balanced4(Top(d), Experiences(d), ProjectList(d), Schools(d) + Certificates(d));
  }

  /** The lines of the document. */
  function AllLines(d: ResumeData): seq<string> { PREAMBLE + ([BEGIN_DOCUMENT] + Body(d) + [END_DOCUMENT]) }

  /** Whatever the resume, as long as its link targets are good, the finished text is well nested. */
  lemma SplitNested(d: ResumeData)
    requires GoodTargets(d)
    ensures WellNested(Document(AllLines(d)))
  {
    PreambleBalanced();
    BodyBalanced(d);
    WholeNested(PREAMBLE, Body(d));
  }

  method GenerateSourceSplitLatex(d: ResumeData) returns (doc: string)
    ensures doc == Document(AllLines(d))
    ensures GoodTargets(d) ==> WellNested(doc)
  {
    hide Header, SummaryLines, SkillSection, SectionOf, Document, SkillRows, WellNested, PREAMBLE;
    var skillRows := ParseSkillRowsForLatex(d.skills);
    var lines := Header(d.info);
    lines := lines + SummaryLines(d.info.summary);
    lines := lines + SkillSection(skillRows);
    lines := PushSection(lines, "Experience", d.experience, ExperienceLines);
    lines := PushSection(lines, "Projects", d.projects, ProjectLines);
    lines := PushSection(lines, "Education", d.education, EducationLines);
    lines := PushSection(lines, "Certifications", d.certifications, CertificationLines);
    Assoc(Top(d) + Experiences(d) + ProjectList(d), Schools(d), Certificates(d));
    doc := Document(PREAMBLE + ([BEGIN_DOCUMENT] + lines + [END_DOCUMENT]));
    if GoodTargets(d) { SplitNested(d); }
  }
}
