/** The custom resume template (apps/web/src/lib/resumeLatex.ts:786-940). */
module CustomTemplate {
  import opened JsText
  import opened LatexEscape
  import opened LatexNesting
  import opened LatexText
  import opened LatexLines
  import opened LatexSkills
  import opened LatexBlocks
  import opened TemplateParts
  import opened SplitTemplate

  // ---- colours, fonts, density

  predicate IsHexDigit(c: char) { '0' <= c <= '9' || 'a' <= c <= 'f' || 'A' <= c <= 'F' }

  predicate IsHex(s: string) { forall c :: c in s ==> IsHexDigit(c) }

  const DEFAULT_ACCENT := "4f46e5"

  /** `h.replace('#', '')`: only the first occurrence. */
  function WithoutHash(s: string): string {
    var i := IndexOfChar(s, '#');
    if i < |s| then s[..i] + s[i + 1..] else s
  }

  function ColorOrDefault(h: string): (r: string)
    ensures |r| == 6 && IsHex(r)
  {
    if |h| == 6 && IsHex(h) then h else DEFAULT_ACCENT
  }

  function HexToLatexColor(hex: string): (r: string)
    ensures |r| == 6 && IsHex(r)
  {
    ColorOrDefault(WithoutHash(Trim(hex)))
  }

  lemma HexPlain(s: string)
    requires IsHex(s)
    ensures AllPlain(s) && '\n' !in s
  {
  }

  function FontName(f: Font): (r: string)
    ensures '\n' !in r
  {
    match f
    case Sans => "sans"
    case Serif => "serif"
    case Mono => "mono"
    case Display => "display"
  }

  function DensityName(d: Density): (r: string)
    ensures '\n' !in r
  {
    match d
    case Compact => "compact"
    case Comfortable => "comfortable"
    case Spacious => "spacious"
  }

  const FAMILY_START := "\\renewcommand" + "{\\familydefault}"
  const SERIF_PACKAGES := PackageLine("", "lmodern") + ("\n" + FONT_ENCODING)
  const MONO_PACKAGES := PackageLine("[scaled=0.9]", "beramono") + ("\n" + (FAMILY_START + "{\\ttdefault}"))
  const DISPLAY_PACKAGES := PackageLine("", "helvet") + ("\n" + (FAMILY_START + "{\\sfdefault}"))

  /** One pushed text; three of the four hold a newline. */
  function FontPackage(f: Font): string {
    match f
    case Sans => SOURCE_SANS
    case Serif => SERIF_PACKAGES
    case Mono => MONO_PACKAGES
    case Display => DISPLAY_PACKAGES
  }

  lemma FamilyNeutral()
    ensures Neutral(FAMILY_START)
  {
    hide Neutral;
    CommandNeutral("renewcommand");
    WordGroup("familydefault");
    assert "\\" + "renewcommand" == "\\renewcommand" && "{\\" + "familydefault" + "}" == "{\\familydefault}";
    NeutralAppend("\\renewcommand", "{\\familydefault}");
  }

  lemma SerifNeutral()
    ensures Neutral(SERIF_PACKAGES)
  {
    hide FONT_ENCODING;
    PackageNeutral("", "lmodern");
    EncodingsNeutral();
    NewlineNeutral(PackageLine("", "lmodern"), FONT_ENCODING);
  }

  lemma MonoNeutral()
    ensures Neutral(MONO_PACKAGES)
  {
    PackageNeutral("[scaled=0.9]", "beramono");
    FamilyNeutral();
    WordGroup("ttdefault");
    assert "{\\" + "ttdefault" + "}" == "{\\ttdefault}";
    NeutralAppend(FAMILY_START, "{\\ttdefault}");
    NewlineNeutral(PackageLine("[scaled=0.9]", "beramono"), FAMILY_START + "{\\ttdefault}");
  }

  lemma DisplayNeutral()
    ensures Neutral(DISPLAY_PACKAGES)
  {
    PackageNeutral("", "helvet");
    FamilyNeutral();
    WordGroup("sfdefault");
    assert "{\\" + "sfdefault" + "}" == "{\\sfdefault}";
    NeutralAppend(FAMILY_START, "{\\sfdefault}");
    NewlineNeutral(PackageLine("", "helvet"), FAMILY_START + "{\\sfdefault}");
  }

  lemma FontNeutral(f: Font)
    ensures Neutral(FontPackage(f))
  {
    hide SOURCE_SANS, SERIF_PACKAGES, MONO_PACKAGES, DISPLAY_PACKAGES, Neutral;
    SourceSansNeutral();
    SerifNeutral();
    MonoNeutral();
    DisplayNeutral();
  }

  function MarginWidth(d: Density): string {
    match d
    case Compact => "[margin=0.45in]"
    case Comfortable => "[margin=0.50in]"
    case Spacious => "[margin=0.60in]"
  }

  lemma MarginPlain(d: Density)
    ensures AllPlain(MarginWidth(d))
  {
  }

  function NameHeight(d: Density): string {
    match d
    case Compact => "22"
    case Comfortable => "24"
    case Spacious => "26"
  }

  /** Four points more than the name's height. */
  function NameSkip(d: Density): string {
    match d
    case Compact => "26"
    case Comfortable => "28"
    case Spacious => "30"
  }

  function SectionSpacing(d: Density): string {
    match d
    case Compact => "4pt"
    case Comfortable => "6pt"
    case Spacious => "8pt"
  }

  lemma SizesPlain(d: Density)
    ensures AllPlain(NameHeight(d)) && AllPlain(NameSkip(d)) && AllPlain(SectionSpacing(d))
  {
  }

  // ---- preamble

  const COLOR := "\\color{accent}"
  const THIN_RULE := RuleText("accent", "0.6pt")
  const THICK_RULE := RuleText("accent", "2.5pt")
  const ACCENT_TITLE := "\\vspace{-2pt}" + COLOR + TITLE_FONT
  const PLAIN_TITLE := TITLE_HEAD + ("{" + ACCENT_TITLE + "}") + TITLE_GAPS
  const RULED := "[" + "\\vspace{-2pt}" + THIN_RULE + "\\vspace{-5pt}" + "]"
  const RULED_TITLE := PLAIN_TITLE + RULED
  const ACCENT_BULLET := COLOR + "\\textbullet"
  const LOOSE_SPACING := ", itemsep=2pt, parsep=0pt," + " topsep=3pt"
  const ACCENT_LIST := SetList(ACCENT_BULLET, LOOSE_SPACING)

  lemma RulesNeutral()
    ensures Neutral(THIN_RULE) && Neutral(THICK_RULE)
  {
    hide RuleText, Neutral;
    RuleNeutral("accent", "0.6pt");
    RuleNeutral("accent", "2.5pt");
  }

  lemma TitleSpaces()
    ensures Neutral("\\vspace{-2pt}") && Neutral("\\vspace{-5pt}")
  {
    VSpaceNeutral("-2pt");
    VSpaceNeutral("-5pt");
    assert "\\vspace{" + "-2pt" + "}" == "\\vspace{-2pt}" && "\\vspace{" + "-5pt" + "}" == "\\vspace{-5pt}";
  }

  lemma RuledNeutral()
    ensures Neutral(RULED)
  {
    hide THIN_RULE;
    PlainNeutral("[");
    PlainNeutral("]");
    TitleSpaces();
    RulesNeutral();
    Neutral5("[", "\\vspace{-2pt}", THIN_RULE, "\\vspace{-5pt}", "]");
  }

  lemma PlainTitleNeutral()
    ensures Neutral(PLAIN_TITLE)
  {
    hide TITLE_FONT, TITLE_HEAD, TITLE_GAPS;
    TitleSpaces();
    AccentColor();
    TitleFontNeutral();
    Neutral3("\\vspace{-2pt}", COLOR, TITLE_FONT);
    GroupNeutral(ACCENT_TITLE);
    TitleHeadNeutral();
    TitleGapsNeutral();
    Neutral3(TITLE_HEAD, "{" + ACCENT_TITLE + "}", TITLE_GAPS);
  }

  lemma RuledTitleNeutral()
    ensures Neutral(RULED_TITLE)
  {
    hide PLAIN_TITLE, RULED;
    PlainTitleNeutral();
    RuledNeutral();
    NeutralAppend(PLAIN_TITLE, RULED);
  }

  lemma AccentListNeutral()
    ensures Neutral(ACCENT_LIST)
  {
    AccentColor();
    CommandNeutral("textbullet");
    assert "\\" + "textbullet" == "\\textbullet";
    NeutralAppend(COLOR, "\\textbullet");
    LooseSpacingPlain();
    SetListNeutral(ACCENT_BULLET, LOOSE_SPACING);
  }

  lemma LooseSpacingPlain()
    ensures AllPlain(LOOSE_SPACING)
  {
  }

  function ColorLine(hex: string): string { "\\definecolor" + "{accent}" + "{HTML}" + ("{" + hex + "}") }

  lemma ColorLineNeutral(hex: string)
    requires AllPlain(hex)
    ensures Neutral(ColorLine(hex))
  {
    CommandNeutral("definecolor");
    PlainGroup("accent");
    PlainGroup("HTML");
    PlainGroup(hex);
    assert "\\" + "definecolor" == "\\definecolor";
    assert "{" + "accent" + "}" == "{accent}" && "{" + "HTML" + "}" == "{HTML}";
    Neutral4("\\definecolor", "{accent}", "{HTML}", "{" + hex + "}");
  }

  const MADE_BY := " Generated by CampusFlow \U{2014}" + " Custom (Fully Editable)" + " \U{2014} accent "

  function CustomNote(hex: string, font: string, density: string): string {
    MADE_BY + hex + ", font " + font + ", density " + density
  }

  lemma MadeByLine()
    ensures '\n' !in MADE_BY
  {
  }

  lemma CustomNoteLine(hex: string, font: string, density: string)
    requires '\n' !in hex && '\n' !in font && '\n' !in density
    ensures '\n' !in CustomNote(hex, font, density)
  {
    hide MADE_BY;
    MadeByLine();
  }

  function Notes(c: CustomConfig): seq<string> {
    ["%" + PROGRAM_NOTE, "%" + CustomNote(HexToLatexColor(c.accentColor), FontName(c.font), DensityName(c.density))]
  }

  lemma TwoNotes(a: string, b: string)
    requires '\n' !in a && '\n' !in b
    ensures Balanced(["%" + a, "%" + b])
  {
    CommentLine(a);
    CommentLine(b);
    BalancedAppend(["%" + a], ["%" + b]);
    assert ["%" + a] + ["%" + b] == ["%" + a, "%" + b];
  }

  lemma CustomNotesBalanced(c: CustomConfig)
    ensures Balanced(Notes(c))
  {
    hide CustomNote, PROGRAM_NOTE, FontName, DensityName, HexToLatexColor, Balanced;
    ProgramNote();
    HexPlain(HexToLatexColor(c.accentColor));
    CustomNoteLine(HexToLatexColor(c.accentColor), FontName(c.font), DensityName(c.density));
    TwoNotes(PROGRAM_NOTE, CustomNote(HexToLatexColor(c.accentColor), FontName(c.font), DensityName(c.density)));
  }

  function CustomPackages(c: CustomConfig): seq<string> {
    [DOCUMENT_CLASS, INPUT_ENCODING, FONT_ENCODING, FontPackage(c.font),
     PackageLine(MarginWidth(c.density), "geometry")]
    + LAYOUT_PACKAGES
    + [ColorLine(HexToLatexColor(c.accentColor)), HYPERREF]
  }

  lemma CustomPackagesBalanced(c: CustomConfig)
    ensures Balanced(CustomPackages(c))
  {
    hide DOCUMENT_CLASS, INPUT_ENCODING, FONT_ENCODING, FontPackage, PackageLine, MarginWidth, LAYOUT_PACKAGES;
    hide ColorLine, HexToLatexColor, HYPERREF, Neutral, Balanced;
    DocumentClassNeutral();
    EncodingsNeutral();
    FontNeutral(c.font);
    MarginPlain(c.density);
    PackageNeutral(MarginWidth(c.density), "geometry");
    LayoutNeutral();
    HexPlain(HexToLatexColor(c.accentColor));
    ColorLineNeutral(HexToLatexColor(c.accentColor));
    HyperRefNeutral();
    LinesBalanced(CustomPackages(c));
  }

  function CustomStyle(c: CustomConfig): seq<string> {
    NO_PAGE_STYLE
    + [if c.showDividers then RULED_TITLE else PLAIN_TITLE, TitleSpacing(SectionSpacing(c.density)), ACCENT_LIST]
  }

  lemma CustomStyleBalanced(c: CustomConfig)
    ensures Balanced(CustomStyle(c))
  {
    hide NO_PAGE_STYLE, RULED_TITLE, PLAIN_TITLE, TitleSpacing, SectionSpacing, ACCENT_LIST, Neutral, Balanced;
    NoPageStyleNeutral();
    LinesBalanced(NO_PAGE_STYLE);
    RuledTitleNeutral();
    PlainTitleNeutral();
    SizesPlain(c.density);
    TitleSpacingNeutral(SectionSpacing(c.density));
    AccentListNeutral();
    var title := if c.showDividers then RULED_TITLE else PLAIN_TITLE;
    ThreeLines(title, TitleSpacing(SectionSpacing(c.density)), ACCENT_LIST);
    BalancedAppend(NO_PAGE_STYLE, [title, TitleSpacing(SectionSpacing(c.density)), ACCENT_LIST]);
  }

  function CustomPreamble(c: CustomConfig): seq<string> { Notes(c) + CustomPackages(c) + CustomStyle(c) }

  lemma CustomPreambleBalanced(c: CustomConfig)
    ensures Balanced(CustomPreamble(c))
  {
    hide Notes, CustomPackages, CustomStyle, Balanced;
    CustomNotesBalanced(c);
    CustomPackagesBalanced(c);
    CustomStyleBalanced(c);
    Balanced3(Notes(c), CustomPackages(c), CustomStyle(c));
  }

  // ---- header

  /** Something in the middle, and a line break with a gap. */
  function CenterLine(text: string, gap: string): string { "  {" + text + "} \\\\[" + gap + "]" }

  lemma CenterLineNeutral(text: string, gap: string)
    requires Neutral(text) && AllPlain(gap)
    ensures Neutral(CenterLine(text, gap))
  {
    PlainNeutral("  ");
    GroupNeutral(text);
    Break();
    PlainNeutral("[" + gap + "]");
    Neutral4("  ", "{" + text + "}", " \\\\", "[" + gap + "]");
    assert CenterLine(text, gap) == "  " + ("{" + text + "}") + " \\\\" + ("[" + gap + "]");
  }

  const NAME_FONT := "\\selectfont " + "\\bfseries " + "\\color{accent} "

  function NameText(height: string, skip: string, name: string): string {
    "\\fontsize{" + height + "}{" + skip + "}" + NAME_FONT + name
  }

  lemma NameFontNeutral()
    ensures Neutral(NAME_FONT)
  {
    WordSpace("selectfont");
    WordSpace("bfseries");
    AccentSpace();
    assert "\\" + "selectfont" + " " == "\\selectfont " && "\\" + "bfseries" + " " == "\\bfseries ";
    Neutral3("\\selectfont ", "\\bfseries ", "\\color{accent} ");
  }

  lemma FontSizeNeutral(height: string, skip: string)
    requires AllPlain(height) && AllPlain(skip)
    ensures Neutral("\\fontsize{" + height + "}{" + skip + "}")
  {
    PlainNeutral(height);
    AppliedNeutral("fontsize", height);
    PlainGroup(skip);
    NeutralAppend("\\" + "fontsize" + "{" + height + "}", "{" + skip + "}");
    assert "\\fontsize{" + height + "}{" + skip + "}" == ("\\" + "fontsize" + "{" + height + "}") + ("{" + skip + "}");
  }

  lemma NameTextNeutral(height: string, skip: string, name: string)
    requires AllPlain(height) && AllPlain(skip) && Neutral(name)
    ensures Neutral(NameText(height, skip, name))
  {
    hide NAME_FONT, Neutral;
    FontSizeNeutral(height, skip);
    NameFontNeutral();
    Neutral3("\\fontsize{" + height + "}{" + skip + "}", NAME_FONT, name);
  }

  function PlaceText(location: string): string { "\\small \\color{accent} " + location }

  lemma PlaceTextNeutral(location: string)
    requires Neutral(location)
    ensures Neutral(PlaceText(location))
  {
    WordSpace("small");
    AccentSpace();
    Neutral3("\\" + "small" + " ", "\\color{accent} ", location);
    assert PlaceText(location) == ("\\" + "small" + " ") + "\\color{accent} " + location;
  }

  function HeadlineText(headline: string): string { "\\large \\bfseries " + headline }

  lemma HeadlineTextNeutral(headline: string)
    requires Neutral(headline)
    ensures Neutral(HeadlineText(headline))
  {
    WordSpace("large");
    WordSpace("bfseries");
    Neutral3("\\" + "large" + " ", "\\" + "bfseries" + " ", headline);
    assert HeadlineText(headline) == ("\\" + "large" + " ") + ("\\" + "bfseries" + " ") + headline;
  }

  function ContactLine(contact: string): string { "  {\\small " + contact + "}" }

  lemma ContactLineNeutral(contact: string)
    requires Neutral(contact)
    ensures Neutral(ContactLine(contact))
  {
    PlainNeutral("  ");
    Small(contact);
    NeutralAppend("  ", "{\\small " + contact + "}");
    assert ContactLine(contact) == "  " + ("{\\small " + contact + "}");
  }

  /** The lines between the begin and end lines of the centred block. */
  function CenterLines(name: string, location: string, headline: string, contact: string): seq<string> {
    [CenterLine(name, "2pt")]
    + (if location != "" then [CenterLine(PlaceText(location), "2pt")] else [])
    + [CenterLine(HeadlineText(headline), "4pt")]
    + (if contact != "" then [ContactLine(contact)] else [])
  }

  lemma CenterLinesBalanced(name: string, location: string, headline: string, contact: string)
    requires Neutral(name) && Neutral(location) && Neutral(headline) && Neutral(contact)
    ensures Balanced(CenterLines(name, location, headline, contact))
  {
    hide CenterLine, PlaceText, HeadlineText, ContactLine, Neutral, Balanced;
    CenterLineNeutral(name, "2pt");
    PlaceTextNeutral(location);
    CenterLineNeutral(PlaceText(location), "2pt");
    HeadlineTextNeutral(headline);
    CenterLineNeutral(HeadlineText(headline), "4pt");
    ContactLineNeutral(contact);
    LinesBalanced(CenterLines(name, location, headline, contact));
  }

  const BEGIN_CENTER := "\\begin{center}"
  const END_CENTER := "\\end{center}"

  lemma CenterBalanced(body: seq<string>)
    requires Balanced(body)
    ensures Balanced([BEGIN_CENTER] + body + [END_CENTER])
  {
    PlainNeutral("");
    assert "\\begin{" + "center" + "}" + "" == BEGIN_CENTER && "\\end{" + "center" + "}" == END_CENTER;
    EnvironmentBalanced(BEGIN_CENTER, "center", "", body, END_CENTER);
  }

  function CustomLink(l: Link): string { "\\href{" + Target(l.url) + "}{" + LinkName(l) + "}" }

  function CustomLinks(links: seq<Link>): (r: seq<string>)
    ensures |r| == |links| && forall i :: 0 <= i < |r| ==> r[i] == CustomLink(links[i])
  {
    seq(|links|, i requires 0 <= i < |links| => CustomLink(links[i]))
  }

  lemma CustomLinksNeutral(links: seq<Link>)
    requires GoodLinks(links)
    ensures AllNeutral(CustomLinks(links))
  {
    forall i | 0 <= i < |links| ensures Neutral(CustomLinks(links)[i]) {
      GoodTargetIff(links[i].url);
      EscapedNeutral(if links[i].name == "" then "Link" else links[i].name);
      Href(Target(links[i].url), LinkName(links[i]));
    }
  }

  function CustomMail(address: string, text: string): string { "\\href{mailto:" + address + "}{" + text + "}" }

  lemma CustomMailNeutral(address: string, text: string)
    requires Neutral(address) && Neutral(text)
    ensures Neutral(CustomMail(address, text))
  {
    PlainNeutral("mailto:");
    NeutralAppend("mailto:", address);
    Href("mailto:" + address, text);
    assert CustomMail(address, text) == "\\href{" + ("mailto:" + address) + "}{" + text + "}";
  }

  function MailPart(email: string): seq<string> {
    if Trim(email) != "" then [CustomMail(Target(email), EscTrim(email))] else []
  }

  function PhonePart(phone: string): seq<string> { if Trim(phone) != "" then [EscTrim(phone)] else [] }

  function AllContact(p: PersonalInfo): string {
    Join(MailPart(p.email) + PhonePart(p.phone) + CustomLinks(WithUrl(p.links)), BAR)
  }

  lemma MailPartNeutral(email: string)
    requires GoodTarget(email)
    ensures AllNeutral(MailPart(email))
  {
    hide CustomMail, Target, EscTrim, Neutral;
    GoodTargetIff(email);
    EscTrimNeutral(email);
    CustomMailNeutral(Target(email), EscTrim(email));
  }

  lemma PhonePartNeutral(phone: string)
    ensures AllNeutral(PhonePart(phone))
  {
    hide EscTrim, Neutral;
    EscTrimNeutral(phone);
  }

  lemma AllContactNeutral(p: PersonalInfo)
    requires GoodInfo(p)
    ensures Neutral(AllContact(p))
  {
    hide MailPart, PhonePart, CustomLinks, WithUrl, Neutral;
    MailPartNeutral(p.email);
    PhonePartNeutral(p.phone);
    WithUrlGood(p.links);
    CustomLinksNeutral(WithUrl(p.links));
    BarNeutral();
    JoinNeutral(MailPart(p.email) + PhonePart(p.phone) + CustomLinks(WithUrl(p.links)), BAR);
  }

  function CustomHeadline(headline: string, style: HeadingStyle): string {
    var text := EscapeLatex(Or(headline, DEFAULT_HEADLINE));
    if style.Uppercase? then "\\MakeUppercase{" + text + "}" else text
  }

  lemma CustomHeadlineNeutral(headline: string, style: HeadingStyle)
    ensures Neutral(CustomHeadline(headline, style))
  {
    hide EscapeLatex, Or, Neutral;
    EscapedNeutral(Or(headline, DEFAULT_HEADLINE));
    Uppercased(EscapeLatex(Or(headline, DEFAULT_HEADLINE)));
  }

  function CustomName(p: PersonalInfo, d: Density): string {
    NameText(NameHeight(d), NameSkip(d), EscapeLatex(Or(p.fullName, "Your Name")))
  }

  lemma CustomNameNeutral(p: PersonalInfo, d: Density)
    ensures Neutral(CustomName(p, d))
  {
    hide EscapeLatex, Or, NameText, NameHeight, NameSkip, Neutral;
    SizesPlain(d);
    EscapedNeutral(Or(p.fullName, "Your Name"));
    NameTextNeutral(NameHeight(d), NameSkip(d), EscapeLatex(Or(p.fullName, "Your Name")));
  }

  function CenterBlock(p: PersonalInfo, c: CustomConfig): seq<string> {
    [BEGIN_CENTER]
    + CenterLines(CustomName(p, c.density), EscTrim(p.location), CustomHeadline(p.headline, c.headingStyle),
        AllContact(p))
    + [END_CENTER]
  }

  lemma CenterBlockBalanced(p: PersonalInfo, c: CustomConfig)
    requires GoodInfo(p)
    ensures Balanced(CenterBlock(p, c))
  {
    hide CustomName, EscTrim, CustomHeadline, AllContact, CenterLines, Neutral, Balanced;
    CustomNameNeutral(p, c.density);
    EscTrimNeutral(p.location);
    CustomHeadlineNeutral(p.headline, c.headingStyle);
    AllContactNeutral(p);
    CenterLinesBalanced(CustomName(p, c.density), EscTrim(p.location), CustomHeadline(p.headline, c.headingStyle),
        AllContact(p));
    CenterBalanced(
      CenterLines(CustomName(p, c.density), EscTrim(p.location), CustomHeadline(p.headline, c.headingStyle),
          AllContact(p)));
  }

  function AfterCenter(c: CustomConfig): seq<string> {
    [SPACE_4] + (if c.showDividers then [THIN_RULE] else []) + [SPACE_6]
  }

  function CustomHeader(p: PersonalInfo, c: CustomConfig): seq<string> {
    [THICK_RULE, SPACE_6] + CenterBlock(p, c) + AfterCenter(c)
  }

  lemma CustomHeaderBalanced(p: PersonalInfo, c: CustomConfig)
    requires GoodInfo(p)
    ensures Balanced(CustomHeader(p, c))
  {
    hide THICK_RULE, THIN_RULE, CenterBlock, SPACE_4, SPACE_6, Neutral, Balanced;
    RulesNeutral();
    SpacesNeutral();
    TwoLines(THICK_RULE, SPACE_6);
    CenterBlockBalanced(p, c);
    LinesBalanced(AfterCenter(c));
    Balanced3([THICK_RULE, SPACE_6], CenterBlock(p, c), AfterCenter(c));
  }

  // ---- items

  const NO_SEPARATION := "[nosep]"

  /** Something, a stretch, something small in the accent colour, and a line break. */
  lemma AccentStretch(left: string, right: string)
    requires Neutral(left) && Neutral(right)
    ensures Neutral(left + " \\hfill {\\small \\color{accent} " + right + "} \\\\")
  {
    HFill();
    SmallAccent(right);
    Break();
    Neutral4(left, " \\hfill ", "{\\small \\color{accent} " + right + "}", " \\\\");
    assert left + " \\hfill {\\small \\color{accent} " + right + "} \\\\"
        == left + " \\hfill " + ("{\\small \\color{accent} " + right + "}") + " \\\\";
  }

  function JobLine(role: string, company: string, location: string, dates: string): string {
    "\\textbf{" + role + "} --- \\textit{" + company + "}" + location
    + " \\hfill {\\small \\color{accent} " + dates + "} \\\\"
  }

  lemma JobLineNeutral(role: string, company: string, location: string, dates: string)
    requires Neutral(role) && Neutral(company) && Neutral(location) && Neutral(dates)
    ensures Neutral(JobLine(role, company, location, dates))
  {
    TextBf(role);
    PlainNeutral(" --- ");
    TextIt(company);
    var left := "\\textbf{" + role + "}" + " --- " + ("\\textit{" + company + "}") + location;
    Neutral4("\\textbf{" + role + "}", " --- ", "\\textit{" + company + "}", location);
    AccentStretch(left, dates);
    assert left == "\\textbf{" + role + "} --- \\textit{" + company + "}" + location;
  }

  function JobTop(e: Experience): string {
    JobLine(EscapeLatex(Or(e.role, "Role")), EscapeLatex(Or(e.company, "Company")), Prefixed(" --- ", e.location),
            DateRange(e.startDate, e.endDate))
  }

  function JobLines(e: Experience): seq<string> { [JobTop(e)] + BulletLines(NO_SEPARATION, e.bullets) + [SPACE_4] }

  lemma JobTopNeutral(e: Experience)
    ensures Neutral(JobTop(e))
  {
    hide JobLine, EscapeLatex, Or, Prefixed, DateRange, Neutral;
    EscapedNeutral(Or(e.role, "Role"));
    EscapedNeutral(Or(e.company, "Company"));
    PrefixedNeutral(" --- ", e.location);
    DateRangeNeutral(e.startDate, e.endDate);
    JobLineNeutral(EscapeLatex(Or(e.role, "Role")), EscapeLatex(Or(e.company, "Company")),
                   Prefixed(" --- ", e.location),
                   DateRange(e.startDate, e.endDate));
  }

  lemma JobBalanced(e: Experience)
    ensures Balanced(JobLines(e))
  {
    hide JobTop, BulletLines, Neutral, Balanced, SPACE_4;
    JobTopNeutral(e);
    OneBalanced(JobTop(e));
    BulletsBalanced(NO_SEPARATION, e.bullets);
    WithSpace([JobTop(e)], BulletLines(NO_SEPARATION, e.bullets));
  }

  function WorkLine(title: string, date: string): string {
    "\\textbf{" + title + "} " + (if date != "" then "\\hfill {\\small " + date + "}" else "") + " \\\\"
  }

  lemma WorkLineNeutral(title: string, date: string)
    requires Neutral(title) && Neutral(date)
    ensures Neutral(WorkLine(title, date))
  {
    TextBf(title);
    PlainNeutral(" ");
    PlainNeutral("");
    DateAtRight(date);
    Break();
    var right := if date != "" then "\\hfill {\\small " + date + "}" else "";
    Neutral4("\\textbf{" + title + "}", " ", right, " \\\\");
    assert "\\textbf{" + title + "} " == "\\textbf{" + title + "}" + " ";
  }

  lemma DateAtRight(date: string)
    requires Neutral(date)
    ensures Neutral("\\hfill {\\small " + date + "}")
  {
    WordSpace("hfill");
    Small(date);
    NeutralAppend("\\" + "hfill" + " ", "{\\small " + date + "}");
    assert "\\" + "hfill" + " " + ("{\\small " + date + "}") == "\\hfill {\\small " + date + "}";
  }

  function LineIf(text: string): seq<string> { if text != "" then [text + " \\\\"] else [] }

  lemma LineIfBalanced(text: string)
    requires Neutral(text)
    ensures Balanced(LineIf(text))
  {
    hide Neutral, Balanced;
    BrokenNeutral(text);
    OneBalanced(text + " \\\\");
    NothingBalanced();
  }

  /** `{\small text} \\`. */
  function SmallIf(text: string): seq<string> { if text != "" then ["{\\small " + text + "} \\\\"] else [] }

  lemma SmallIfBalanced(text: string)
    requires Neutral(text)
    ensures Balanced(SmallIf(text))
  {
    Small(text);
    BrokenNeutral("{\\small " + text + "}");
    assert "{\\small " + text + "} \\\\" == ("{\\small " + text + "}") + " \\\\";
    OneBalanced("{\\small " + text + "} \\\\");
    NothingBalanced();
  }

  function UrlLink(link: string): string {
    if Trim(link) != "" then "\\href{" + Target(link) + "}{" + EscTrim(link) + "}" else ""
  }

  lemma UrlLinkNeutral(link: string)
    requires GoodTarget(link)
    ensures Neutral(UrlLink(link))
  {
    hide Target, EscTrim, Neutral;
    PlainNeutral("");
    GoodTargetIff(link);
    EscTrimNeutral(link);
    Href(Target(link), EscTrim(link));
  }

  function WorkTop(p: Project): string { WorkLine(EscapeLatex(Or(p.title, "Untitled")), EscTrim(p.date)) }

  function WorkDetails(p: Project): seq<string> {
    LineIf(TechList(p.tech)) + LineIf(EscTrim(p.description)) + SmallIf(UrlLink(p.link))
  }

  function WorkLines(p: Project): seq<string> { [WorkTop(p)] + WorkDetails(p) + [SPACE_4] }

  lemma WorkTopNeutral(p: Project)
    ensures Neutral(WorkTop(p))
  {
    hide WorkLine, EscapeLatex, Or, EscTrim, Neutral;
    EscapedNeutral(Or(p.title, "Untitled"));
    EscTrimNeutral(p.date);
    WorkLineNeutral(EscapeLatex(Or(p.title, "Untitled")), EscTrim(p.date));
  }

  lemma WorkDetailsBalanced(p: Project)
    requires GoodTarget(p.link)
    ensures Balanced(WorkDetails(p))
  {
    hide LineIf, SmallIf, TechList, EscTrim, UrlLink, Neutral, Balanced;
    TechNeutral(p.tech);
    LineIfBalanced(TechList(p.tech));
    EscTrimNeutral(p.description);
    LineIfBalanced(EscTrim(p.description));
    UrlLinkNeutral(p.link);
    SmallIfBalanced(UrlLink(p.link));
    Balanced3(LineIf(TechList(p.tech)), LineIf(EscTrim(p.description)), SmallIf(UrlLink(p.link)));
  }

  lemma WorkBalanced(p: Project)
    requires GoodTarget(p.link)
    ensures Balanced(WorkLines(p))
  {
    hide WorkTop, WorkDetails, Neutral, Balanced, SPACE_4;
    WorkTopNeutral(p);
    OneBalanced(WorkTop(p));
    WorkDetailsBalanced(p);
    WithSpace([WorkTop(p)], WorkDetails(p));
  }

  function StudyLine(degree: string, school: string, location: string, dates: string): string {
    "\\textbf{" + degree + "} --- " + school + location + " \\hfill {\\small \\color{accent} " + dates + "} \\\\"
  }

  lemma StudyLineNeutral(degree: string, school: string, location: string, dates: string)
    requires Neutral(degree) && Neutral(school) && Neutral(location) && Neutral(dates)
    ensures Neutral(StudyLine(degree, school, location, dates))
  {
    TextBf(degree);
    PlainNeutral(" --- ");
    var left := "\\textbf{" + degree + "}" + " --- " + school + location;
    Neutral4("\\textbf{" + degree + "}", " --- ", school, location);
    AccentStretch(left, dates);
    assert left == "\\textbf{" + degree + "} --- " + school + location;
  }

  function StudyTop(e: Education): string {
    StudyLine(EscapeLatex(Or(e.degree, "Degree")), EscapeLatex(Or(e.school, "Institution")), Prefixed(", ", e.location),
              DateRange(e.startDate, e.endDate))
  }

  function StudyLines(e: Education): seq<string> { [StudyTop(e)] + SmallIf(Prefixed("CGPA: ", e.cgpa)) + [SPACE_4] }

  lemma StudyTopNeutral(e: Education)
    ensures Neutral(StudyTop(e))
  {
    hide StudyLine, EscapeLatex, Or, Prefixed, DateRange, Neutral;
    EscapedNeutral(Or(e.degree, "Degree"));
    EscapedNeutral(Or(e.school, "Institution"));
    PrefixedNeutral(", ", e.location);
    DateRangeNeutral(e.startDate, e.endDate);
    StudyLineNeutral(EscapeLatex(Or(e.degree, "Degree")), EscapeLatex(Or(e.school, "Institution")),
                     Prefixed(", ", e.location), DateRange(e.startDate, e.endDate));
  }

  lemma StudyBalanced(e: Education)
    ensures Balanced(StudyLines(e))
  {
    hide StudyTop, SmallIf, Prefixed, Neutral, Balanced, SPACE_4;
    StudyTopNeutral(e);
    OneBalanced(StudyTop(e));
    PrefixedNeutral("CGPA: ", e.cgpa);
    SmallIfBalanced(Prefixed("CGPA: ", e.cgpa));
    WithSpace([StudyTop(e)], SmallIf(Prefixed("CGPA: ", e.cgpa)));
  }

  function DiplomaLine(name: string, issuer: string, date: string, link: string): string {
    "\\textbf{" + name + "} " + issuer + " \\hfill {\\small \\color{accent} " + date + "} "
    + (if link != "" then "\\; " + link else "") + " \\\\"
  }

  lemma DiplomaLineNeutral(name: string, issuer: string, date: string, link: string)
    requires Neutral(name) && Neutral(issuer) && Neutral(date) && Neutral(link)
    ensures Neutral(DiplomaLine(name, issuer, date, link))
  {
    TextBf(name);
    PlainNeutral(" ");
    PlainNeutral("");
    Neutral3("\\textbf{" + name + "}", " ", issuer);
    ThickSpace();
    NeutralAppend("\\; ", link);
    var tail := if link != "" then "\\; " + link else "";
    DiplomaTail("\\textbf{" + name + "}" + " " + issuer, date, tail);
    assert "\\textbf{" + name + "} " == "\\textbf{" + name + "}" + " ";
  }

  lemma DiplomaTail(left: string, date: string, tail: string)
    requires Neutral(left) && Neutral(date) && Neutral(tail)
    ensures Neutral(left + " \\hfill {\\small \\color{accent} " + date + "} " + tail + " \\\\")
  {
    hide Neutral;
    HFill();
    SmallAccent(date);
    PlainNeutral(" ");
    Break();
    var right := "{\\small \\color{accent} " + date + "}" + " " + tail;
    Neutral3("{\\small \\color{accent} " + date + "}", " ", tail);
    Neutral4(left, " \\hfill ", right, " \\\\");
    assert left + " \\hfill {\\small \\color{accent} " + date + "} " + tail + " \\\\"
        == left + " \\hfill " + right + " \\\\";
  }

  function CustomVerify(url: string): string { if Trim(url) != "" then "\\href{" + Target(url) + "}{Verify}" else "" }

  lemma CustomVerifyNeutral(url: string)
    requires GoodTarget(url)
    ensures Neutral(CustomVerify(url))
  {
    hide Target, Neutral;
    PlainNeutral("");
    PlainNeutral("Verify");
    GoodTargetIff(url);
    Href(Target(url), "Verify");
    assert "\\href{" + Target(url) + "}{" + "Verify" + "}" == "\\href{" + Target(url) + "}{Verify}";
  }

  function DiplomaTop(c: Certification): string {
    DiplomaLine(EscapeLatex(Or(c.name, "Cert")), Prefixed("--- ", c.issuer), EscTrim(c.date), CustomVerify(c.url))
  }

  function DiplomaLines(c: Certification): seq<string> { [DiplomaTop(c), SPACE_3] }

  lemma DiplomaTopNeutral(c: Certification)
    requires GoodTarget(c.url)
    ensures Neutral(DiplomaTop(c))
  {
    hide DiplomaLine, EscapeLatex, Or, Prefixed, EscTrim, CustomVerify, Neutral;
    EscapedNeutral(Or(c.name, "Cert"));
    PrefixedNeutral("--- ", c.issuer);
    EscTrimNeutral(c.date);
    CustomVerifyNeutral(c.url);
    DiplomaLineNeutral(EscapeLatex(Or(c.name, "Cert")), Prefixed("--- ", c.issuer), EscTrim(c.date),
        CustomVerify(c.url));
  }

  lemma DiplomaBalanced(c: Certification)
    requires GoodTarget(c.url)
    ensures Balanced(DiplomaLines(c))
  {
    hide DiplomaTop, Neutral, Balanced, SPACE_3;
    DiplomaTopNeutral(c);
    SpacesNeutral();
    TwoLines(DiplomaTop(c), SPACE_3);
  }

  // ---- sections in the user's order

  function CustomSummary(summary: string): seq<string> {
    if Trim(summary) != "" then Headed("Summary", [FormatSummary(summary)]) else []
  }

  lemma CustomSummaryBalanced(summary: string)
    ensures Balanced(CustomSummary(summary))
  {
    hide FormatSummary, Headed, Neutral, Balanced;
    NothingBalanced();
    SummaryNeutral(summary);
    OneBalanced(FormatSummary(summary));
    HeadedBalanced("Summary", [FormatSummary(summary)]);
  }

  /** A single row named "Skills" is shown as plain text. */
  function CustomSkills(rows: seq<SkillRow>): seq<string> {
    if |rows| == 1 && rows[0].name == "Skills" then Headed("Technical Skills", [rows[0].value])
    else Headed("Technical Skills", SkillTable(rows))
  }

  lemma CustomSkillsBalanced(skills: seq<string>)
    ensures Balanced(CustomSkills(SkillRows(skills)))
  {
    hide SkillRows, SkillTable, Headed, Neutral, Balanced;
    var rows := SkillRows(skills);
    SkillRowsNeutral(skills);
    if |rows| == 1 && rows[0].name == "Skills" {
      assert rows[0] in rows;
      OneBalanced(rows[0].value);
      HeadedBalanced("Technical Skills", [rows[0].value]);
    } else {
      SkillTableBalanced(skills);
      HeadedBalanced("Technical Skills", SkillTable(rows));
    }
  }

  /** What one entry of the section order contributes. */
  function CustomSection(d: ResumeData, id: SectionId): seq<string> {
    if id in d.config.hidden then []
    else
      match id
      case Summary => CustomSummary(d.info.summary)
      case Skills => if d.skills == [] then [] else CustomSkills(SkillRows(d.skills))
      case ExperienceId => SectionOf("Experience", d.experience, JobLines)
      case Projects => SectionOf("Projects", d.projects, WorkLines)
      case EducationId => SectionOf("Education", d.education, StudyLines)
      case Certifications => SectionOf("Certifications", d.certifications, DiplomaLines)
  }

  lemma JobsBalanced(d: ResumeData)
    ensures Balanced(SectionOf("Experience", d.experience, JobLines))
  {
    forall e ensures Balanced(JobLines(e)) { JobBalanced(e); }
    SectionBalanced("Experience", d.experience, JobLines);
  }

  lemma WorksBalanced(d: ResumeData)
    requires GoodTargets(d)
    ensures Balanced(SectionOf("Projects", d.projects, WorkLines))
  {
    hide WorkLines, Balanced, GoodTarget;
    forall p | p in d.projects ensures Balanced(WorkLines(p)) { WorkBalanced(p); }
    SectionBalanced("Projects", d.projects, WorkLines);
  }

  lemma StudiesBalanced(d: ResumeData)
    ensures Balanced(SectionOf("Education", d.education, StudyLines))
  {
    forall e ensures Balanced(StudyLines(e)) { StudyBalanced(e); }
    SectionBalanced("Education", d.education, StudyLines);
  }

  lemma DiplomasBalanced(d: ResumeData)
    requires GoodTargets(d)
    ensures Balanced(SectionOf("Certifications", d.certifications, DiplomaLines))
  {
    hide DiplomaLines, Balanced, GoodTarget;
    forall c | c in d.certifications ensures Balanced(DiplomaLines(c)) { DiplomaBalanced(c); }
    SectionBalanced("Certifications", d.certifications, DiplomaLines);
  }

  lemma CustomSectionBalanced(d: ResumeData, id: SectionId)
    requires GoodTargets(d)
    ensures Balanced(CustomSection(d, id))
  {
    hide CustomSummary, CustomSkills, SkillRows, SectionOf, Neutral, Balanced;
    NothingBalanced();
    CustomSummaryBalanced(d.info.summary);
    CustomSkillsBalanced(d.skills);
    JobsBalanced(d);
    WorksBalanced(d);
    StudiesBalanced(d);
    DiplomasBalanced(d);
  }

  function CustomSections(d: ResumeData, order: seq<SectionId>): seq<string> {
    if order == [] then [] else CustomSections(d, order[..|order| - 1]) + CustomSection(d, order[|order| - 1])
  }

  lemma {:induction false} CustomSectionsBalanced(d: ResumeData, order: seq<SectionId>)
    requires GoodTargets(d)
    ensures Balanced(CustomSections(d, order))
  {
    hide CustomSection, Neutral, Balanced;
    if order == [] {
      NothingBalanced();
    } else {
      CustomSectionsBalanced(d, order[..|order| - 1]);
      CustomSectionBalanced(d, order[|order| - 1]);
      BalancedAppend(CustomSections(d, order[..|order| - 1]), CustomSection(d, order[|order| - 1]));
    }
  }

  const DEFAULT_ORDER := [Summary, Skills, ExperienceId, Projects, EducationId, Certifications]

  function Order(c: CustomConfig): seq<SectionId> { if c.order == [] then DEFAULT_ORDER else c.order }

  // ---- the document

  function CustomBody(d: ResumeData): seq<string> {
    CustomHeader(d.info, d.config) + CustomSections(d, Order(d.config))
  }

  /** The lines of the document. */
  function CustomLines(d: ResumeData): seq<string> {
    CustomPreamble(d.config) + ([BEGIN_DOCUMENT] + CustomBody(d) + [END_DOCUMENT])
  }

  /**
   Whatever the resume, the order of sections and the style, as long as the link targets are good, the
   finished text is well nested.
   */
  lemma CustomNested(d: ResumeData)
    requires GoodTargets(d)
    ensures WellNested(Document(CustomLines(d)))
  {
    hide CustomPreamble, CustomHeader, CustomSections, Balanced, Neutral, WellNested, Document;
    CustomPreambleBalanced(d.config);
    CustomHeaderBalanced(d.info, d.config);
    CustomSectionsBalanced(d, Order(d.config));
    BalancedAppend(CustomHeader(d.info, d.config), CustomSections(d, Order(d.config)));
    WholeNested(CustomPreamble(d.config), CustomBody(d));
  }

  method PushCustomSection(lines: seq<string>, d: ResumeData, id: SectionId) returns (r: seq<string>)
    ensures r == lines + CustomSection(d, id)
  {
    hide CustomSummary, CustomSkills, SkillRows, SectionOf;
    r := lines;
    if id in d.config.hidden { return; }
    match id
    case Summary => r := r + CustomSummary(d.info.summary);
    case Skills =>
      if d.skills != [] {
        var rows := ParseSkillRowsForLatex(d.skills);
        r := r + CustomSkills(rows);
      }
    case ExperienceId => r := PushSection(r, "Experience", d.experience, JobLines);
    case Projects => r := PushSection(r, "Projects", d.projects, WorkLines);
    case EducationId => r := PushSection(r, "Education", d.education, StudyLines);
    case Certifications => r := PushSection(r, "Certifications", d.certifications, DiplomaLines);
  }

  /** The sections in the configured order, without the hidden ones. */
  method PushCustomSections(lines: seq<string>, d: ResumeData, order: seq<SectionId>) returns (r: seq<string>)
    ensures r == lines + CustomSections(d, order)
  {
    hide CustomSection;
    r := lines;
    for i := 0 to |order|
      invariant r == lines + CustomSections(d, order[..i])
    {
      assert order[..i + 1][..i] == order[..i];
      Assoc(lines, CustomSections(d, order[..i]), CustomSection(d, order[i]));
      r := PushCustomSection(r, d, order[i]);
    }
    assert order[..|order|] == order;
  }

  method GenerateCustomLatex(d: ResumeData) returns (doc: string)
    ensures doc == Document(CustomLines(d))
    ensures GoodTargets(d) ==> WellNested(doc)
  {
    hide CustomPreamble, CustomHeader, CustomSections, Document, WellNested;
    var lines := CustomHeader(d.info, d.config);
    lines := PushCustomSections(lines, d, Order(d.config));
    doc := Document(CustomPreamble(d.config) + ([BEGIN_DOCUMENT] + lines + [END_DOCUMENT]));
    if GoodTargets(d) { CustomNested(d); }
  }
}
