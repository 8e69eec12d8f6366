/** What the style settings of the custom template do to its text (apps/web/src/lib/resumeLatex.ts:786-836). */
module CustomStyle {
  import opened JsText
  import opened TextLaws
  import opened LatexEscape
  import opened LatexText
  import opened LatexLines
  import opened TemplateParts
  import opened CustomTemplate
  import opened LatexContents

  // ---- the accent colour

  predicate SixHexDigits(s: string) {
    |s| == 6 && forall c :: c in s ==> c in "0123456789" + "abcdef" + "ABCDEF"
  }

  lemma HexDigitIs(c: char)
    ensures IsHexDigit(c) <==> c in "0123456789" + "abcdef" + "ABCDEF"
  {
    HexLetters(c);
  }

  lemma HexLetters(c: char)
    ensures '0' <= c <= '9' <==> c in "0123456789"
    ensures 'a' <= c <= 'f' <==> c in "abcdef"
    ensures 'A' <= c <= 'F' <==> c in "ABCDEF"
  {
  }

  lemma HexIs(s: string)
    ensures |s| == 6 && IsHex(s) <==> SixHexDigits(s)
  {
    forall c ensures IsHexDigit(c) <==> c in "0123456789" + "abcdef" + "ABCDEF" { HexDigitIs(c); }
  }

  /** Six hexadecimal digits, with a hash in front or without, are the colour. */
  lemma ColorIs(h: string)
    requires SixHexDigits(h)
    ensures HexToLatexColor(h) == h && HexToLatexColor("#" + h) == h
  {
    hide IsHex, Trim, IndexOfChar;
    HexIs(h);
    NoSpaceInHex(h);
    assert IndexOfChar("#" + h, '#') == 0 by { HashFirst(h); }
    assert ("#" + h)[..0] + ("#" + h)[1..] == h;
  }

  lemma HashFirst(h: string)
    ensures IndexOfChar("#" + h, '#') == 0
  {
  }

  lemma NoSpaceInHex(h: string)
    requires SixHexDigits(h)
    ensures Trim(h) == h && Trim("#" + h) == "#" + h && IndexOfChar(h, '#') == |h|
  {
    hide SixHexDigits, IsSpace, IsHexDigit, IndexOfChar, Trim;
    HexIs(h);
    forall c | c in h ensures !IsSpace(c) && c != '#' { HexCharPlain(c); }
    assert h[0] in h && h[5] in h;
    HashNoSpace();
    assert Trimmed(h) && Trimmed("#" + h);
    TrimmedAlready(h);
    TrimmedAlready("#" + h);
    NoHash(h);
  }

  lemma HexCharPlain(c: char)
    requires IsHexDigit(c)
    ensures !IsSpace(c) && c != '#'
  {
  }

  lemma HashNoSpace()
    ensures !IsSpace('#')
  {
  }

  lemma TrimmedAlready(s: string)
    requires Trimmed(s)
    ensures Trim(s) == s
  {
  }

  lemma NoHash(h: string)
    requires '#' !in h
    ensures IndexOfChar(h, '#') == |h|
  {
  }

  /** Anything else, also after taking out one hash, gives the default. */
  lemma OtherColor(s: string)
    requires '#' !in Trim(s) && !SixHexDigits(Trim(s))
    ensures HexToLatexColor(s) == "4f46e5"
  {
    hide IsHex, Trim, SixHexDigits;
    HexIs(Trim(s));
  }

  // ---- the density

  function Steps(d: Density): int {
    match d
    case Compact => -1
    case Comfortable => 0
    case Spacious => 1
  }

  /** The name is 24 points high, its line 4 more, and a heading 6 points off; a step of density changes each by 2. */
  lemma SizesAre(d: Density)
    ensures |NameHeight(d)| == 2 && (forall c :: c in NameHeight(d) ==> IsDigit(c))
    ensures |NameSkip(d)| == 2 && (forall c :: c in NameSkip(d) ==> IsDigit(c))
    ensures Spells(NameHeight(d)) == 24 + 2 * Steps(d) && Spells(NameSkip(d)) == Spells(NameHeight(d)) + 4
    ensures SectionSpacing(d) == Decimal(6 + 2 * Steps(d)) + "pt"
  {
    SpellsTwo(NameHeight(d));
    SpellsTwo(NameSkip(d));
    assert Decimal(6 + 2 * Steps(d)) == [Digit(6 + 2 * Steps(d))];
  }

  lemma SpellsTwo(s: string)
    requires |s| == 2 && IsDigit(s[0]) && IsDigit(s[1])
    ensures forall c :: c in s ==> IsDigit(c)
    ensures Spells(s) == 10 * DigitValue(s[0]) + DigitValue(s[1])
  {
    var first := s[..1];
    assert first == [s[0]] && first[..0] == "";
    assert Spells(first) == 10 * Spells("") + DigitValue(s[0]);
    assert s[..|s| - 1] == first;
  }

  // ---- where the settings go

  function Inches(d: Density): string {
    match d
    case Compact => "0.45in"
    case Comfortable => "0.50in"
    case Spacious => "0.60in"
  }

  function Family(f: Font): string {
    match f
    case Sans => "sourcesanspro"
    case Serif => "lmodern"
    case Mono => "beramono"
    case Display => "helvet"
  }

  lemma MarginIs(d: Density)
    ensures MarginWidth(d) == "[margin=" + Inches(d) + "]"
  {
    match d
    case Compact => assert "[margin=" + "0.45in" + "]" == "[margin=0.45in]";
    case Comfortable => assert "[margin=" + "0.50in" + "]" == "[margin=0.50in]";
    case Spacious => assert "[margin=" + "0.60in" + "]" == "[margin=0.60in]";
  }

  lemma MarginSays(d: Density)
    ensures Says(PackageLine(MarginWidth(d), "geometry"), ["[margin=" + Inches(d) + "]", "{geometry}"])
  {
    hide Says, MarginWidth, Inches;
    var margin := "[margin=" + Inches(d) + "]";
    MarginIs(d);
    SaysItself(margin);
    SaysItself("{geometry}");
    Starts("\\usepackage", margin, [margin]);
    SaysBoth("\\usepackage" + margin, [margin], "{geometry}", ["{geometry}"]);
    assert "\\usepackage" + margin + "{geometry}" == "\\usepackage" + margin + "{" + "geometry" + "}";
    assert [margin] + ["{geometry}"] == [margin, "{geometry}"];
  }

  lemma FontSays(f: Font)
    ensures Says(FontPackage(f), ["{" + Family(f) + "}"])
  {
    hide Says, PackageLine, FAMILY_START, FONT_ENCODING;
    match f
    case Sans =>
      PackageSays("[default]", "sourcesanspro", "");
      assert PackageLine("[default]", "sourcesanspro") + "" == PackageLine("[default]", "sourcesanspro");
    case Serif => PackageSays("", "lmodern", "\n" + FONT_ENCODING);
    case Mono => PackageSays("[scaled=0.9]", "beramono", "\n" + (FAMILY_START + "{\\ttdefault}"));
    case Display => PackageSays("", "helvet", "\n" + (FAMILY_START + "{\\sfdefault}"));
  }

  lemma ColorSays(hex: string)
    ensures Says(ColorLine(hex), ["{accent}", "{HTML}", "{" + hex + "}"])
  {
    hide Says;
    var color := "{" + hex + "}";
    SaysItself("{accent}");
    SaysItself("{HTML}");
    SaysItself(color);
    Starts("\\definecolor", "{accent}", ["{accent}"]);
    SaysBoth("\\definecolor" + "{accent}", ["{accent}"], "{HTML}", ["{HTML}"]);
    SaysBoth("\\definecolor" + "{accent}" + "{HTML}", ["{accent}"] + ["{HTML}"], color, [color]);
    assert ["{accent}"] + ["{HTML}"] + [color] == ["{accent}", "{HTML}", color];
  }

  lemma SpacingSays(d: Density)
    ensures Says(TitleSpacing(SectionSpacing(d)), ["{" + SectionSpacing(d) + "}"])
  {
    hide Says, SectionSpacing;
    var before := "{" + SectionSpacing(d) + "}";
    SaysItself(before);
    Starts("\\titlespacing*" + "{\\section}" + "{0pt}", before, [before]);
    Ends("\\titlespacing*" + "{\\section}" + "{0pt}" + before, [before], "{4pt}");
  }

  /** What the preamble says of the settings: font, margins, colour, and the space before a heading. */
  function StyleParts(c: CustomConfig): seq<string> {
    ["{" + Family(c.font) + "}"] + ["[margin=" + Inches(c.density) + "]", "{geometry}"]
    + ["{accent}", "{HTML}", "{" + HexToLatexColor(c.accentColor) + "}"] + ["{" + SectionSpacing(c.density) + "}"]
  }

  lemma PackagesSay(c: CustomConfig)
    ensures LinesSay(CustomPackages(c),
        ["{" + Family(c.font) + "}"] + ["[margin=" + Inches(c.density) + "]", "{geometry}"]
        + ["{accent}", "{HTML}", "{" + HexToLatexColor(c.accentColor) + "}"])
  {
    hide LinesSay, Says, FontPackage, PackageLine, ColorLine, HexToLatexColor, DOCUMENT_CLASS, INPUT_ENCODING,
        FONT_ENCODING, LAYOUT_PACKAGES, HYPERREF, MarginWidth, Family, Inches;
    var font, margin := ["{" + Family(c.font) + "}"], ["[margin=" + Inches(c.density) + "]", "{geometry}"];
    var color := ["{accent}", "{HTML}", "{" + HexToLatexColor(c.accentColor) + "}"];
    var geometry, accent := PackageLine(MarginWidth(c.density), "geometry"), ColorLine(HexToLatexColor(c.accentColor));
    FontSays(c.font);
    LineSays(FontPackage(c.font), font);
    MarginSays(c.density);
    LineSays(geometry, margin);
    ColorSays(HexToLatexColor(c.accentColor));
    LineSays(accent, color);
    LinesStart([DOCUMENT_CLASS, INPUT_ENCODING, FONT_ENCODING], [FontPackage(c.font)], font);
    var start := [DOCUMENT_CLASS, INPUT_ENCODING, FONT_ENCODING] + [FontPackage(c.font)];
    LinesSayBoth(start, font, [geometry], margin);
    LinesEnd(start + [geometry], font + margin, LAYOUT_PACKAGES);
    LinesSayBoth(start + [geometry] + LAYOUT_PACKAGES, font + margin, [accent], color);
    LinesEnd(start + [geometry] + LAYOUT_PACKAGES + [accent], font + margin + color, [HYPERREF]);
    assert start + [geometry] + LAYOUT_PACKAGES + [accent] + [HYPERREF] == CustomPackages(c);
  }

  lemma StyleLinesSay(c: CustomConfig)
    ensures LinesSay(CustomStyle(c), ["{" + SectionSpacing(c.density) + "}"])
  {
    hide LinesSay, Says, TitleSpacing, SectionSpacing, RULED_TITLE, PLAIN_TITLE, ACCENT_LIST, NO_PAGE_STYLE;
    var before := ["{" + SectionSpacing(c.density) + "}"];
    var line, title := TitleSpacing(SectionSpacing(c.density)), if c.showDividers then RULED_TITLE else PLAIN_TITLE;
    SpacingSays(c.density);
    LineSays(line, before);
    LinesStart(NO_PAGE_STYLE + [title], [line], before);
    LinesEnd(NO_PAGE_STYLE + [title] + [line], before, [ACCENT_LIST]);
    assert NO_PAGE_STYLE + [title] + [line] + [ACCENT_LIST] == CustomStyle(c);
  }

  /** The preamble carries the settings of the user. */
  lemma PreambleSays(c: CustomConfig)
    ensures LinesSay(CustomPreamble(c), StyleParts(c))
  {
    hide LinesSay, Notes, CustomPackages, CustomStyle, HexToLatexColor, SectionSpacing, Family, Inches;
    PackagesSay(c);
    StyleLinesSay(c);
    var parts := ["{" + Family(c.font) + "}"] + ["[margin=" + Inches(c.density) + "]", "{geometry}"]
      + ["{accent}", "{HTML}", "{" + HexToLatexColor(c.accentColor) + "}"];
    LinesStart(Notes(c), CustomPackages(c), parts);
    LinesSayBoth(Notes(c) + CustomPackages(c), parts, CustomStyle(c), ["{" + SectionSpacing(c.density) + "}"]);
  }

  /** Dividers are drawn exactly when the user wants them: with the headings and under the header. */
  lemma DividersIff(c: CustomConfig)
    ensures RULED_TITLE in CustomStyle(c) <==> c.showDividers
    ensures THIN_RULE in AfterCenter(c) <==> c.showDividers
  {
    hide RULED_TITLE, THIN_RULE, NO_PAGE_STYLE, TitleSpacing, ACCENT_LIST, SectionSpacing, SPACE_4, SPACE_6;
    OtherLines(SectionSpacing(c.density));
    LongerTitle();
    OnlyRule();
  }

  lemma OnlyRule()
    ensures THIN_RULE != SPACE_4 && THIN_RULE != SPACE_6
  {
    assert THIN_RULE[0] == '{' && SPACE_4[0] == '\\' && SPACE_6[0] == '\\';
  }

  lemma LongerTitle()
    ensures PLAIN_TITLE != RULED_TITLE
  {
    hide PLAIN_TITLE;
    assert |RULED| >= 1;
    assert |RULED_TITLE| == |PLAIN_TITLE| + |RULED|;
  }

  lemma TitleStart()
    ensures |RULED_TITLE| > 6 && RULED_TITLE[1] == 't' && RULED_TITLE[6] == 'f'
  {
    hide TITLE_GAPS, RULED, ACCENT_TITLE;
    assert TITLE_HEAD[1] == 't' && TITLE_HEAD[6] == 'f';
  }

  lemma OtherLines(before: string)
    ensures RULED_TITLE !in NO_PAGE_STYLE && RULED_TITLE != TitleSpacing(before) && RULED_TITLE != ACCENT_LIST
  {
    hide RULED_TITLE;
    TitleStart();
    assert PAGE_STYLE[1] == 'p' && NO_INDENT[1] == 's' && NO_SKIP[1] == 's';
    assert TitleSpacing(before)[6] == 's';
    ListStart();
  }

  lemma ListStart()
    ensures |ACCENT_LIST| > 6 && ACCENT_LIST[1] == 's'
  {
    hide ACCENT_BULLET, LOOSE_SPACING;
  }

  /** The headline is set in capitals exactly in the style that asks for it. */
  lemma HeadlineIs(headline: string, style: HeadingStyle)
    ensures var text := EscapeLatex(if AllSpace(headline) then "FULL STACK DEVELOPER" else Trim(headline));
      CustomHeadline(headline, style) == if style == Uppercase then "\\MakeUppercase{" + text + "}" else text
  {
    hide EscapeLatex, Trim, AllSpace;
    BlankIff(headline);
  }
}
