/**
 What a generated text says: that given texts stand in it one after the other, whatever stands between
 them. And where a list of lines has its section headings.
 */
module LatexContents {
  import opened JsText
  import opened TextLaws
  import opened LatexEscape
  import opened LatexText
  import opened LatexSkills
  import opened LatexLines
  import opened TemplateParts

  predicate StandsAt(t: string, p: string, i: nat) { i + |p| <= |t| && t[i..i + |p|] == p }

  /** The parts stand in the text one after the other, without overlap. */
  ghost predicate Says(t: string, parts: seq<string>)
    decreases |parts|
  {
    parts == [] || exists i: nat :: StandsAt(t, parts[0], i) && Says(t[i + |parts[0]|..], parts[1..])
  }

  lemma SaysAt(t: string, parts: seq<string>, i: nat)
    requires parts != [] && StandsAt(t, parts[0], i)
    requires Says(t[i + |parts[0]|..], parts[1..])
    ensures Says(t, parts)
  {
  }

  lemma SaysBehind(a: string, b: string, parts: seq<string>)
    requires Says(b, parts)
    ensures Says(a + b, parts)
  {
    if parts != [] {
      var n := |parts[0]|;
      var i: nat :| StandsAt(b, parts[0], i) && Says(b[i + n..], parts[1..]);
      assert (a + b)[|a| + i..|a| + i + n] == b[i..i + n];
      assert (a + b)[|a| + i + n..] == b[i + n..];
      SaysAt(a + b, parts, |a| + i);
    }
  }

  lemma SaysSplits(t: string, parts: seq<string>) returns (i: nat)
    requires parts != [] && Says(t, parts)
    ensures StandsAt(t, parts[0], i) && Says(t[i + |parts[0]|..], parts[1..])
  {
    i :| StandsAt(t, parts[0], i) && Says(t[i + |parts[0]|..], parts[1..]);
  }

  lemma StandsFirst(a: string, b: string, p: string, i: nat)
    requires StandsAt(a, p, i)
    ensures StandsAt(a + b, p, i) && (a + b)[i + |p|..] == a[i + |p|..] + b
  {
    assert (a + b)[i..i + |p|] == a[i..i + |p|];
  }

  /** Two texts together say what the first says and then what the second says. */
  lemma {:induction false} SaysBoth(a: string, ps: seq<string>, b: string, qs: seq<string>)
    requires Says(a, ps) && Says(b, qs)
    ensures Says(a + b, ps + qs)
    decreases |ps|
  {
    hide Says, StandsAt;
    if ps == [] {
      SaysBehind(a, b, qs);
      assert ps + qs == qs;
    } else {
      var i := SaysSplits(a, ps);
      StandsFirst(a, b, ps[0], i);
      SaysBoth(a[i + |ps[0]|..], ps[1..], b, qs);
      assert (ps + qs)[1..] == ps[1..] + qs;
      SaysAt(a + b, ps + qs, i);
    }
  }

  lemma SaysNothing(t: string)
    ensures Says(t, [])
  {
  }

  lemma SaysItself(p: string)
    ensures Says(p, [p])
  {
    assert p[0..|p|] == p && [p][1..] == [];
    SaysNothing(p[|p|..]);
    SaysAt(p, [p], 0);
  }

  /** A text goes on with other words and then with a text that says something. */
  lemma Goes(a: string, ps: seq<string>, words: string, b: string, qs: seq<string>)
    requires Says(a, ps) && Says(b, qs)
    ensures Says(a + words + b, ps + qs)
  {
    SaysNothing(words);
    SaysBoth(a, ps, words, []);
    assert ps + [] == ps;
    SaysBoth(a + words, ps, b, qs);
  }

  lemma Starts(words: string, b: string, qs: seq<string>)
    requires Says(b, qs)
    ensures Says(words + b, qs)
  {
    SaysBehind(words, b, qs);
  }

  lemma Ends(a: string, ps: seq<string>, words: string)
    requires Says(a, ps)
    ensures Says(a + words, ps)
  {
    SaysNothing(words);
    SaysBoth(a, ps, words, []);
    assert ps + [] == ps;
  }

  // ---- lists of lines

  ghost predicate LinesSay(lines: seq<string>, parts: seq<string>) { Says(Emit(lines), parts) }

  lemma LinesSayBoth(a: seq<string>, ps: seq<string>, b: seq<string>, qs: seq<string>)
    requires LinesSay(a, ps) && LinesSay(b, qs)
    ensures LinesSay(a + b, ps + qs)
  {
    hide Says;
    EmitAppend(a, b);
    SaysBoth(Emit(a), ps, Emit(b), qs);
  }

  lemma LineSays(line: string, parts: seq<string>)
    requires Says(line, parts)
    ensures LinesSay([line], parts)
  {
    Ends(line, parts, "\n");
    assert Emit([line]) == line + "\n" by { assert "\n" + "" == "\n"; }
  }

  lemma LinesSayNothing(lines: seq<string>)
    ensures LinesSay(lines, [])
  {
    SaysNothing(Emit(lines));
  }

  lemma LinesEnd(a: seq<string>, ps: seq<string>, b: seq<string>)
    requires LinesSay(a, ps)
    ensures LinesSay(a + b, ps)
  {
    LinesSayNothing(b);
    LinesSayBoth(a, ps, b, []);
    assert ps + [] == ps;
  }

  lemma LinesStart(a: seq<string>, b: seq<string>, qs: seq<string>)
    requires LinesSay(b, qs)
    ensures LinesSay(a + b, qs)
  {
    LinesSayNothing(a);
    LinesSayBoth(a, [], b, qs);
    assert [] + qs == qs;
  }

  /** When each item's lines say what belongs to the item, all lines together say it, item after item. */
  lemma {:induction false} EachSays<T(!new)>(items: seq<T>, f: T -> seq<string>, parts: T -> seq<string>)
    requires forall x :: x in items ==> LinesSay(f(x), parts(x))
    ensures LinesSay(Each(items, f), Each(items, parts))
  {
    hide LinesSay;
    if items == [] {
      LinesSayNothing([]);
    } else {
      EachSays(items[..|items| - 1], f, parts);
      LinesSayBoth(Each(items[..|items| - 1], f), Each(items[..|items| - 1], parts),
                   f(items[|items| - 1]), parts(items[|items| - 1]));
    }
  }

  /** A heading and its lines say the heading and what the lines say. */
  lemma HeadedSays(name: string, body: seq<string>, parts: seq<string>)
    requires LinesSay(body, parts)
    ensures LinesSay(Headed(name, body), [name] + parts)
  {
    hide LinesSay, Says;
    SaysItself(name);
    Starts("\\section{", name, [name]);
    Ends("\\section{" + name, [name], "}");
    LineSays(SectionLine(name), [name]);
    LinesSayBoth([SectionLine(name)], [name], body, parts);
    LinesEnd([SectionLine(name)] + body, [name] + parts, [""]);
  }

  /** A section with its title, when it has items. */
  function SectionParts<T(!new)>(name: string, items: seq<T>, parts: T -> seq<string>): seq<string> {
    if items == [] then [] else [name] + Each(items, parts)
  }

  lemma SectionSays<T(!new)>(name: string, items: seq<T>, f: T -> seq<string>, parts: T -> seq<string>)
    requires forall x :: x in items ==> LinesSay(f(x), parts(x))
    ensures LinesSay(SectionOf(name, items, f), SectionParts(name, items, parts))
  {
    hide LinesSay, Headed;
    if items == [] {
      LinesSayNothing([]);
    } else {
      EachSays(items, f, parts);
      HeadedSays(name, Each(items, f), Each(items, parts));
    }
  }

  // ---- texts that both templates print

  /** An optional text with a prefix, or nothing when the text is white space. */
  function Given(prefix: string, s: string): seq<string> {
    if AllSpace(s) then [] else [prefix + EscTrim(s)]
  }

  lemma PrefixedSays(prefix: string, s: string)
    ensures Says(Prefixed(prefix, s), Given(prefix, s))
  {
    hide Says, Trim, EscapeLatex, AllSpace;
    BlankIff(s);
    SaysNothing("");
    SaysItself(Prefixed(prefix, s));
  }

  lemma TextSays(s: string)
    ensures Says(EscTrim(s), Given("", s))
  {
    hide Says, Trim, EscapeLatex, AllSpace;
    BlankIff(s);
    SaysNothing(EscTrim(s));
    SaysItself(EscTrim(s));
    assert "" + EscTrim(s) == EscTrim(s);
  }

  /** A link with its target and its text. */
  lemma HrefSays(target: string, text: string)
    ensures Says("\\href{" + target + "}{" + text + "}", ["\\href{" + target + "}", text])
  {
    hide Says;
    var head := "\\href{" + target + "}";
    SaysItself(head);
    SaysItself(text);
    Goes(head, [head], "{", text, [text]);
    Ends(head + "{" + text, [head] + [text], "}");
    assert "\\href{" + target + "}{" + text + "}" == head + "{" + text + "}";
    assert [head] + [text] == [head, text];
  }

  lemma {:induction false} JoinSays(pieces: seq<string>, sep: string)
    ensures Says(Join(pieces, sep), pieces)
  {
    hide Says;
    if |pieces| == 0 {
      SaysNothing("");
    } else if |pieces| == 1 {
      SaysItself(pieces[0]);
      assert pieces == [pieces[0]];
    } else {
      JoinSays(pieces[1..], sep);
      SaysItself(pieces[0]);
      Goes(pieces[0], [pieces[0]], sep, Join(pieces[1..], sep), pieces[1..]);
      assert [pieces[0]] + pieces[1..] == pieces;
    }
  }

  /** The texts of a list of which each may say several things. */
  lemma {:induction false} JoinEachSays<T(!new)>(items: seq<T>, f: T -> string, parts: T -> seq<string>, sep: string)
    requires forall x :: x in items ==> Says(f(x), parts(x))
    ensures Says(Join(Texts(items, f), sep), Each(items, parts))
  {
    hide Says;
    var n := |items|;
    if n == 0 {
      SaysNothing("");
    } else {
      var front, last := items[..n - 1], items[n - 1];
      JoinEachSays(front, f, parts, sep);
      if n == 1 {
        assert Texts(items, f) == [f(last)] && Each(front, parts) == [];
        assert [] + parts(last) == parts(last);
      } else {
        Goes(Join(Texts(front, f), sep), Each(front, parts), sep, f(last), parts(last));
        assert Texts(items, f) == Texts(front, f) + [f(last)];
        JoinSnoc(Texts(front, f), f(last), sep);
      }
    }
  }

  function Texts<T(!new)>(items: seq<T>, f: T -> string): (r: seq<string>)
    ensures |r| == |items| && forall i :: 0 <= i < |r| ==> r[i] == f(items[i])
  {
    seq(|items|, i requires 0 <= i < |items| => f(items[i]))
  }

  lemma {:induction false} JoinSnoc(pieces: seq<string>, p: string, sep: string)
    requires pieces != []
    ensures Join(pieces + [p], sep) == Join(pieces, sep) + sep + p
  {
    if |pieces| == 1 {
      assert (pieces + [p])[1..] == [p];
    } else {
      JoinSnoc(pieces[1..], p, sep);
      assert (pieces + [p])[1..] == pieces[1..] + [p];
      Assoc(pieces[0] + sep, Join(pieces[1..], sep) + sep, p);
      Assoc(pieces[0] + sep, Join(pieces[1..], sep), sep);
    }
  }

  /** The bullets that are printed: those that are not blank. */
  function BulletParts(bullets: seq<string>): (r: seq<string>)
  {
    Texts(TrimmedNonEmpty(bullets), FormatBullet)
  }

  lemma {:induction false} ItemsSay(bullets: seq<string>)
    ensures LinesSay(ItemLines(bullets), Texts(bullets, FormatBullet))
    decreases |bullets|
  {
    hide LinesSay, FormatBullet, Says;
    var n := |bullets|;
    if n == 0 {
      LinesSayNothing([]);
      assert ItemLines(bullets) == [];
      assert Texts(bullets, FormatBullet) == [];
    } else {
      var front, last := bullets[..n - 1], bullets[n - 1];
      ItemsSay(front);
      SaysItself(FormatBullet(last));
      Starts(ITEM, FormatBullet(last), [FormatBullet(last)]);
      LineSays(ITEM + FormatBullet(last), [FormatBullet(last)]);
      LinesSayBoth(ItemLines(front), Texts(front, FormatBullet), [ITEM + FormatBullet(last)], [FormatBullet(last)]);
      assert ItemLines(bullets) == ItemLines(front) + [ITEM + FormatBullet(last)];
      assert Texts(bullets, FormatBullet) == Texts(front, FormatBullet) + [FormatBullet(last)];
    }
  }

  lemma BulletsSay(options: string, bullets: seq<string>)
    ensures LinesSay(BulletLines(options, bullets), BulletParts(bullets))
  {
    hide LinesSay, FormatBullet, Says, TrimmedNonEmpty;
    var shown := TrimmedNonEmpty(bullets);
    if shown == [] {
      LinesSayNothing([SPACE_2]);
      assert BulletParts(bullets) == [];
    } else {
      ItemsSay(shown);
      LinesStart([BEGIN_ITEMIZE + options], ItemLines(shown), BulletParts(bullets));
      LinesEnd([BEGIN_ITEMIZE + options] + ItemLines(shown), BulletParts(bullets), [END_ITEMIZE]);
    }
  }

  lemma TechSays(tech: seq<string>)
    ensures Says(TechList(tech), EscAll(tech))
  {
    hide Says, EscapeLatex;
    if tech == [] {
      SaysNothing("");
      assert EscAll(tech) == [];
    } else {
      JoinSays(EscAll(tech), " $\\cdot$ ");
      Starts("\\textit{", Join(EscAll(tech), " $\\cdot$ "), EscAll(tech));
      Ends("\\textit{" + Join(EscAll(tech), " $\\cdot$ "), EscAll(tech), "}");
    }
  }

  /** The rows of the skill table: name and value of each. */
  function RowParts(r: SkillRow): seq<string> { [r.name, r.value] }

  lemma {:induction false} SkillLinesSay(rows: seq<SkillRow>)
    ensures LinesSay(SkillLines(rows), Each(rows, RowParts))
    decreases |rows|
  {
    hide LinesSay, Says;
    var n := |rows|;
    if n == 0 {
      LinesSayNothing([]);
      assert SkillLines(rows) == [];
    } else {
      var front, last := rows[..n - 1], rows[n - 1];
      SkillLinesSay(front);
      SkillLineSays(last);
      LineSays(SkillLine(last), RowParts(last));
      LinesSayBoth(SkillLines(front), Each(front, RowParts), [SkillLine(last)], RowParts(last));
      assert SkillLines(rows) == SkillLines(front) + [SkillLine(last)];
    }
  }

  lemma SkillLineSays(r: SkillRow)
    ensures Says(SkillLine(r), RowParts(r))
  {
    hide Says;
    SaysItself(r.name);
    SaysItself(r.value);
    Starts("  \\textbf{", r.name, [r.name]);
    Goes("  \\textbf{" + r.name, [r.name], ":} & ", r.value, [r.value]);
    assert [r.name] + [r.value] == RowParts(r);
    Ends("  \\textbf{" + r.name + ":} & " + r.value, RowParts(r), " \\\\");
  }

  lemma SkillTableSays(rows: seq<SkillRow>)
    ensures LinesSay(SkillTable(rows), Each(rows, RowParts))
  {
    hide LinesSay;
    SkillLinesSay(rows);
    LinesStart([BEGIN_TABULAR + SKILL_COLUMNS], SkillLines(rows), Each(rows, RowParts));
    LinesEnd([BEGIN_TABULAR + SKILL_COLUMNS] + SkillLines(rows), Each(rows, RowParts), [END_TABULAR]);
  }

  // ---- packages

  /** A line that loads a package, whatever its options and what follows. */
  lemma PackageSays(options: string, name: string, rest: string)
    ensures Says(PackageLine(options, name) + rest, ["{" + name + "}"])
  {
    hide Says;
    SaysItself("{" + name + "}");
    Starts("\\usepackage" + options, "{" + name + "}", ["{" + name + "}"]);
    Ends("\\usepackage" + options + ("{" + name + "}"), ["{" + name + "}"], rest);
    assert "\\usepackage" + options + ("{" + name + "}") + rest == PackageLine(options, name) + rest;
  }

  /** The packages that the lines load, in order; other lines between them. */
  ghost predicate Loads(lines: seq<string>, packages: seq<string>) { LinesSay(lines, Texts(packages, Braced)) }

  function Braced(name: string): string { "{" + name + "}" }

  lemma LoadsOne(options: string, name: string)
    ensures Loads([PackageLine(options, name)], [name])
  {
    hide Says;
    PackageSays(options, name, "");
    assert PackageLine(options, name) + "" == PackageLine(options, name);
    LineSays(PackageLine(options, name), [Braced(name)]);
    assert Texts([name], Braced) == [Braced(name)];
  }

  lemma LoadsBoth(a: seq<string>, ps: seq<string>, b: seq<string>, qs: seq<string>)
    requires Loads(a, ps) && Loads(b, qs)
    ensures Loads(a + b, ps + qs)
  {
    hide LinesSay;
    LinesSayBoth(a, Texts(ps, Braced), b, Texts(qs, Braced));
    assert Texts(ps + qs, Braced) == Texts(ps, Braced) + Texts(qs, Braced);
  }

  lemma LoadsNothing(lines: seq<string>)
    ensures Loads(lines, [])
  {
    LinesSayNothing(lines);
    assert Texts([], Braced) == [];
  }

  /** What both templates load for the layout. */
  lemma LayoutLoads()
    ensures Loads(LAYOUT_PACKAGES, ["enumitem", "titlesec", "xcolor"])
  {
    hide Loads, PackageLine;
    LoadsOne("", "enumitem");
    LoadsOne("", "titlesec");
    LoadsOne("", "xcolor");
    LoadsBoth([PackageLine("", "enumitem")], ["enumitem"], [PackageLine("", "titlesec")], ["titlesec"]);
    LoadsBoth([PackageLine("", "enumitem")] + [PackageLine("", "titlesec")], ["enumitem"] + ["titlesec"],
              [PackageLine("", "xcolor")], ["xcolor"]);
    assert ["enumitem"] + ["titlesec"] + ["xcolor"] == ["enumitem", "titlesec", "xcolor"];
    assert [PackageLine("", "enumitem")] + [PackageLine("", "titlesec")] + [PackageLine("", "xcolor")]
        == LAYOUT_PACKAGES;
  }

  // ---- contacts

  function MailParts(email: string): seq<string> {
    if AllSpace(email) then [] else ["\\href{mailto:" + Target(email) + "}", EscTrim(email)]
  }

  function LinkParts(l: Link): seq<string> {
    if AllSpace(l.url) then []
    else ["\\href{" + Target(l.url) + "}", EscapeLatex(if l.name == "" then "Link" else l.name)]
  }

  lemma {:induction false} WithUrlParts(links: seq<Link>)
    ensures Each(WithUrl(links), LinkParts) == Each(links, LinkParts)
    ensures forall l :: l in WithUrl(links) ==> !AllSpace(l.url)
  {
    hide LinkParts, Trim, AllSpace;
    if links != [] {
      WithUrlParts(links[1..]);
      BlankIff(links[0].url);
      EachCons(links[0], links[1..], LinkParts);
      EachCons(links[0], WithUrl(links[1..]), LinkParts);
      assert [links[0]] + links[1..] == links;
      BlankLink(links[0]);
      assert [] + WithUrl(links[1..]) == WithUrl(links[1..]);
    }
  }

  lemma BlankLink(l: Link)
    ensures AllSpace(l.url) ==> LinkParts(l) == []
  {
  }

  lemma {:induction false} EachCons<T(!new)>(x: T, items: seq<T>, f: T -> seq<string>)
    ensures Each([x] + items, f) == f(x) + Each(items, f)
  {
    if items == [] {
      assert [x] + items == [x] && [x][..0] == [];
    } else {
      var front, last := items[..|items| - 1], items[|items| - 1];
      EachCons(x, front, f);
      assert ([x] + items)[..|items|] == [x] + front;
      Assoc(f(x), Each(front, f), f(last));
    }
  }

  lemma {:induction false} JoinBoth(a: seq<string>, b: seq<string>, sep: string)
    ensures a == [] ==> Join(a + b, sep) == Join(b, sep)
    ensures b == [] ==> Join(a + b, sep) == Join(a, sep)
    ensures a != [] && b != [] ==> Join(a + b, sep) == Join(a, sep) + sep + Join(b, sep)
  {
    if a == [] {
      assert a + b == b;
    } else if b == [] {
      assert a + b == a;
    } else if |a| == 1 {
      assert (a + b)[1..] == b;
    } else {
      JoinBoth(a[1..], b, sep);
      assert (a + b)[1..] == a[1..] + b;
      Assoc(a[0] + sep, Join(a[1..], sep) + sep, Join(b, sep));
      Assoc(a[0] + sep, Join(a[1..], sep), sep);
    }
  }

  lemma JoinedSay(a: seq<string>, ps: seq<string>, b: seq<string>, qs: seq<string>, sep: string)
    requires Says(Join(a, sep), ps) && Says(Join(b, sep), qs) && (a == [] ==> ps == []) && (b == [] ==> qs == [])
    ensures Says(Join(a + b, sep), ps + qs)
  {
    hide Says, Join;
    JoinBoth(a, b, sep);
    if a == [] {
      assert ps + qs == qs;
    } else if b == [] {
      assert ps + qs == ps;
    } else {
      Goes(Join(a, sep), ps, sep, Join(b, sep), qs);
    }
  }

  lemma OneJoined(t: string, sep: string)
    ensures Join([t], sep) == t && Join([], sep) == ""
  {
  }

  lemma EachSnoc<T(!new)>(items: seq<T>, x: T, f: T -> seq<string>)
    ensures Each(items + [x], f) == Each(items, f) + f(x)
  {
    assert (items + [x])[..|items|] == items;
  }

  lemma DocumentSays(lines: seq<string>, parts: seq<string>)
    requires LinesSay(lines, parts)
    ensures Says(Document(lines), parts)
  {
    JoinIsEmit(lines);
  }
}
