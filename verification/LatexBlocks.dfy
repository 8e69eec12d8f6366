/**
 Fragments that occur in several lines of the resume templates, as the templates spell them, and that
 none of them opens or closes anything when what is put into it does not.
 */
module LatexBlocks {
  import opened LatexNesting
  import opened LatexText

  lemma WordSpace(name: string)
    requires CommandName(name)
    ensures Neutral("\\" + name + " ")
  {
    CommandNeutral(name);
    PlainNeutral(" ");
    NeutralAppend("\\" + name, " ");
  }

  lemma DeclaredNeutral(words: string, t: string)
    requires Neutral(words) && Neutral(t)
    ensures Neutral("{" + words + t + "}")
  {
    NeutralAppend(words, t);
    GroupNeutral(words + t);
    assert "{" + words + t + "}" == "{" + (words + t) + "}";
  }

  // ---- commands with an argument

  lemma TextBf(t: string)
    requires Neutral(t)
    ensures Neutral("\\textbf{" + t + "}")
  {
    AppliedNeutral("textbf", t);
    assert "\\" + "textbf" + "{" + t + "}" == "\\textbf{" + t + "}";
  }

  lemma TextIt(t: string)
    requires Neutral(t)
    ensures Neutral("\\textit{" + t + "}")
  {
    AppliedNeutral("textit", t);
    assert "\\" + "textit" + "{" + t + "}" == "\\textit{" + t + "}";
  }

  lemma Underline(t: string)
    requires Neutral(t)
    ensures Neutral("\\underline{" + t + "}")
  {
    AppliedNeutral("underline", t);
    assert "\\" + "underline" + "{" + t + "}" == "\\underline{" + t + "}";
  }

  lemma Uppercased(t: string)
    requires Neutral(t)
    ensures Neutral("\\MakeUppercase{" + t + "}")
  {
    AppliedNeutral("MakeUppercase", t);
    assert "\\" + "MakeUppercase" + "{" + t + "}" == "\\MakeUppercase{" + t + "}";
  }

  lemma Section(t: string)
    requires Neutral(t)
    ensures Neutral("\\section{" + t + "}")
  {
    AppliedNeutral("section", t);
    assert "\\" + "section" + "{" + t + "}" == "\\section{" + t + "}";
  }

  lemma VSpace(size: string)
    requires Neutral(size)
    ensures Neutral("\\vspace{" + size + "}")
  {
    AppliedNeutral("vspace", size);
    assert "\\" + "vspace" + "{" + size + "}" == "\\vspace{" + size + "}";
  }

  lemma Href(url: string, t: string)
    requires Neutral(url) && Neutral(t)
    ensures Neutral("\\href{" + url + "}{" + t + "}")
  {
    AppliedNeutral("href", url);
    GroupNeutral(t);
    NeutralAppend("\\" + "href" + "{" + url + "}", "{" + t + "}");
    assert "\\href{" + url + "}{" + t + "}" == ("\\" + "href" + "{" + url + "}") + ("{" + t + "}");
  }

  // ---- groups with declarations

  lemma Small(t: string)
    requires Neutral(t)
    ensures Neutral("{\\small " + t + "}")
  {
    WordSpace("small");
    DeclaredNeutral("\\" + "small" + " ", t);
    assert "{" + ("\\" + "small" + " ") + t + "}" == "{\\small " + t + "}";
  }

  lemma SmallItalic(t: string)
    requires Neutral(t)
    ensures Neutral("{\\small \\textit{" + t + "}}")
  {
    TextIt(t);
    Small("\\textit{" + t + "}");
    assert "{\\small " + ("\\textit{" + t + "}") + "}" == "{\\small \\textit{" + t + "}}";
  }

  lemma Bold(t: string)
    requires Neutral(t)
    ensures Neutral("{\\bfseries " + t + "}")
  {
    WordSpace("bfseries");
    DeclaredNeutral("\\" + "bfseries" + " ", t);
    assert "{" + ("\\" + "bfseries" + " ") + t + "}" == "{\\bfseries " + t + "}";
  }

  lemma LargeBold(t: string)
    requires Neutral(t)
    ensures Neutral("{\\large \\bfseries " + t + "}")
  {
    WordSpace("large");
    WordSpace("bfseries");
    var words := "\\" + "large" + " " + ("\\" + "bfseries" + " ");
    NeutralAppend("\\" + "large" + " ", "\\" + "bfseries" + " ");
    DeclaredNeutral(words, t);
    assert "{" + words + t + "}" == "{\\large \\bfseries " + t + "}";
  }

  /** `\color{accent}`. */
  lemma AccentColor()
    ensures Neutral("\\color{accent}")
  {
    PlainNeutral("accent");
    AppliedNeutral("color", "accent");
    assert "\\" + "color" + "{" + "accent" + "}" == "\\color{accent}";
  }

  lemma AccentSpace()
    ensures Neutral("\\color{accent} ")
  {
    AccentColor();
    PlainNeutral(" ");
    NeutralAppend("\\color{accent}", " ");
    assert "\\color{accent}" + " " == "\\color{accent} ";
  }

  lemma SmallAccent(t: string)
    requires Neutral(t)
    ensures Neutral("{\\small \\color{accent} " + t + "}")
  {
    AccentSpace();
    NeutralAppend("\\color{accent} ", t);
    Small("\\color{accent} " + t);
    assert "{\\small " + ("\\color{accent} " + t) + "}" == "{\\small \\color{accent} " + t + "}";
  }

  // ---- what stands between

  lemma HFill()
    ensures Neutral(" \\hfill ")
  {
    PlainNeutral(" ");
    WordSpace("hfill");
    NeutralAppend(" ", "\\" + "hfill" + " ");
    assert " " + ("\\" + "hfill" + " ") == " \\hfill ";
  }

  /** The line break at the end of a line. */
  lemma Break()
    ensures Neutral(" \\\\")
  {
    PlainNeutral(" ");
    SymbolTame('\\');
    NeutralAppend(" ", ['\\', '\\']);
    assert " " + ['\\', '\\'] == " \\\\";
  }

  /** A thick space before a link. */
  lemma ThickSpace()
    ensures Neutral("\\; ")
  {
    SymbolTame(';');
    PlainNeutral(" ");
    NeutralAppend(['\\', ';'], " ");
    assert ['\\', ';'] + " " == "\\; ";
  }
}
