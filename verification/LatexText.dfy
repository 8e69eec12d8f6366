/**
 The texts that the resume templates put into their lines (apps/web/src/lib/resumeLatex.ts:34-117).
 All texts are plain strings. That they open and close nothing is proved of their characters, by the
 reader of LatexNesting.dfy.
 */
module LatexText {
  import opened JsText
  import opened LatexEscape
  import opened LatexNesting

  // ---- neutral texts side by side

  lemma Neutral3(a: string, b: string, c: string)
    requires Neutral(a) && Neutral(b) && Neutral(c)
    ensures Neutral(a + b + c)
  {
    NeutralAppend(a, b);
    NeutralAppend(a + b, c);
  }

  lemma Neutral4(a: string, b: string, c: string, d: string)
    requires Neutral(a) && Neutral(b) && Neutral(c) && Neutral(d)
    ensures Neutral(a + b + c + d)
  {
    Neutral3(a, b, c);
    NeutralAppend(a + b + c, d);
  }

  lemma Neutral5(a: string, b: string, c: string, d: string, e: string)
    requires Neutral(a) && Neutral(b) && Neutral(c) && Neutral(d) && Neutral(e)
    ensures Neutral(a + b + c + d + e)
  {
    Neutral4(a, b, c, d);
    NeutralAppend(a + b + c + d, e);
  }

  lemma EscapedNeutral(s: string)
    ensures Neutral(EscapeLatex(s))
  {
    EscapedIsTame(s);
  }

  /** A control word with an argument in braces. */
  lemma AppliedNeutral(name: string, t: string)
    requires CommandName(name) && Neutral(t)
    ensures Neutral("\\" + name + "{" + t + "}")
  {
    CommandNeutral(name);
    GroupNeutral(t);
    NeutralAppend("\\" + name, "{" + t + "}");
    assert "\\" + name + "{" + t + "}" == ("\\" + name) + ("{" + t + "}");
  }

  ghost predicate AllNeutral(texts: seq<string>) {
    forall i :: 0 <= i < |texts| ==> Neutral(texts[i])
  }

  lemma {:induction false} JoinNeutral(texts: seq<string>, sep: string)
    requires AllNeutral(texts) && Neutral(sep)
    ensures Neutral(Join(texts, sep))
  {
    if texts == [] {
      PlainNeutral("");
    } else if |texts| > 1 {
      JoinNeutral(texts[1..], sep);
      Neutral3(texts[0], sep, Join(texts[1..], sep));
    }
  }

  /** `list.map(f).filter(Boolean)` of neutral texts. */
  lemma KeptNeutral(items: seq<string>, f: string -> string)
    requires forall x :: Neutral(f(x))
    ensures AllNeutral(NonEmptyAfter(items, f))
  {
    var kept := NonEmptyAfter(items, f);
    forall i | 0 <= i < |kept| ensures Neutral(kept[i]) { assert kept[i] in kept; }
  }

  // ---- link targets

  function FmtUrlForHref(u: string): string {
    ReplaceChar(ReplaceChar(u, '%', "\\%"), '#', "\\#")
  }

  function UrlChar(c: char): string {
    if c == '%' then "\\%" else if c == '#' then "\\#" else [c]
  }

  lemma {:induction false} FmtUrlEach(u: string)
    ensures FmtUrlForHref(u) == MapText(u, UrlChar)
  {
    if u != "" {
      FmtUrlEach(u[1..]);
      var rest := ReplaceChar(u[1..], '%', "\\%");
      if u[0] == '%' {
        assert ("\\%" + rest)[1..] == "%" + rest && ("%" + rest)[1..] == rest;
        assert ReplaceChar("%" + rest, '#', "\\#") == "%" + ReplaceChar(rest, '#', "\\#");
      } else {
        assert ([u[0]] + rest)[1..] == rest;
      }
    }
  }

  /** `fmtUrlForHref(url.trim())`. */
  function Target(url: string): string { FmtUrlForHref(Trim(url)) }

  /**
   Link targets are put in with only `%` and `#` escaped. Read on its own, a good one leaves nothing
   open and closes nothing that it has not opened.
   */
  predicate GoodTarget(url: string) { Scan(Target(url), Reader(Plain, [])) == Reader(Plain, []) }

  lemma GoodTargetIff(url: string)
    ensures GoodTarget(url) <==> Neutral(Target(url))
  {
    NeutralIff(Target(url));
  }

  predicate PlainUrl(u: string) { '\\' !in u && '{' !in u && '}' !in u }

  lemma {:induction false} UrlNeutral(u: string)
    requires PlainUrl(u)
    ensures Neutral(MapText(u, UrlChar))
  {
    if u == "" {
      PlainNeutral("");
    } else {
      assert u[0] in u && forall c :: c in u[1..] ==> c in u;
      UrlNeutral(u[1..]);
      if u[0] == '%' || u[0] == '#' { SymbolTame(u[0]); } else { PlainNeutral([u[0]]); }
      NeutralAppend(UrlChar(u[0]), MapText(u[1..], UrlChar));
    }
  }

  /** A target without braces and backslashes is good. */
  lemma PlainUrlIsGood(url: string)
    requires PlainUrl(url)
    ensures GoodTarget(url)
  {
    TrimChars(url);
    FmtUrlEach(Trim(url));
    UrlNeutral(Trim(url));
    GoodTargetIff(url);
  }

  // ---- fields

  /** `x?.trim() || fallback`. */
  function Or(s: string, fallback: string): string {
    if Trim(s) == "" then fallback else Trim(s)
  }

  function EscTrim(s: string): string { EscapeLatex(Trim(s)) }

  lemma EscTrimNeutral(s: string)
    ensures Neutral(EscTrim(s))
  {
    EscapedNeutral(Trim(s));
  }

  /** The trimmed text behind a prefix, or nothing. */
  function Prefixed(prefix: string, s: string): string {
    if Trim(s) != "" then prefix + EscTrim(s) else ""
  }

  lemma PrefixedNeutral(prefix: string, s: string)
    requires AllPlain(prefix)
    ensures Neutral(Prefixed(prefix, s))
  {
    PlainNeutral("");
    PlainNeutral(prefix);
    EscapedNeutral(Trim(s));
    NeutralAppend(prefix, EscTrim(s));
  }

  // ---- dates

  function FmtDate(s: string): string {
    var t := Trim(s);
    if t == "" then "" else if Lower(t) == "present" then "Present" else EscapeLatex(t)
  }

  /** `[fmtDate(from), fmtDate(to)].filter(Boolean).join(' -- ')`. */
  function DateRange(from: string, to: string): string { Join(NonEmptyAfter([from, to], FmtDate), " -- ") }

  lemma DateNeutral(s: string)
    ensures Neutral(FmtDate(s))
  {
    PlainNeutral("");
    PlainNeutral("Present");
    EscapedNeutral(Trim(s));
  }

  lemma DateRangeNeutral(from: string, to: string)
    ensures Neutral(DateRange(from, to))
  {
    forall s ensures Neutral(FmtDate(s)) { DateNeutral(s); }
    KeptNeutral([from, to], FmtDate);
    PlainNeutral(" -- ");
    JoinNeutral(NonEmptyAfter([from, to], FmtDate), " -- ");
  }

  // ---- summary

  /** Pieces between occurrences of a separator text. */
  function SplitText(s: string, sep: string): (r: seq<string>)
    requires sep != ""
    ensures |r| > 0
  {
    if s == "" then [""]
    else if sep <= s then [""] + SplitText(s[|sep|..], sep)
    else
      var rest := SplitText(s[1..], sep);
      [[s[0]] + rest[0]] + rest[1..]
  }

  /** `s.replace(/\s+/g, ' ')`. */
  function CollapseSpace(s: string): string {
    if s == "" then ""
    else if IsSpace(s[0]) then " " + CollapseSpace(TrimStart(s[1..]))
    else [s[0]] + CollapseSpace(s[1..])
  }

  function CollapseAll(pieces: seq<string>): seq<string> {
    seq(|pieces|, i requires 0 <= i < |pieces| => CollapseSpace(pieces[i]))
  }

  function UnixLines(s: string): string { ReplaceAll(s, "\r\n", "\n") }

  /**
   Paragraphs are separated by two or more newlines. Cutting at each pair leaves at most a newline
   at the start of a piece, which trimming removes; blank pieces are dropped.
   */
  function Paragraphs(s: string): seq<string> {
    TrimmedNonEmpty(CollapseAll(SplitText(UnixLines(s), "\n\n")))
  }

  function FormatSummary(raw: string): string {
    Join(EscAll(Paragraphs(Trim(raw))), "\n\n")
  }

  function EscAll(items: seq<string>): seq<string> {
    seq(|items|, i requires 0 <= i < |items| => EscapeLatex(items[i]))
  }

  lemma EscAllNeutral(items: seq<string>)
    ensures AllNeutral(EscAll(items))
  {
    forall i | 0 <= i < |items| ensures Neutral(EscAll(items)[i]) { EscapedNeutral(items[i]); }
  }

  lemma JoinEscaped(items: seq<string>, sep: string)
    requires Neutral(sep)
    ensures Neutral(Join(EscAll(items), sep))
  {
    EscAllNeutral(items);
    JoinNeutral(EscAll(items), sep);
  }

  lemma SummaryNeutral(raw: string)
    ensures Neutral(FormatSummary(raw))
  {
    PlainNeutral("\n\n");
    JoinEscaped(Paragraphs(Trim(raw)), "\n\n");
  }

  // ---- bullets

  function BoldText(before: string, after: string): string {
    "\\textbf{" + EscapeLatex(before) + "} " + EscapeLatex(after)
  }

  /** `formatBulletLatex`: an early colon makes the words before it bold. */
  function FormatBullet(raw: string): string {
    var s := Trim(raw);
    var idx := IndexOfChar(s, ':');
    if s == "" then ""
    else if 1 < idx < 80 && idx < |s| then Trim(BoldText(s[..idx + 1], Trim(s[idx + 1..])))
    else EscapeLatex(s)
  }

  lemma {:induction false} TrimEndAppend(p: string, q: string)
    requires p != "" && !IsSpace(p[|p| - 1])
    ensures TrimEnd(p + q) == p + TrimEnd(q)
  {
    if q == "" {
      assert p + q == p;
    } else {
      assert (p + q)[|p + q| - 1] == q[|q| - 1];
      if IsSpace(q[|q| - 1]) {
        assert (p + q)[..|p + q| - 1] == p + q[..|q| - 1];
        TrimEndAppend(p, q[..|q| - 1]);
      }
    }
  }

  lemma BulletNeutral(head: string, tail: string)
    requires Neutral(head) && head != "" && !IsSpace(head[0]) && !IsSpace(head[|head| - 1]) && Tame(tail)
    ensures Neutral(Trim(head + tail))
  {
    assert TrimStart(head + tail) == head + tail;
    TrimEndAppend(head, tail);
    TrimEndTame(tail);
    NeutralAppend(head, TrimEnd(tail));
  }

  lemma BoldNeutral(before: string, after: string)
    ensures Neutral(Trim(BoldText(before, after)))
  {
    EscapedNeutral(before);
    EscapedIsTame(after);
    BoldTrimmed(EscapeLatex(before), EscapeLatex(after));
  }

  lemma BoldTrimmed(before: string, after: string)
    requires Neutral(before) && Tame(after)
    ensures Neutral(Trim("\\textbf{" + before + "} " + after))
  {
    var head, tail := "\\textbf{" + before + "}", " " + after;
    BoldHead(before);
    SpaceTame(after);
    BulletNeutral(head, tail);
    assert "\\textbf{" + before + "} " + after == head + tail;
  }

  lemma SpaceTame(t: string)
    requires Tame(t)
    ensures Tame(" " + t)
  {
    PlainTame(" ");
    TameAppend(" ", t);
  }

  lemma BoldHead(t: string)
    ensures Neutral(t) ==> Neutral("\\textbf{" + t + "}")
    ensures var head := "\\textbf{" + t + "}"; head != "" && !IsSpace(head[0]) && !IsSpace(head[|head| - 1])
  {
    if Neutral(t) {
      AppliedNeutral("textbf", t);
      assert "\\" + "textbf" + "{" + t + "}" == "\\textbf{" + t + "}";
    }
  }

  lemma BulletTextNeutral(raw: string)
    ensures Neutral(FormatBullet(raw))
  {
    var s := Trim(raw);
    var idx := IndexOfChar(s, ':');
    PlainNeutral("");
    EscapedNeutral(s);
    if 1 < idx < 80 && idx < |s| { BoldNeutral(s[..idx + 1], Trim(s[idx + 1..])); }
  }
}
