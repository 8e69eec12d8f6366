/**
 Documents with one line that need not be balanced, such as a line with a link target whose braces are
 not escaped (apps/web/src/lib/resumeLatex.ts:42-44).
 */
module LatexDocuments {
  import opened JsText
  import opened LatexNesting
  import opened LatexText
  import opened LatexLines
  import opened TemplateParts

  const OPEN_DOCUMENT: seq<Frame> := [Env("document")]

  /** Read inside the document, the line opens and closes nothing. */
  predicate KeepsDocument(line: string) {
    Scan(line + "\n", Reader(Plain, OPEN_DOCUMENT)) == Reader(Plain, OPEN_DOCUMENT)
  }

  lemma NewlineScan(r: Reader)
    ensures Scan("\n", r) == Read(r, '\n')
  {
    ReadsOn("\n", "\n", "", r, Read(r, '\n'));
  }

  lemma NewlineRead(r: Reader)
    ensures var s := Read(r, '\n'); s.mode == Plain || s.mode.Name? || s.mode == Broken
  {
    if r.mode.Word? {
      var w := r.mode.w + ['\n'];
      assert w[|w| - 1] == '\n' && '\n' !in "begin" && '\n' !in "end";
      assert !(w <= "begin") && !(w <= "end");
    }
  }

  /** A line's end finishes every command and comment, but not the name of an environment. */
  lemma AfterNewline(line: string, r: Reader)
    ensures var s := Scan(line + "\n", r); s.mode == Plain || s.mode.Name? || s.mode == Broken
  {
    hide Scan, Read;
    ScanAppend(line, "\n", r);
    NewlineScan(Scan(line, r));
    NewlineRead(Scan(line, r));
  }

  /** A name cannot go on over text that is read without breaking and holds a backslash. */
  lemma {:induction false} NameBreaks(t: string, opening: bool, acc: string, stack: seq<Frame>)
    requires Scan(t, Reader(Plain, OPEN_DOCUMENT)).mode != Broken && '\\' in t
    ensures Scan(t, Reader(Name(opening, acc), stack)).mode == Broken
    decreases t
  {
    var c, rest := t[0], t[1..];
    assert t == [c] + rest;
    if IsPlainChar(c) {
      NameBreaks(rest, opening, acc + [c], stack);
    } else {
      BrokenStays(rest, Reader(Broken, OPEN_DOCUMENT));
      BrokenStays(rest, Reader(Broken, stack));
    }
  }

  function EndOfDocument(after: seq<string>): string { Emit(after) + (END_DOCUMENT + "\n") }

  lemma NewlineKeeps(r: Reader)
    requires r.mode == Plain || r.mode == Broken
    ensures Scan("\n", r) == r
  {
    NewlineScan(r);
  }

  lemma EndScanned(r: Reader)
    ensures Scan(END_DOCUMENT + "\n", Reader(Plain, r.stack)) == Pop(Reader(Plain, r.stack), Env("document"))
  {
    hide Scan;
    assert END_DOCUMENT == EndText("document");
    EndScan("document", r.stack);
    ScanAppend(END_DOCUMENT, "\n", Reader(Plain, r.stack));
    NewlineKeeps(Pop(Reader(Plain, r.stack), Env("document")));
  }

  lemma PlainEnd(after: seq<string>, stack: seq<Frame>)
    requires Balanced(after)
    ensures Scan(EndOfDocument(after), Reader(Plain, stack)) == Pop(Reader(Plain, stack), Env("document"))
  {
    ScanAppend(Emit(after), END_DOCUMENT + "\n", Reader(Plain, stack));
    EndScanned(Reader(Plain, stack));
  }

  /** After balanced lines the document ends well exactly when nothing but the document was open. */
  lemma EndIff(after: seq<string>, r: Reader)
    requires Balanced(after) && (r.mode == Plain || r.mode.Name? || r.mode == Broken)
    ensures Scan(EndOfDocument(after), r) == Reader(Plain, []) <==> r == Reader(Plain, OPEN_DOCUMENT)
  {
    var t := EndOfDocument(after);
    match r.mode
    case Plain => PlainEnd(after, r.stack);
    case Name(opening, acc) =>
      PlainEnd(after, OPEN_DOCUMENT);
      assert t[|Emit(after)|] == '\\';
      NameBreaks(t, opening, acc, r.stack);
    case Broken => BrokenStays(t, r);
    case _ =>
  }

  lemma BeginScanned()
    ensures Scan(BEGIN_DOCUMENT + "\n", Reader(Plain, [])) == Reader(Plain, OPEN_DOCUMENT)
  {
    hide Scan;
    assert BEGIN_DOCUMENT == BeginText("document");
    assert [] + [Env("document")] == OPEN_DOCUMENT;
    BeginScan("document", []);
    ScanAppend(BEGIN_DOCUMENT, "\n", Reader(Plain, []));
    NewlineKeeps(Reader(Plain, OPEN_DOCUMENT));
  }

  function TextWith(preamble: seq<string>, before: seq<string>, line: string, after: seq<string>): string {
    Emit(preamble) + ((BEGIN_DOCUMENT + "\n") + (Emit(before) + ((line + "\n") + EndOfDocument(after))))
  }

  lemma EmitOne(line: string)
    ensures Emit([line]) == line + "\n"
  {
    assert "\n" + "" == "\n";
  }

  lemma TextOfDocument(preamble: seq<string>, before: seq<string>, line: string, after: seq<string>)
    ensures Document(preamble + ([BEGIN_DOCUMENT] + (before + [line] + after) + [END_DOCUMENT]))
         == TextWith(preamble, before, line, after)
  {
    hide Emit, Document;
    var body := before + [line] + after;
    DocumentEmits(preamble + ([BEGIN_DOCUMENT] + body + [END_DOCUMENT]));
    EmitAppend(preamble, [BEGIN_DOCUMENT] + body + [END_DOCUMENT]);
    EmitAppend([BEGIN_DOCUMENT] + body, [END_DOCUMENT]);
    EmitAppend([BEGIN_DOCUMENT], body);
    EmitAppend(before + [line], after);
    EmitAppend(before, [line]);
    EmitOne(BEGIN_DOCUMENT);
    EmitOne(END_DOCUMENT);
    EmitOne(line);
    Regroup(BEGIN_DOCUMENT + "\n", Emit(before), line + "\n", Emit(after), END_DOCUMENT + "\n");
  }

  lemma DocumentEmits(lines: seq<string>)
    ensures Document(lines) == Emit(lines)
  {
    JoinIsEmit(lines);
  }

  lemma Regroup(a: string, b: string, c: string, d: string, e: string)
    ensures (a + ((b + c) + d)) + e == a + (b + (c + (d + e)))
  {
  }

  /**
   A document whose other lines are balanced is well nested exactly when the remaining line, read inside
   the document, opens and closes nothing.
   */
  lemma OneLineIff(preamble: seq<string>, before: seq<string>, line: string, after: seq<string>)
    requires Balanced(preamble) && Balanced(before) && Balanced(after)
    ensures WellNested(Document(preamble + ([BEGIN_DOCUMENT] + (before + [line] + after) + [END_DOCUMENT])))
       <==> KeepsDocument(line)
  {
    hide Document, EndOfDocument, Emit, BEGIN_DOCUMENT;
    var start, inside := Reader(Plain, []), Reader(Plain, OPEN_DOCUMENT);
    var rest := (line + "\n") + EndOfDocument(after);
    TextOfDocument(preamble, before, line, after);
    ScanAppend(Emit(preamble), (BEGIN_DOCUMENT + "\n") + (Emit(before) + rest), start);
    ScanAppend(BEGIN_DOCUMENT + "\n", Emit(before) + rest, start);
    BeginScanned();
    ScanAppend(Emit(before), rest, inside);
    ScanAppend(line + "\n", EndOfDocument(after), inside);
    AfterNewline(line, inside);
    EndIff(after, Scan(line + "\n", inside));
  }

  // ---- a line with a link

  const IN_GROUP: seq<Frame> := OPEN_DOCUMENT + [Brace]

  /**
   The brace that should close the group of a link target, read after the target, leaves only the
   document open. The rest of the line may have become a comment.
   */
  predicate EndsItsGroup(target: string) {
    var s := Scan(target + "}", Reader(Plain, IN_GROUP));
    s.stack == OPEN_DOCUMENT && (s.mode == Plain || s.mode == Comment)
  }

  lemma AfterBrace(r: Reader)
    ensures var s := Scan("}", r); s.mode == Plain || s.mode == Comment || s.mode == Broken
  {
    ReadsOn("}", "}", "", r, Read(r, '}'));
    if r.mode.Word? {
      var w := r.mode.w + ['}'];
      assert w[|w| - 1] == '}' && '}' !in "begin" && '}' !in "end";
      assert !(w <= "begin") && !(w <= "end");
    }
  }

  /** Neutral text at the end of a line ends what a comment is, and changes nothing else. */
  lemma RestOfLine(right: string, r: Reader)
    requires Neutral(right) && '\n' !in right && (r.mode == Plain || r.mode == Comment || r.mode == Broken)
    ensures Scan(right + "\n", r) == if r.mode == Broken then r else Reader(Plain, r.stack)
  {
    hide Scan, Read;
    ScanAppend(right, "\n", r);
    match r.mode
    case Plain => NewlineKeeps(r);
    case Comment =>
      CommentScan(right, r.stack);
      CommentEnds(r.stack);
    case Broken =>
      BrokenStays(right, r);
      NewlineKeeps(r);
    case _ =>
  }

  lemma CommentEnds(stack: seq<Frame>)
    ensures Scan("\n", Reader(Comment, stack)) == Reader(Plain, stack)
  {
    NewlineScan(Reader(Comment, stack));
  }

  lemma HrefOpens(stack: seq<Frame>)
    ensures Scan("\\href{", Reader(Plain, stack)) == Reader(Plain, stack + [Brace])
  {
    CommandNeutral("href");
    assert "\\" + "href" == "\\href" && "\\href" + "{" == "\\href{";
    ScanAppend("\\href", "{", Reader(Plain, stack));
    ReadsOn("{", "{", "", Reader(Plain, stack), Reader(Plain, stack + [Brace]));
  }

  lemma LinkSplits(left: string, target: string, right: string)
    ensures (left + ("\\href{" + target + "}") + right) + "\n"
         == left + ("\\href{" + ((target + "}") + (right + "\n")))
  {
  }

  /** A line with one link and neutral text around it keeps the document iff the target ends its group. */
  lemma LinkLineIff(left: string, target: string, right: string)
    requires Neutral(left) && Neutral(right) && '\n' !in right
    ensures KeepsDocument(left + ("\\href{" + target + "}") + right) <==> EndsItsGroup(target)
  {
    hide Scan, Read;
    var r := Reader(Plain, OPEN_DOCUMENT);
    LinkSplits(left, target, right);
    ScanAppend(left, "\\href{" + ((target + "}") + (right + "\n")), r);
    ScanAppend("\\href{", (target + "}") + (right + "\n"), r);
    HrefOpens(OPEN_DOCUMENT);
    ScanAppend(target + "}", right + "\n", Reader(Plain, IN_GROUP));
    ScanAppend(target, "}", Reader(Plain, IN_GROUP));
    AfterBrace(Scan(target, Reader(Plain, IN_GROUP)));
    RestOfLine(right, Scan(target + "}", Reader(Plain, IN_GROUP)));
  }

  /** A good target ends its group. */
  lemma GoodEndsGroup(url: string)
    requires GoodTarget(url)
    ensures EndsItsGroup(Target(url))
  {
    hide Target;
    GoodTargetIff(url);
    ScanAppend(Target(url), "}", Reader(Plain, IN_GROUP));
    ReadsOn("}", "}", "", Reader(Plain, IN_GROUP), Reader(Plain, OPEN_DOCUMENT));
  }
}
