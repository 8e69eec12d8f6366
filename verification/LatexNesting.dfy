/**
 When a LaTeX text is well nested: unescaped braces balance, and `\begin{x}` meets `\end{x}` in
 proper order. A character-by-character reader decides it, with one stack for braces and
 environments. Text that leaves the reader as it found it, whatever is open, is neutral.
 */
module LatexNesting {
  import opened JsText
  import opened LatexEscape

  datatype Frame = Brace | Env(name: string)

  datatype Mode =
    | Plain                                // between tokens
    | Slash                                // after a backslash
    | Word(w: string)                      // after a backslash and the start of "begin" or "end"
    | Name(opening: bool, acc: string)     // inside the braces of \begin or \end
    | Comment                              // after an unescaped %, up to the end of the line
    | Broken                               // nesting is violated

  datatype Reader = Reader(mode: Mode, stack: seq<Frame>)

  function Push(r: Reader, f: Frame): Reader { Reader(Plain, r.stack + [f]) }

  function Pop(r: Reader, f: Frame): Reader {
    if r.stack != [] && r.stack[|r.stack| - 1] == f then Reader(Plain, r.stack[..|r.stack| - 1])
    else Reader(Broken, r.stack)
  }

  function ReadPlain(r: Reader, c: char): Reader {
    if c == '\\' then r.(mode := Slash)
    else if c == '{' then Push(r, Brace)
    else if c == '}' then Pop(r, Brace)
    else if c == '%' then r.(mode := Comment)
    else r.(mode := Plain)
  }

  function Read(r: Reader, c: char): Reader {
    match r.mode
    case Plain => ReadPlain(r, c)
    case Slash => r.(mode := if c == 'b' || c == 'e' then Word([c]) else Plain)
    case Word(w) =>
      if w + [c] <= "begin" || w + [c] <= "end" then r.(mode := Word(w + [c]))
      else if c == '{' && (w == "begin" || w == "end") then r.(mode := Name(w == "begin", ""))
      else ReadPlain(r, c)
    case Name(opening, acc) =>
      if c == '}' then (if opening then Push(r, Env(acc)) else Pop(r, Env(acc)))
      else if c == '{' || c == '\\' || c == '%' then r.(mode := Broken)
      else r.(mode := Name(opening, acc + [c]))
    case Comment => r.(mode := if c == '\n' then Plain else Comment)
    case Broken => r
  }

  function Scan(t: string, r: Reader): Reader {
    if t == "" then r else Scan(t[1..], Read(r, t[0]))
  }

  ghost predicate WellNested(doc: string) {
    Scan(doc, Reader(Plain, [])) == Reader(Plain, [])
  }

  /** Read between tokens, the text ends between tokens with the same things open. */
  ghost predicate Neutral(t: string) {
    forall stack :: Scan(t, Reader(Plain, stack)) == Reader(Plain, stack)
  }

  // ---- texts from parts

  lemma {:induction false} ScanAppend(a: string, b: string, r: Reader)
    ensures Scan(a + b, r) == Scan(b, Scan(a, r))
  {
    if a == "" {
      assert a + b == b;
    } else {
      ScanAppend(a[1..], b, Read(r, a[0]));
      assert (a + b)[1..] == a[1..] + b;
    }
  }

  lemma NeutralAppend(a: string, b: string)
    requires Neutral(a) && Neutral(b)
    ensures Neutral(a + b)
  {
    forall stack ensures Scan(a + b, Reader(Plain, stack)) == Reader(Plain, stack) {
      ScanAppend(a, b, Reader(Plain, stack));
    }
  }

  lemma {:induction false} BrokenStays(t: string, r: Reader)
    requires r.mode == Broken
    ensures Scan(t, r) == r
  {
    if t != "" { BrokenStays(t[1..], r); }
  }

  lemma ReadOnTop(c: char, r: Reader, base: seq<Frame>)
    requires Read(r, c).mode != Broken
    ensures Read(Reader(r.mode, base + r.stack), c) == Reader(Read(r, c).mode, base + Read(r, c).stack)
  {
    var s := r.stack;
    assert s != [] ==> (base + s)[..|base + s| - 1] == base + s[..|s| - 1];
    assert forall f: Frame :: base + s + [f] == base + (s + [f]);
  }

  /** What can be read without breaking is read the same way with more things open below. */
  lemma {:induction false} ScanOnTop(t: string, r: Reader, base: seq<Frame>)
    requires Scan(t, r).mode != Broken
    ensures Scan(t, Reader(r.mode, base + r.stack)) == Reader(Scan(t, r).mode, base + Scan(t, r).stack)
  {
    if t != "" {
      if Read(r, t[0]).mode == Broken { BrokenStays(t[1..], Read(r, t[0])); }
      ReadOnTop(t[0], r, base);
      ScanOnTop(t[1..], Read(r, t[0]), base);
    }
  }

  /** Reading with nothing open decides whether a text is neutral. */
  lemma NeutralIff(t: string)
    ensures Neutral(t) <==> Scan(t, Reader(Plain, [])) == Reader(Plain, [])
  {
    if Scan(t, Reader(Plain, [])) == Reader(Plain, []) {
      forall stack ensures Scan(t, Reader(Plain, stack)) == Reader(Plain, stack) {
        ScanOnTop(t, Reader(Plain, []), stack);
        assert stack + [] == stack;
      }
    }
  }

  predicate IsPlainChar(c: char) { c != '\\' && c != '{' && c != '}' && c != '%' }

  predicate AllPlain(t: string) { forall c :: c in t ==> IsPlainChar(c) }

  lemma {:induction false} PlainNeutral(t: string)
    requires AllPlain(t)
    ensures Neutral(t)
  {
    forall stack ensures Scan(t, Reader(Plain, stack)) == Reader(Plain, stack) { PlainScan(t, stack); }
  }

  lemma {:induction false} PlainScan(t: string, stack: seq<Frame>)
    requires AllPlain(t)
    ensures Scan(t, Reader(Plain, stack)) == Reader(Plain, stack)
  {
    if t != "" {
      assert t[0] in t && forall c :: c in t[1..] ==> c in t;
      PlainScan(t[1..], stack);
    }
  }

  /** A control word whose letters cannot be the start of `begin` or `end`. */
  predicate CommandName(name: string) {
    && name != "" && AllPlain(name)
    && (name[0] == 'b' ==> |name| >= 2 && name[1] != 'e')
    && (name[0] == 'e' ==> |name| >= 2 && name[1] != 'n')
  }

  lemma CommandNeutral(name: string)
    requires CommandName(name)
    ensures Neutral("\\" + name)
  {
    forall stack ensures Scan("\\" + name, Reader(Plain, stack)) == Reader(Plain, stack) {
      var r := Reader(Slash, stack);
      assert ("\\" + name)[1..] == name;
      assert Scan("\\" + name, Reader(Plain, stack)) == Scan(name, r);
      if name[0] == 'b' || name[0] == 'e' {
        assert Scan(name, r) == Scan(name[1..], Reader(Word([name[0]]), stack));
        assert name[1..][1..] == name[2..];
        assert name[1] in name && forall c :: c in name[2..] ==> c in name;
        var w := [name[0]] + [name[1]];
        assert w[0] == name[0] && w[1] == name[1];
        assert "begin"[0] == 'b' && "begin"[1] == 'e' && "end"[0] == 'e' && "end"[1] == 'n';
        assert !(w <= "begin") && !(w <= "end");
        assert Read(Reader(Word([name[0]]), stack), name[1]) == Reader(Plain, stack);
        assert Scan(name[1..], Reader(Word([name[0]]), stack)) == Scan(name[2..], Reader(Plain, stack));
        PlainScan(name[2..], stack);
      } else {
        PlainScan(name[1..], stack);
      }
    }
  }

  lemma GroupNeutral(t: string)
    requires Neutral(t)
    ensures Neutral("{" + t + "}")
  {
    forall stack ensures Scan("{" + t + "}", Reader(Plain, stack)) == Reader(Plain, stack) {
      var inner := stack + [Brace];
      ScanAppend("{" + t, "}", Reader(Plain, stack));
      ScanAppend("{", t, Reader(Plain, stack));
      assert Scan("{", Reader(Plain, stack)) == Scan("", Reader(Plain, inner));
      assert Scan(t, Reader(Plain, inner)) == Reader(Plain, inner);
      assert Scan("}", Reader(Plain, inner)) == Scan("", Pop(Reader(Plain, inner), Brace));
      assert inner[..|inner| - 1] == stack;
    }
  }

  // ---- escaped text

  lemma FakeSubst(s: string)
    requires FakeAt(s)
    ensures SubstFrom(s, 0) == [MARK, 'B', 'S'] + (CodeFrom(s[3], 0) + SubstFrom(s[4..], 0))
  {
    hide SubstFrom, CodeFrom;
    SubstCons(s);
    SubstCons(s[1..]);
    SubstCons(s[2..]);
    assert s[1..][1..] == s[2..] && s[2..][1..] == s[3..] && s[3..][1..] == s[4..];
    SubstHead(s[3..]);
  }

  lemma ReplaceFirst(t: string, rest: string)
    requires t == PLACEHOLDER + rest
    ensures ReplaceAll(t, PLACEHOLDER, BACKSLASH_TEXT) == BACKSLASH_TEXT + ReplaceAll(rest, PLACEHOLDER, BACKSLASH_TEXT)
  {
    assert t[4..] == rest;
  }

  lemma PlaceholderText(tail: string)
    ensures [MARK, 'B', 'S'] + ([MARK] + tail) == PLACEHOLDER + tail
    ensures [MARK, 'B', 'S'] + (PLACEHOLDER + tail) == PLACEHOLDER + ("BS" + ([MARK] + tail))
  {
  }

  lemma FakeInTextAhead(s: string)
    requires FakeAt(s) && s[3] == MARK
    ensures EscapeLatex(s) == BACKSLASH_TEXT + EscapeLatex(s[4..])
  {
    StepsAreSubst(s, 0);
    StepsAreSubst(s[4..], 0);
    FakeSubst(s);
    CodeStarts(MARK);
    PlaceholderText(SubstFrom(s[4..], 0));
    ReplaceFirst(SubstFrom(s, 0), SubstFrom(s[4..], 0));
  }

  lemma FakeSubstSlash(s: string)
    requires FakeAt(s) && s[3] == '\\'
    ensures SubstFrom(s, 0) == PLACEHOLDER + ("BS" + SubstFrom([MARK] + s[4..], 0))
  {
    FakeSubst(s);
    assert ([MARK] + s[4..])[1..] == s[4..];
    SubstCons([MARK] + s[4..]);
    PlaceholderText(SubstFrom(s[4..], 0));
  }

  /** A fake placeholder that a backslash completes leaves the tail of the real one behind. */
  lemma FakeWithSlashAhead(s: string)
    requires FakeAt(s) && s[3] == '\\'
    ensures EscapeLatex(s) == BACKSLASH_TEXT + ("BS" + EscapeLatex([MARK] + s[4..]))
  {
    var rest := SubstFrom([MARK] + s[4..], 0);
    StepsAreSubst(s, 0);
    StepsAreSubst([MARK] + s[4..], 0);
    FakeSubstSlash(s);
    ReplaceFirst(SubstFrom(s, 0), "BS" + rest);
    PassThrough("BS", rest);
  }

  /** Reading stops between tokens before each white space too, so trailing space can be cut off. */
  ghost predicate Tame(t: string) {
    Neutral(t) && forall i :: 0 <= i < |t| && IsSpace(t[i]) ==> Neutral(t[..i])
  }

  lemma TameAppend(a: string, b: string)
    requires Tame(a) && Tame(b)
    ensures Tame(a + b)
  {
    NeutralAppend(a, b);
    forall i | 0 <= i < |a + b| && IsSpace((a + b)[i]) ensures Neutral((a + b)[..i]) {
      if i < |a| {
        assert (a + b)[..i] == a[..i];
      } else {
        assert (a + b)[..i] == a + b[..i - |a|];
        NeutralAppend(a, b[..i - |a|]);
      }
    }
  }

  lemma PlainTame(t: string)
    requires AllPlain(t)
    ensures Tame(t)
  {
    PlainNeutral(t);
    forall i | 0 <= i < |t| ensures Neutral(t[..i]) {
      assert forall c :: c in t[..i] ==> c in t;
      PlainNeutral(t[..i]);
    }
  }

  lemma WordTame(name: string)
    requires CommandName(name) && forall i :: 0 <= i < |name| ==> !IsSpace(name[i])
    ensures Tame("\\" + name + "{}")
  {
    CommandNeutral(name);
    PlainNeutral("");
    GroupNeutral("");
    assert "{" + "" + "}" == "{}";
    NeutralAppend("\\" + name, "{}");
  }

  lemma SymbolTame(c: char)
    requires c != 'b' && c != 'e' && !IsSpace(c)
    ensures Tame(['\\', c])
  {
    forall stack ensures Scan(['\\', c], Reader(Plain, stack)) == Reader(Plain, stack) {
      assert ['\\', c][1..] == [c] && [c][1..] == "";
      assert Scan([c], Reader(Slash, stack)) == Scan("", Reader(Plain, stack));
    }
  }

  lemma LettersTame(code: string)
    requires |code| >= 4 && code[0] == '\\' && code[1] == 't' && code[|code| - 2] == '{' && code[|code| - 1] == '}'
    requires forall i :: 1 <= i < |code| - 2 ==> 'a' <= code[i] <= 'z'
    ensures Tame(code)
  {
    var name := code[1..|code| - 2];
    assert code == "\\" + name + "{}";
    WordTame(name);
  }

  lemma WordCharTame(c: char)
    requires c == '\\' || Rank(c) >= 16
    ensures Tame(EscapeChar(c))
  {
    LettersTame(EscapeChar(c));
  }

  lemma EscapeCharTame(c: char)
    ensures Tame(EscapeChar(c))
  {
    if c == '\\' || Rank(c) >= 16 {
      WordCharTame(c);
    } else if Rank(c) >= 9 {
      SymbolCharTame(c);
    } else {
      assert AllPlain(EscapeChar(c)) by { StepFactsPlain(c); }
      PlainTame(EscapeChar(c));
    }
  }

  lemma SymbolCharTame(c: char)
    requires 9 <= Rank(c) < 16
    ensures Tame(EscapeChar(c))
  {
    assert EscapeChar(c) == ['\\', c] by { RankDetermines(c); }
    SymbolTame(c);
  }

  lemma StepFactsPlain(c: char)
    requires Rank(c) < 8
    ensures AllPlain(EscapeChar(c))
  {
    if Rank(c) >= 0 { StepFacts(Rank(c)); }
  }

  /** Whatever the text, its escaped form opens and closes nothing: no text can break the nesting. */
  lemma {:induction false} EscapedIsTame(s: string)
    ensures Tame(EscapeLatex(s))
    decreases |s|
  {
    if s == "" {
      StepsAreSubst(s, 0);
      PlainTame("");
    } else if FakeAt(s) {
      EscapeCharTame('\\');
      if s[3] == MARK {
        FakeInTextAhead(s);
        EscapedIsTame(s[4..]);
        TameAppend(BACKSLASH_TEXT, EscapeLatex(s[4..]));
      } else {
        FakeWithSlashAhead(s);
        EscapedIsTame([MARK] + s[4..]);
        PlainTame("BS");
        TameAppend("BS", EscapeLatex([MARK] + s[4..]));
        TameAppend(BACKSLASH_TEXT, "BS" + EscapeLatex([MARK] + s[4..]));
      }
    } else {
      EscapedIsTame(s[1..]);
      EscapeCharTame(s[0]);
      ChainAhead(s);
      TameAppend(EscapeChar(s[0]), EscapeLatex(s[1..]));
    }
  }

  lemma {:induction false} TrimEndTame(t: string)
    requires Tame(t)
    ensures Tame(TrimEnd(t))
  {
    if t != "" && IsSpace(t[|t| - 1]) {
      var u := t[..|t| - 1];
      forall i | 0 <= i < |u| && IsSpace(u[i]) ensures Neutral(u[..i]) { assert u[..i] == t[..i]; }
      TrimEndTame(u);
    }
  }
}
