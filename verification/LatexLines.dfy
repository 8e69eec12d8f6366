/**
 Lists of lines as the templates push them, joined with newlines at the end. The lines that begin and
 end an environment are lines like any other.
 */
module LatexLines {
  import opened JsText
  import opened LatexNesting
  import opened LatexText

  /** Each line followed by a newline. */
  function Emit(lines: seq<string>): string {
    if lines == [] then "" else lines[0] + ("\n" + Emit(lines[1..]))
  }

  lemma {:induction false} EmitAppend(a: seq<string>, b: seq<string>)
    ensures Emit(a + b) == Emit(a) + Emit(b)
  {
    if a == [] {
      assert a + b == b;
    } else {
      EmitAppend(a[1..], b);
      var x, y, z := a[0], Emit(a[1..]), Emit(b);
      assert x + ("\n" + (y + z)) == x + ("\n" + y) + z;
      assert (a + b)[1..] == a[1..] + b;
    }
  }

  /** Joining the lines and a final empty one. */
  lemma {:induction false} JoinIsEmit(lines: seq<string>)
    ensures Join(lines + [""], "\n") == Emit(lines)
  {
    if lines != [] {
      JoinIsEmit(lines[1..]);
      assert (lines + [""])[1..] == lines[1..] + [""];
      assert lines[0] + "\n" + Emit(lines[1..]) == lines[0] + ("\n" + Emit(lines[1..]));
    }
  }

  lemma NewlineNeutral(a: string, b: string)
    requires Neutral(a) && Neutral(b)
    ensures Neutral(a + ("\n" + b))
  {
    PlainNeutral("\n");
    NeutralAppend("\n", b);
    NeutralAppend(a, "\n" + b);
  }

  // ---- comments and environments

  lemma {:induction false} CommentScan(s: string, stack: seq<Frame>)
    requires '\n' !in s
    ensures Scan(s, Reader(Comment, stack)) == Reader(Comment, stack)
  {
    if s != "" {
      assert s[0] in s && '\n' !in s[1..];
      CommentScan(s[1..], stack);
    }
  }

  lemma CommentNeutral(s: string)
    requires '\n' !in s
    ensures Neutral(Emit(["%" + s]))
  {
    forall stack ensures Scan(Emit(["%" + s]), Reader(Plain, stack)) == Reader(Plain, stack) {
      assert Emit(["%" + s]) == "%" + (s + "\n");
      ScanAppend("%", s + "\n", Reader(Plain, stack));
      assert Scan("%", Reader(Plain, stack)) == Scan("", Reader(Comment, stack));
      ScanAppend(s, "\n", Reader(Comment, stack));
      CommentScan(s, stack);
      assert Scan("\n", Reader(Comment, stack)) == Scan("", Reader(Plain, stack));
    }
  }

  lemma {:induction false} NameScan(opening: bool, acc: string, name: string, stack: seq<Frame>)
    requires AllPlain(name)
    ensures Scan(name, Reader(Name(opening, acc), stack)) == Reader(Name(opening, acc + name), stack)
    decreases name
  {
    if name == "" {
      assert acc + name == acc;
    } else {
      assert name[0] in name && forall c :: c in name[1..] ==> c in name;
      NameScan(opening, acc + [name[0]], name[1..], stack);
      assert acc + [name[0]] + name[1..] == acc + name;
    }
  }

  function BeginText(name: string): string { "\\begin{" + name + "}" }
  function EndText(name: string): string { "\\end{" + name + "}" }

  lemma WordEnds(word: string, stack: seq<Frame>)
    requires word == "begin" || word == "end"
    ensures Read(Reader(Word(word), stack), '{') == Reader(Name(word == "begin", ""), stack)
  {
    assert |word + ['{']| == |word| + 1;
    assert (word + ['{'])[0] == word[0] && (word + ['{'])[|word|] == '{';
    assert "begin"[0] == 'b' && "end"[0] == 'e';
  }

  lemma WordGoesOn(word: string, k: nat, stack: seq<Frame>)
    requires word == "begin" || word == "end"
    requires 1 <= k < |word|
    ensures Read(Reader(Word(word[..k]), stack), word[k]) == Reader(Word(word[..k + 1]), stack)
  {
    assert word[..k] + [word[k]] == word[..k + 1] <= word;
  }

  lemma {:induction false} WordRun(word: string, k: nat, stack: seq<Frame>)
    requires word == "begin" || word == "end"
    requires 1 <= k <= |word|
    ensures Scan(word[k..] + "{", Reader(Word(word[..k]), stack)) == Reader(Name(word == "begin", ""), stack)
    decreases |word| - k
  {
    hide Read;
    if k == |word| {
      assert word[..k] == word && word[k..] + "{" == "{";
      WordEnds(word, stack);
      ReadsOn("{", "{", "", Reader(Word(word), stack), Reader(Name(word == "begin", ""), stack));
    } else {
      var t := word[k..] + "{";
      WordGoesOn(word, k, stack);
      assert t == [word[k]] + (word[k + 1..] + "{");
      ReadsOn(t, [word[k]], word[k + 1..] + "{", Reader(Word(word[..k]), stack), Reader(Word(word[..k + 1]), stack));
      WordRun(word, k + 1, stack);
    }
  }

  lemma WordScan(word: string, stack: seq<Frame>)
    requires word == "begin" || word == "end"
    ensures Scan("\\" + word + "{", Reader(Plain, stack)) == Reader(Name(word == "begin", ""), stack)
  {
    var t := "\\" + word + "{";
    var after := Reader(Word(word[..1]), stack);
    ReadsOn(t, "\\", word + "{", Reader(Plain, stack), Reader(Slash, stack));
    assert word[..1] == [word[0]];
    ReadsOn(word + "{", [word[0]], word[1..] + "{", Reader(Slash, stack), after);
    WordRun(word, 1, stack);
  }

  lemma ReadsOn(t: string, first: string, rest: string, r: Reader, next: Reader)
    requires |first| == 1 && t == first + rest && Read(r, first[0]) == next
    ensures Scan(t, r) == Scan(rest, next)
  {
    assert t[1..] == rest;
  }

  lemma BeginScan(name: string, stack: seq<Frame>)
    requires AllPlain(name)
    ensures Scan(BeginText(name), Reader(Plain, stack)) == Reader(Plain, stack + [Env(name)])
  {
    ScanAppend("\\begin{" + name, "}", Reader(Plain, stack));
    ScanAppend("\\begin{", name, Reader(Plain, stack));
    WordScan("begin", stack);
    assert "\\" + "begin" + "{" == "\\begin{";
    NameScan(true, "", name, stack);
    assert "" + name == name;
    ReadsOn("}", "}", "", Reader(Name(true, name), stack), Reader(Plain, stack + [Env(name)]));
  }

  /** The end of an environment closes it if it is the innermost open thing, and breaks the nesting if not. */
  lemma EndScan(name: string, open: seq<Frame>)
    requires AllPlain(name)
    ensures Scan(EndText(name), Reader(Plain, open)) == Pop(Reader(Plain, open), Env(name))
  {
    ScanAppend("\\end{" + name, "}", Reader(Plain, open));
    ScanAppend("\\end{", name, Reader(Plain, open));
    WordScan("end", open);
    assert "\\" + "end" + "{" == "\\end{";
    NameScan(false, "", name, open);
    assert "" + name == name;
    ReadsOn("}", "}", "", Reader(Name(false, name), open), Pop(Reader(Plain, open), Env(name)));
  }

  lemma EnvNeutral(name: string, inner: string)
    requires AllPlain(name) && Neutral(inner)
    ensures Neutral(BeginText(name) + (inner + EndText(name)))
  {
    forall stack ensures Scan(BeginText(name) + (inner + EndText(name)), Reader(Plain, stack)) == Reader(Plain, stack) {
      var open := stack + [Env(name)];
      ScanAppend(BeginText(name), inner + EndText(name), Reader(Plain, stack));
      ScanAppend(inner, EndText(name), Reader(Plain, open));
      BeginScan(name, stack);
      EndScan(name, open);
      assert open[..|open| - 1] == stack;
    }
  }

  lemma EnvironmentNeutral(name: string, args: string, body: seq<string>)
    requires AllPlain(name) && Neutral(args) && Neutral(Emit(body))
    ensures Neutral(Emit([BeginText(name) + args] + body + [EndText(name)]))
  {
    var inner := args + ("\n" + Emit(body));
    NewlineNeutral(args, Emit(body));
    EnvNeutral(name, inner);
    PlainNeutral("\n");
    NeutralAppend(BeginText(name) + (inner + EndText(name)), "\n");
    EmitAppend([BeginText(name) + args] + body, [EndText(name)]);
    EmitAppend([BeginText(name) + args], body);
    assert Emit([BeginText(name) + args] + body + [EndText(name)])
        == BeginText(name) + (inner + EndText(name)) + "\n";
  }

  // ---- balanced lists of lines

  /** Read one after the other, the lines leave open what was open, and nothing else. */
  ghost predicate Balanced(lines: seq<string>) { Neutral(Emit(lines)) }

  lemma {:induction false} LinesBalanced(lines: seq<string>)
    requires AllNeutral(lines)
    ensures Balanced(lines)
  {
    if lines == [] {
      PlainNeutral("");
    } else {
      LinesBalanced(lines[1..]);
      NewlineNeutral(lines[0], Emit(lines[1..]));
    }
  }

  lemma BalancedAppend(a: seq<string>, b: seq<string>)
    requires Balanced(a) && Balanced(b)
    ensures Balanced(a + b)
  {
    EmitAppend(a, b);
    NeutralAppend(Emit(a), Emit(b));
  }

  lemma Balanced3(a: seq<string>, b: seq<string>, c: seq<string>)
    requires Balanced(a) && Balanced(b) && Balanced(c)
    ensures Balanced(a + b + c)
  {
    BalancedAppend(a, b);
    BalancedAppend(a + b, c);
  }

  lemma OneBalanced(line: string)
    requires Neutral(line)
    ensures Balanced([line])
  {
    LinesBalanced([line]);
  }

  lemma TwoLines(a: string, b: string)
    requires Neutral(a) && Neutral(b)
    ensures Balanced([a, b])
  {
    LinesBalanced([a, b]);
  }

  lemma ThreeLines(a: string, b: string, c: string)
    requires Neutral(a) && Neutral(b) && Neutral(c)
    ensures Balanced([a, b, c])
  {
    LinesBalanced([a, b, c]);
  }

  lemma CommentLine(note: string)
    requires '\n' !in note
    ensures Balanced(["%" + note])
  {
    CommentNeutral(note);
  }

  /** A line that begins an environment, balanced lines, and the line that ends it. */
  lemma EnvironmentBalanced(begin: string, name: string, args: string, body: seq<string>, end: string)
    requires AllPlain(name) && Neutral(args) && Balanced(body)
    requires begin == "\\begin{" + name + "}" + args && end == "\\end{" + name + "}"
    ensures Balanced([begin] + body + [end])
  {
    EnvironmentNeutral(name, args, body);
  }

  /** `lines.push('')` and `lines.join('\n')`. */
  function Document(lines: seq<string>): string { Join(lines + [""], "\n") }

  /** Balanced lines make a well nested document. */
  lemma DocumentNested(lines: seq<string>)
    requires Balanced(lines)
    ensures WellNested(Document(lines))
  {
    JoinIsEmit(lines);
  }

  /** The lines of each item, one item after the other. */
  function Each<T(!new)>(items: seq<T>, f: T -> seq<string>): seq<string> {
    if items == [] then [] else Each(items[..|items| - 1], f) + f(items[|items| - 1])
  }

  lemma {:induction false} EachBalanced<T(!new)>(items: seq<T>, f: T -> seq<string>)
    requires forall x :: x in items ==> Balanced(f(x))
    ensures Balanced(Each(items, f))
  {
    if items == [] {
      PlainNeutral("");
    } else {
      EachBalanced(items[..|items| - 1], f);
      BalancedAppend(Each(items[..|items| - 1], f), f(items[|items| - 1]));
    }
  }

  /** The loop `for (const x of items) { lines.push(...) }`. */
  method PushEach<T(!new)>(lines: seq<string>, items: seq<T>, f: T -> seq<string>) returns (r: seq<string>)
    ensures r == lines + Each(items, f)
  {
    r := lines;
    for i := 0 to |items|
      invariant r == lines + Each(items[..i], f)
    {
      assert items[..i + 1][..i] == items[..i];
      Assoc(lines, Each(items[..i], f), f(items[i]));
      r := r + f(items[i]);
    }
    assert items[..|items|] == items;
  }
}
