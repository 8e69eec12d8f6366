/**
 Skills in JSON Resume export and import (apps/web/src/lib/resumeJson.ts:88-109, 179-196), and when
 exporting, importing and exporting again gives the same skills.
 */
module ResumeSkills {
  import opened JsText
  import opened TextLaws

  datatype Skill = Skill(name: string, keywords: seq<string>)

  // ---- lists

  /** The results for each item, one item after the other. */
  function FlatMap<S(!new), T(!new)>(items: seq<S>, f: S -> seq<T>): seq<T> {
    if items == [] then [] else FlatMap(items[..|items| - 1], f) + f(items[|items| - 1])
  }

  ghost predicate All<T(!new)>(xs: seq<T>, p: T -> bool) { forall i :: 0 <= i < |xs| ==> p(xs[i]) }

  lemma OneOf<T(!new)>(x: T, p: T -> bool)
    ensures All([x], p) <==> p(x)
  {
    assert [x][0] == x;
  }

  lemma AllAppend<T(!new)>(a: seq<T>, b: seq<T>, p: T -> bool)
    ensures All(a + b, p) <==> All(a, p) && All(b, p)
  {
    if All(a + b, p) {
      assert forall i :: 0 <= i < |a| ==> a[i] == (a + b)[i];
      assert forall i :: 0 <= i < |b| ==> b[i] == (a + b)[|a| + i];
    }
  }

  lemma {:induction false} FlatMapAll<S(!new), T(!new)>(items: seq<S>, f: S -> seq<T>, p: T -> bool, q: S -> bool)
    requires forall x :: q(x) <==> All(f(x), p)
    ensures All(FlatMap(items, f), p) <==> All(items, q)
  {
    if items != [] {
      var front, x := items[..|items| - 1], items[|items| - 1];
      FlatMapAll(front, f, p, q);
      AllAppend(FlatMap(front, f), f(x), p);
      AllAppend(front, [x], q);
      assert items == front + [x];
      OneOf(x, q);
    }
  }

  lemma FlatMapNext<S(!new), T(!new)>(items: seq<S>, i: nat, f: S -> seq<T>)
    requires i < |items|
    ensures FlatMap(items[..i + 1], f) == FlatMap(items[..i], f) + f(items[i])
  {
    assert items[..i + 1][..i] == items[..i];
  }

  lemma {:induction false} FlatMapSingles<S(!new), T(!new)>(items: seq<S>, f: S -> seq<T>, results: seq<T>)
    requires |results| == |items| && forall i :: 0 <= i < |items| ==> f(items[i]) == [results[i]]
    ensures FlatMap(items, f) == results
  {
    if items != [] {
      var n := |items| - 1;
      FlatMapSingles(items[..n], f, results[..n]);
      assert results == results[..n] + [results[n]];
    }
  }

  // ---- export

  predicate AnyColon(skills: seq<string>) { exists i :: 0 <= i < |skills| && ':' in skills[i] }

  /** `text.split(',').map(trim).filter(Boolean)`. */
  function Keywords(text: string): seq<string> { TrimmedNonEmpty(Split(text, ',')) }

  /** The skill for the texts before and after the first colon. */
  function Labelled(name: string, val: string): Skill { Skill(Trim(name), Keywords(Trim(val))) }

  /** One skill of a labelled list; blank entries give none. */
  function ExportOne(raw: string): seq<Skill> {
    var s := Trim(raw);
    var idx := IndexOfChar(s, ':');
    if 0 < idx < |s| then [Labelled(s[..idx], s[idx + 1..])]
    else if s != "" then [Skill("Other", [s])]
    else []
  }

  function ExportEach(skills: seq<string>): seq<Skill> { FlatMap(skills, ExportOne) }

  function Export(skills: seq<string>): seq<Skill> {
    if skills == [] then []
    else if AnyColon(skills) then ExportEach(skills)
    else [Skill("Skills", TrimmedNonEmpty(skills))]
  }

  method ExportSkills(list: seq<string>) returns (skills: seq<Skill>)
    ensures skills == Export(list)
  {
    skills := [];
    if list == [] { return; }
    if AnyColon(list) {
      for i := 0 to |list|
        invariant skills == FlatMap(list[..i], ExportOne)
      {
        FlatMapNext(list, i, ExportOne);
        var s := Trim(list[i]);
        var idx := IndexOfChar(s, ':');
        if 0 < idx < |s| {
          var name := Trim(s[..idx]);
          var val := Trim(s[idx + 1..]);
          skills := skills + [Skill(name, Keywords(val))];
        } else if s != "" {
          skills := skills + [Skill("Other", [s])];
        }
      }
      assert list[..|list|] == list;
    } else {
      skills := [Skill("Skills", TrimmedNonEmpty(list))];
    }
  }

  // ---- import

  /** An entry of the imported `skills` array. A name or keywords that are missing are empty. */
  datatype JsonSkill =
    | Flat(text: string)
    | Listed(name: string, keywords: seq<string>)
    | Worded(name: string, words: string)

  function TrimEach(v: seq<string>): seq<string> {
    seq(|v|, i requires 0 <= i < |v| => Trim(v[i]))
  }

  function ImportOne(s: JsonSkill): seq<string> {
    match s
    case Flat(text) => if text == "" then [] else [Trim(text)]
    case Listed(name, keywords) =>
      if name != "" && keywords != [] then [name + (": " + Join(keywords, ", "))]
      else if name != "" then [Trim(name)]
      else TrimEach(keywords)
    case Worded(name, words) =>
      if name != "" && words != "" then [name + (": " + words)]
      else if name != "" then [Trim(name)]
      else []
  }

  function ImportEach(json: seq<JsonSkill>): seq<string> { FlatMap(json, ImportOne) }

  /** Entries that are plain texts, all of them, trimmed. */
  function FlatTexts(json: seq<JsonSkill>): seq<string> {
    if json == [] then []
    else
      var last := json[|json| - 1];
      FlatTexts(json[..|json| - 1]) + [if last.Flat? then Trim(last.text) else "[object Object]"]
  }

  function Import(json: seq<JsonSkill>): seq<string> {
    var skills := ImportEach(json);
    if skills == [] && json != [] && json[0].Flat? then FlatTexts(json) else skills
  }

  method ImportSkills(json: seq<JsonSkill>) returns (skills: seq<string>)
    ensures skills == Import(json)
  {
    skills := [];
    for i := 0 to |json|
      invariant skills == FlatMap(json[..i], ImportOne)
    {
      FlatMapNext(json, i, ImportOne);
      skills := skills + ImportOne(json[i]);
    }
    assert json[..|json|] == json;
    if skills == [] && json != [] && json[0].Flat? {
      skills := FlatTexts(json);
    }
  }

  function AsJson(skills: seq<Skill>): (r: seq<JsonSkill>)
    ensures |r| == |skills| && forall i :: 0 <= i < |r| ==> r[i] == Listed(skills[i].name, skills[i].keywords)
  {
    seq(|skills|, i requires 0 <= i < |skills| => Listed(skills[i].name, skills[i].keywords))
  }

  // ---- what exports look like

  predicate Named(name: string) { name != "" && Trimmed(name) && ':' !in name }

  predicate CleanWords(words: seq<string>) {
    forall i :: 0 <= i < |words| ==> words[i] != "" && Trimmed(words[i])
  }

  predicate IsExported(s: Skill) { Named(s.name) && CleanWords(s.keywords) }

  lemma TrimNonBlank(s: string)
    requires s != "" && !IsSpace(s[0])
    ensures Trim(s) != "" && Trim(s)[0] == s[0]
  {
    FirstStays(s);
  }

  lemma {:induction false} FirstStays(s: string)
    requires s != "" && !IsSpace(s[0])
    ensures TrimEnd(s) != "" && TrimEnd(s)[0] == s[0]
  {
    if IsSpace(s[|s| - 1]) { FirstStays(s[..|s| - 1]); }
  }

  lemma KeywordsClean(text: string)
    ensures CleanWords(Keywords(text))
  {
    var words := Keywords(text);
    forall i | 0 <= i < |words| ensures words[i] != "" && Trimmed(words[i]) { assert words[i] in words; }
  }

  lemma NameOfLabelled(s: string, idx: nat)
    requires Trimmed(s) && 0 < idx < |s| && idx == IndexOfChar(s, ':')
    ensures Named(Trim(s[..idx]))
  {
    TrimNonBlank(s[..idx]);
    TrimChars(s[..idx]);
  }

  lemma OtherShape(s: string)
    requires s != "" && Trimmed(s)
    ensures IsExported(Skill("Other", [s]))
  {
    var words: seq<string> := [s];
    assert words[0] == s;
  }

  lemma ExportOneShape(raw: string)
    ensures All(ExportOne(raw), IsExported)
  {
    var s := Trim(raw);
    var idx := IndexOfChar(s, ':');
    if 0 < idx < |s| {
      NameOfLabelled(s, idx);
      KeywordsClean(Trim(s[idx + 1..]));
      OneOf(Skill(Trim(s[..idx]), Keywords(Trim(s[idx + 1..]))), IsExported);
    } else if s != "" {
      OtherShape(s);
      OneOf(Skill("Other", [s]), IsExported);
    }
  }

  lemma ExportShape(skills: seq<string>)
    ensures All(Export(skills), IsExported)
  {
    if AnyColon(skills) {
      forall raw ensures true <==> All(ExportOne(raw), IsExported) { ExportOneShape(raw); }
      FlatMapAll(skills, ExportOne, IsExported, (raw: string) => true);
    } else {
      assert Named("Skills");
      var words := TrimmedNonEmpty(skills);
      forall i | 0 <= i < |words| ensures words[i] != "" && Trimmed(words[i]) { assert words[i] in words; }
    }
  }

  // ---- one skill there and back

  /** The text that an exported skill is imported as. */
  function Label(s: Skill): string {
    if s.keywords == [] then s.name else s.name + (": " + Join(s.keywords, ", "))
  }

  lemma {:induction false} JoinEnds(words: seq<string>)
    requires words != [] && CleanWords(words)
    ensures var j := Join(words, ", "); j != "" && Trimmed(j)
  {
    if |words| > 1 {
      JoinEnds(words[1..]);
      var rest := Join(words[1..], ", ");
      assert Join(words, ", ") == words[0] + ", " + rest;
    }
  }

  lemma ColonAt(name: string, rest: string)
    requires ':' !in name
    ensures IndexOfChar(name + (":" + rest), ':') == |name|
  {
    var s := name + (":" + rest);
    assert s[|name|] == ':' && s[..|name|] == name;
  }

  lemma TrimLeadingSpace(t: string)
    requires t != "" && Trimmed(t)
    ensures Trim(" " + t) == t
  {
    assert (" " + t)[1..] == t;
    assert TrimStart(" " + t) == t;
  }

  lemma TextOfLabel(t: string, name: string, words: string)
    requires t == name + (":" + (" " + words)) && Named(name) && words != "" && Trimmed(words)
    ensures Trimmed(t) && IndexOfChar(t, ':') == |name| < |t| && t[..|name|] == name && t[|name| + 1..] == " " + words
  {
    assert t[0] == name[0] && t[|t| - 1] == words[|words| - 1];
    ColonAt(name, " " + words);
  }

  lemma ExportSplits(t: string, idx: nat, name: string, rest: string)
    requires Trim(t) == t && IndexOfChar(t, ':') == idx && 0 < idx < |t| && t[..idx] == name && t[idx + 1..] == rest
    ensures ExportOne(t) == [Labelled(name, rest)]
  {
  }

  lemma LabelledTrims(name: string, words: string)
    requires Named(name) && words != "" && Trimmed(words)
    ensures Labelled(name, " " + words) == Skill(name, Keywords(words))
  {
    TrimLeadingSpace(words);
    assert Trim(name) == name;
  }

  /** Reading an imported label splits it at its first colon and at every comma. */
  lemma LabelledThere(s: Skill)
    requires IsExported(s) && s.keywords != []
    ensures ':' in Label(s)
    ensures ExportOne(Label(s)) == [Skill(s.name, Keywords(Join(s.keywords, ", ")))]
  {
    hide Join, CleanWords, Trim, Trimmed, IndexOfChar, Keywords, ExportOne, Labelled;
    var j := Join(s.keywords, ", ");
    JoinEnds(s.keywords);
    var t := s.name + (": " + j);
    assert t == s.name + (":" + (" " + j)) && t[|s.name|] == ':';
    TextOfLabel(t, s.name, j);
    TrimmedStays(t);
    ExportSplits(t, |s.name|, s.name, " " + j);
    LabelledTrims(s.name, j);
  }

  lemma BareThere(s: Skill)
    requires IsExported(s) && s.keywords == []
    ensures ':' !in Label(s) && ExportOne(Label(s)) == [Skill("Other", [s.name])]
  {
    hide Trim, Trimmed, IndexOfChar, Keywords, Labelled, Join;
    TrimmedStays(s.name);
  }

  /** What an exported skill has become after import and export. */
  function Back(s: Skill): Skill {
    if s.keywords == [] then Skill("Other", [s.name]) else Skill(s.name, Keywords(Join(s.keywords, ", ")))
  }

  lemma LabelGivesBack(s: Skill)
    requires IsExported(s)
    ensures ExportOne(Label(s)) == [Back(s)] && (':' in Label(s) <==> s.keywords != [])
  {
    if s.keywords == [] { BareThere(s); } else { LabelledThere(s); }
  }

  predicate CommaFree(words: seq<string>) { forall i :: 0 <= i < |words| ==> ',' !in words[i] }

  lemma {:induction false} SplitAppend(a: string, rest: string)
    requires ',' !in a
    ensures Split(a + ("," + rest), ',') == [a] + Split(rest, ',')
  {
    var s := a + ("," + rest);
    if a == "" {
      assert s[1..] == rest;
    } else {
      SplitAppend(a[1..], rest);
      assert s[1..] == a[1..] + ("," + rest) && s[0] == a[0] && a[0] in a;
      assert [a[0]] + a[1..] == a;
      assert ([a[1..]] + Split(rest, ','))[1..] == Split(rest, ',');
    }
  }

  lemma SplitLeadingSpace(t: string)
    ensures Split(" " + t, ',') == [" " + Split(t, ',')[0]] + Split(t, ',')[1..]
  {
    assert (" " + t)[1..] == t;
  }

  /** A piece that reads the same with and without a leading space. */
  lemma SpaceDropped(first: string, p: string, rest: seq<string>, f: string -> string)
    requires first != "" && f(first) == first && f(" " + p) == f(p)
    ensures NonEmptyAfter([first] + ([" " + p] + rest), f) == [first] + NonEmptyAfter([p] + rest, f)
  {
    NonEmptyAfterCons(first, [" " + p] + rest, f);
    NonEmptyAfterCons(" " + p, rest, f);
    NonEmptyAfterCons(p, rest, f);
  }

  lemma TrimDropsSpace(p: string)
    ensures Trim(" " + p) == Trim(p)
  {
    assert (" " + p)[1..] == p;
  }

  lemma KeywordsOfFirst(first: string, rest: string)
    requires first != "" && Trimmed(first) && ',' !in first
    ensures Keywords(first + ("," + (" " + rest))) == [first] + Keywords(rest)
  {
    var pieces := Split(rest, ',');
    SplitAppend(first, " " + rest);
    SplitLeadingSpace(rest);
    TrimDropsSpace(pieces[0]);
    SpaceDropped(first, pieces[0], pieces[1..], Trim);
    assert [pieces[0]] + pieces[1..] == pieces;
  }

  lemma KeywordsOfOne(word: string)
    requires word != "" && Trimmed(word) && ',' !in word
    ensures Keywords(word) == [word]
  {
    assert Split(word, ',') == [word];
    NonEmptyAfterCons(word, [], Trim);
    assert [word] + [] == [word];
  }

  lemma {:induction false} KeywordsOfJoin(words: seq<string>)
    requires words != [] && CleanWords(words) && CommaFree(words)
    ensures Keywords(Join(words, ", ")) == words
  {
    hide Keywords, Trimmed;
    if |words| == 1 {
      KeywordsOfOne(words[0]);
    } else {
      var rest := Join(words[1..], ", ");
      KeywordsOfJoin(words[1..]);
      KeywordsOfFirst(words[0], rest);
      assert words[0] + ", " + rest == words[0] + ("," + (" " + rest));
      assert words == [words[0]] + words[1..];
    }
  }

  lemma KeptAreCommaFree(pieces: seq<string>)
    requires CommaFree(pieces)
    ensures CommaFree(TrimmedNonEmpty(pieces))
  {
    var words := TrimmedNonEmpty(pieces);
    forall k | 0 <= k < |words| ensures ',' !in words[k] {
      assert words[k] in words;
      var i :| 0 <= i < |pieces| && words[k] == Trim(pieces[i]);
      TrimChars(pieces[i]);
    }
  }

  /** A skill survives import and re-export exactly when it has keywords and none holds a comma. */
  predicate Survives(s: Skill) { s.keywords != [] && CommaFree(s.keywords) }

  lemma BackIsSame(s: Skill)
    requires IsExported(s)
    ensures Back(s) == s <==> Survives(s)
  {
    if s.keywords != [] {
      KeptAreCommaFree(Split(Join(s.keywords, ", "), ','));
      if CommaFree(s.keywords) { KeywordsOfJoin(s.keywords); }
    }
  }

  // ---- the whole list

  function Labels(skills: seq<Skill>): (r: seq<string>)
    ensures |r| == |skills| && forall i :: 0 <= i < |r| ==> r[i] == Label(skills[i])
  {
    seq(|skills|, i requires 0 <= i < |skills| => Label(skills[i]))
  }

  function Backs(skills: seq<Skill>): (r: seq<Skill>)
    ensures |r| == |skills| && forall i :: 0 <= i < |r| ==> r[i] == Back(skills[i])
  {
    seq(|skills|, i requires 0 <= i < |skills| => Back(skills[i]))
  }

  lemma EntryGivesLabel(s: Skill)
    requires IsExported(s)
    ensures ImportOne(Listed(s.name, s.keywords)) == [Label(s)]
  {
    assert Trim(s.name) == s.name;
  }

  lemma ImportGivesLabels(skills: seq<Skill>)
    requires All(skills, IsExported)
    ensures Import(AsJson(skills)) == Labels(skills)
  {
    forall i | 0 <= i < |skills|
      ensures ImportOne(AsJson(skills)[i]) == [Labels(skills)[i]]
    {
      EntryGivesLabel(skills[i]);
    }
    FlatMapSingles(AsJson(skills), ImportOne, Labels(skills));
  }

  lemma ReexportOfLabels(skills: seq<Skill>)
    requires All(skills, IsExported)
    ensures ExportEach(Labels(skills)) == Backs(skills)
    ensures AnyColon(Labels(skills)) <==> exists i :: 0 <= i < |skills| && skills[i].keywords != []
  {
    forall i | 0 <= i < |skills|
      ensures ExportOne(Labels(skills)[i]) == [Backs(skills)[i]]
      ensures ':' in Labels(skills)[i] <==> skills[i].keywords != []
    {
      LabelGivesBack(skills[i]);
    }
    FlatMapSingles(Labels(skills), ExportOne, Backs(skills));
  }

  lemma BacksAreSame(skills: seq<Skill>)
    requires All(skills, IsExported)
    ensures Backs(skills) == skills <==> All(skills, Survives)
  {
    forall i | 0 <= i < |skills|
      ensures Backs(skills)[i] == skills[i] <==> Survives(skills[i])
    {
      BackIsSame(skills[i]);
    }
  }

  /** The list comes back unchanged exactly when each of its skills survives. */
  lemma ReexportIff(skills: seq<Skill>)
    requires All(skills, IsExported)
    ensures Export(Import(AsJson(skills))) == skills <==> All(skills, Survives)
  {
    ImportGivesLabels(skills);
    ReexportOfLabels(skills);
    if skills != [] {
      if AnyColon(Labels(skills)) {
        BacksAreSame(skills);
      } else {
        assert !Survives(skills[0]);
        NamesAreKept(skills);
      }
    }
  }

  lemma NamesAreKept(skills: seq<Skill>)
    requires skills != [] && IsExported(skills[0]) && skills[0].keywords == []
    ensures TrimmedNonEmpty(Labels(skills)) != []
  {
    assert Labels(skills)[0] == skills[0].name && Trim(skills[0].name) == skills[0].name;
  }

  // ---- the condition on the user's list

  /** A labelled entry needs a keyword, an unlabelled one must not hold a comma; blank entries are free. */
  predicate EntryReturns(raw: string) {
    var s := Trim(raw);
    var idx := IndexOfChar(s, ':');
    if 0 < idx < |s| then Keywords(Trim(s[idx + 1..])) != [] else ',' !in s
  }

  ghost predicate ListReturns(skills: seq<string>) {
    if AnyColon(skills) then All(skills, EntryReturns)
    else skills == [] || (TrimmedNonEmpty(skills) != [] && CommaFree(TrimmedNonEmpty(skills)))
  }

  lemma KeywordsSurvive(name: string, text: string)
    ensures Survives(Skill(name, Keywords(text))) <==> Keywords(text) != []
  {
    KeptAreCommaFree(Split(text, ','));
  }

  lemma TextSurvives(name: string, s: string)
    ensures Survives(Skill(name, [s])) <==> ',' !in s
  {
    var words: seq<string> := [s];
    assert words[0] == s;
  }

  lemma EntryReturnsIff(raw: string)
    ensures EntryReturns(raw) <==> All(ExportOne(raw), Survives)
  {
    var s := Trim(raw);
    var idx := IndexOfChar(s, ':');
    if 0 < idx < |s| {
      var name, text := Trim(s[..idx]), Trim(s[idx + 1..]);
      KeywordsSurvive(name, text);
      OneOf(Skill(name, Keywords(text)), Survives);
    } else if s != "" {
      TextSurvives("Other", s);
      OneOf(Skill("Other", [s]), Survives);
    }
  }

  /**
   Export, import, export gives the first export again exactly when every labelled entry has a
   keyword and no other entry holds a comma (and a list without colons is not all blank).
   */
  lemma RoundTripIff(skills: seq<string>)
    ensures Export(Import(AsJson(Export(skills)))) == Export(skills) <==> ListReturns(skills)
  {
    ExportShape(skills);
    ReexportIff(Export(skills));
    if AnyColon(skills) {
      forall raw ensures EntryReturns(raw) <==> All(ExportOne(raw), Survives) { EntryReturnsIff(raw); }
      FlatMapAll(skills, ExportOne, Survives, EntryReturns);
    } else if skills != [] {
      assert Export(skills)[0] == Skill("Skills", TrimmedNonEmpty(skills));
    }
  }

  /** A list with a comma in an unlabelled entry, and a list of blanks, come back changed. */
  lemma ListsThatChange()
    ensures var skills := ["x: y", "a,b"]; Export(Import(AsJson(Export(skills)))) != Export(skills)
    ensures var skills := ["  "]; Export(Import(AsJson(Export(skills)))) != Export(skills)
  {
    CommaEntry("x: y", "a,b");
    BlankEntry("  ");
    RoundTripIff(["x: y", "a,b"]);
    RoundTripIff(["  "]);
  }

  lemma CommaEntry(labelled: string, entry: string)
    requires ':' in labelled && entry == "a,b"
    ensures !ListReturns([labelled, entry])
  {
    hide EntryReturns, Trim;
    var skills := [labelled, entry];
    CommaStays(entry);
    assert ':' in skills[0] && !EntryReturns(skills[1]);
  }

  lemma CommaStays(entry: string)
    requires entry == "a,b"
    ensures !EntryReturns(entry)
  {
    hide Trim, Keywords;
    TrimmedStays(entry);
    assert entry[1] == ',' && ':' !in entry;
  }

  lemma TrimmedStays(s: string)
    requires Trimmed(s)
    ensures Trim(s) == s
  {
  }

  lemma BlankEntry(entry: string)
    requires entry == "  "
    ensures !ListReturns([entry])
  {
    hide Trim, TrimmedNonEmpty, EntryReturns;
    TwoBlanks(entry);
    NothingKept(entry);
    assert ':' !in [entry][0];
  }

  lemma TwoBlanks(s: string)
    requires s == "  "
    ensures Trim(s) == ""
  {
    assert s[1..] == " " && " "[1..] == "";
  }

  lemma NothingKept(s: string)
    requires Trim(s) == ""
    ensures TrimmedNonEmpty([s]) == []
  {
    NonEmptyAfterCons(s, [], Trim);
    assert [s] + [] == [s];
  }

  // ---- the two conversions, entry by entry

  /** The keywords of a text are those of the parts that a comma divides it into. */
  lemma KeywordsOfBoth(a: string, b: string)
    ensures Keywords(a + [','] + b) == Keywords(a) + Keywords(b)
  {
    SplitBoth(a, b, ',');
    NonEmptyAfterBoth(Split(a, ','), Split(b, ','), Trim);
  }

  lemma KeywordsOfPart(t: string)
    requires ',' !in t
    ensures Keywords(t) == if AllSpace(t) then [] else [Trim(t)]
  {
    hide Trim, AllSpace;
    BlankIff(t);
    NonEmptyAfterCons(t, [], Trim);
    NonEmptyAfterNone(Trim);
    assert [t] + [] == [t];
  }

  /** In a list with labels, an entry with one gives its name and its keywords, another is an "Other" skill. */
  lemma EntryIs(name: string, words: string, bare: string)
    requires name != "" && ':' !in name && Trimmed(name + (":" + words))
    requires Trimmed(bare) && bare != "" && ':' !in bare
    ensures ExportOne(name + (":" + words)) == [Skill(Trim(name), Keywords(Trim(words)))]
    ensures ExportOne(bare) == [Skill("Other", [bare])] && ExportOne("") == []
  {
    hide Trim, Keywords, IndexOfChar;
    var t := name + (":" + words);
    ColonAt(name, words);
    TrimmedStays(t);
    TrimmedStays(bare);
    TrimmedStays("");
    assert t[..|name|] == name && t[|name| + 1..] == words;
  }

  /** A list without labels is one skill, a list with a colon somewhere is converted entry by entry. */
  lemma ExportIs(skills: seq<string>)
    ensures Export([]) == []
    ensures skills != [] && (forall s :: s in skills ==> ':' !in s) ==>
      Export(skills) == [Skill("Skills", TrimmedNonEmpty(skills))]
    ensures (exists s :: s in skills && ':' in s) ==> Export(skills) == FlatMap(skills, ExportOne)
  {
    hide TrimmedNonEmpty, FlatMap, ExportOne;
    if s :| s in skills && ':' in s {
      var i :| 0 <= i < |skills| && skills[i] == s;
    }
    assert forall i :: 0 <= i < |skills| ==> skills[i] in skills;
  }

  /** The texts of all entries in order; when there are none and the first is a text, that many blank texts. */
  lemma ImportIs(json: seq<JsonSkill>, n: nat)
    ensures ImportEach(json) != [] ==> Import(json) == ImportEach(json)
    ensures json != [] && json[0].Listed? ==> Import(json) == ImportEach(json)
    ensures Import(Blanks(n)) == seq(n, i => "")
  {
    hide FlatMap;
    BlankTexts(n);
  }

  function Blanks(n: nat): (r: seq<JsonSkill>) { seq(n, i => Flat("")) }

  lemma {:induction false} BlankTexts(n: nat)
    ensures ImportEach(Blanks(n)) == [] && FlatTexts(Blanks(n)) == seq(n, i => "")
  {
    if n > 0 {
      BlankTexts(n - 1);
      assert Blanks(n)[..n - 1] == Blanks(n - 1) && Blanks(n)[n - 1] == Flat("");
      assert Trim("") == "";
    }
  }

  /** What an imported entry becomes: a name with its keywords, a name alone, or the texts themselves. */
  lemma ImportedIs(name: string, words: string, k: string, more: seq<string>)
    requires name != "" && words != ""
    ensures ImportOne(Listed(name, [k] + more)) == [name + (": " + Join([k] + more, ", "))]
    ensures ImportOne(Worded(name, words)) == [name + (": " + words)]
    ensures ImportOne(Listed(name, [])) == ImportOne(Worded(name, "")) == ImportOne(Flat(name)) == [Trim(name)]
    ensures |ImportOne(Listed("", [k] + more))| == 1 + |more| && ImportOne(Listed("", [k] + more))[0] == Trim(k)
    ensures ImportOne(Worded("", words)) == [] && ImportOne(Flat("")) == []
  {
    hide Trim, Join;
  }
}
