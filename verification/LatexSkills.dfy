/**
 The rows of the skill table (apps/web/src/lib/resumeLatex.ts:84-103). The loop that collects them is
 proved against the division of the list into groups: a labelled entry and the entries that follow
 it, up to the next labelled one.
 */
module LatexSkills {
  import opened JsText
  import opened LatexEscape
  import opened LatexNesting
  import opened LatexText
  import ResumeSkills

  datatype SkillRow = SkillRow(name: string, value: string)

  // ---- groups

  /** A colon that is not the first character makes an entry a label. */
  predicate IsLabelled(s: string) { 0 < IndexOfChar(s, ':') < |s| }

  /** Groups of entries: each labelled entry starts one, and the first entry does. */
  function Groups(entries: seq<string>): seq<seq<string>> {
    if entries == [] then []
    else AddTo(Groups(entries[..|entries| - 1]), entries[|entries| - 1])
  }

  function AddTo(groups: seq<seq<string>>, s: string): seq<seq<string>> {
    if groups == [] || IsLabelled(s) then groups + [[s]]
    else groups[..|groups| - 1] + [groups[|groups| - 1] + [s]]
  }

  function Flatten(groups: seq<seq<string>>): seq<string> {
    if groups == [] then [] else Flatten(groups[..|groups| - 1]) + groups[|groups| - 1]
  }

  /** One labelled entry at most, in front. */
  predicate IsGroup(g: seq<string>) { g != [] && forall k :: 1 <= k < |g| ==> !IsLabelled(g[k]) }

  /** The groups hold the entries in order, and only the first may lack a label. */
  ghost predicate IsGrouping(groups: seq<seq<string>>, entries: seq<string>) {
    && Flatten(groups) == entries
    && (forall i :: 0 <= i < |groups| ==> IsGroup(groups[i]))
    && (forall i :: 1 <= i < |groups| ==> IsLabelled(groups[i][0]))
  }

  lemma FlattenSnoc(groups: seq<seq<string>>, g: seq<string>)
    ensures Flatten(groups + [g]) == Flatten(groups) + g
  {
    assert (groups + [g])[..|groups|] == groups;
  }

  lemma AddKeepsGrouping(groups: seq<seq<string>>, entries: seq<string>, s: string)
    requires IsGrouping(groups, entries)
    ensures IsGrouping(AddTo(groups, s), entries + [s])
  {
    if groups == [] || IsLabelled(s) {
      hide IsLabelled;
      FlattenSnoc(groups, [s]);
      assert AddTo(groups, s) == groups + [[s]];
      assert IsGroup([s]);
    } else {
      hide Flatten, IsLabelled;
      var front, last := groups[..|groups| - 1], groups[|groups| - 1];
      FlattenSnoc(front, last + [s]);
      assert Flatten(front) + (last + [s]) == (Flatten(front) + last) + [s];
    }
  }

  lemma {:induction false} GroupsGroup(entries: seq<string>)
    ensures IsGrouping(Groups(entries), entries)
  {
    hide AddTo, IsLabelled, IsGroup;
    if entries != [] {
      var front, s := entries[..|entries| - 1], entries[|entries| - 1];
      GroupsGroup(front);
      AddKeepsGrouping(Groups(front), front, s);
      assert entries == front + [s];
    }
  }

  /** Taking the last entry off a grouping leaves a grouping, to which the entry adds again. */
  lemma DropLast(groups: seq<seq<string>>, entries: seq<string>) returns (before: seq<seq<string>>)
    requires IsGrouping(groups, entries) && entries != []
    ensures IsGrouping(before, entries[..|entries| - 1])
    ensures groups == AddTo(before, entries[|entries| - 1])
  {
    var front, last := groups[..|groups| - 1], groups[|groups| - 1];
    var g, s := last[..|last| - 1], last[|last| - 1];
    assert last == g + [s];
    assert entries == (Flatten(front) + g) + [s];
    if g == [] {
      before := front;
      assert Flatten(front) + g == Flatten(front);
    } else {
      before := front + [g];
      FlattenSnoc(front, g);
      assert before[..|front|] == front;
    }
    assert groups == front + [last];
  }

  /** There is exactly one grouping of a list. */
  lemma {:induction false} GroupsDetermined(groups: seq<seq<string>>, entries: seq<string>)
    ensures IsGrouping(groups, entries) <==> groups == Groups(entries)
    decreases |entries|
  {
    GroupsGroup(entries);
    if IsGrouping(groups, entries) {
      if entries == [] {
        NoGroups(groups);
      } else {
        var before := DropLast(groups, entries);
        GroupsDetermined(before, entries[..|entries| - 1]);
      }
    }
  }

  lemma FlattenKeepsLast(groups: seq<seq<string>>)
    ensures groups != [] && groups[|groups| - 1] != [] ==> Flatten(groups) != []
  {
  }

  lemma NoGroups(groups: seq<seq<string>>)
    requires IsGrouping(groups, [])
    ensures groups == []
  {
    FlattenKeepsLast(groups);
  }

  // ---- rows

  /** The name and the first part of the value that the head of a group gives. */
  function HeadRow(s: string): SkillRow {
    var idx := IndexOfChar(s, ':');
    if 0 < idx < |s| then SkillRow(EscTrim(s[..idx]), EscTrim(s[idx + 1..]))
    else SkillRow(EscapeLatex("Other"), EscapeLatex(s))
  }

  /** The head names the row; its own value and the following entries are joined with commas. */
  function RowOf(g: seq<string>): SkillRow {
    if g == [] then SkillRow("", "")
    else SkillRow(HeadRow(g[0]).name, Join([HeadRow(g[0]).value] + EscAll(g[1..]), ", "))
  }

  function RowsOf(groups: seq<seq<string>>): (r: seq<SkillRow>)
    ensures |r| == |groups| && forall i :: 0 <= i < |r| ==> r[i] == RowOf(groups[i])
  {
    seq(|groups|, i requires 0 <= i < |groups| => RowOf(groups[i]))
  }

  /** `rows.filter(r => r.value)`. */
  function WithValue(rows: seq<SkillRow>): (r: seq<SkillRow>)
    ensures forall row :: row in r <==> row in rows && row.value != ""
  {
    if rows == [] then []
    else (if rows[0].value == "" then [] else [rows[0]]) + WithValue(rows[1..])
  }

  function EscOfTrim(s: string): string { EscapeLatex(Trim(s)) }

  function FlatSkills(skills: seq<string>): seq<SkillRow> {
    [SkillRow(EscapeLatex("Skills"), Join(NonEmptyAfter(skills, EscOfTrim), ", "))]
  }

  function SkillRows(skills: seq<string>): seq<SkillRow> {
    if skills == [] then []
    else if !ResumeSkills.AnyColon(skills) then FlatSkills(skills)
    else WithValue(RowsOf(Groups(TrimmedNonEmpty(skills))))
  }

  lemma {:induction false} JoinSnoc(texts: seq<string>, t: string, sep: string)
    requires texts != []
    ensures Join(texts + [t], sep) == Join(texts, sep) + (sep + t)
  {
    if |texts| == 1 {
      assert (texts + [t])[1..] == [t];
      assert texts[0] + sep + t == texts[0] + (sep + t);
    } else {
      JoinSnoc(texts[1..], t, sep);
      assert (texts + [t])[1..] == texts[1..] + [t];
      Assoc(texts[0] + sep, Join(texts[1..], sep), sep + t);
    }
  }

  lemma RowGrows(g: seq<string>, s: string)
    requires g != []
    ensures RowOf(g + [s]) == SkillRow(RowOf(g).name, RowOf(g).value + (", " + EscapeLatex(s)))
  {
    assert (g + [s])[1..] == g[1..] + [s];
    ValueGrows(HeadRow(g[0]).value, g[1..], s);
  }

  lemma ValueGrows(v: string, entries: seq<string>, s: string)
    ensures Join([v] + EscAll(entries + [s]), ", ") == Join([v] + EscAll(entries), ", ") + (", " + EscapeLatex(s))
  {
    assert [v] + EscAll(entries + [s]) == ([v] + EscAll(entries)) + [EscapeLatex(s)];
    JoinSnoc([v] + EscAll(entries), EscapeLatex(s), ", ");
  }

  lemma RowOfOne(s: string)
    ensures RowOf([s]) == HeadRow(s)
  {
    assert [HeadRow(s).value] + EscAll([s][1..]) == [HeadRow(s).value];
  }

  /** What the loop does with one entry. */
  function AddSkill(rows: seq<SkillRow>, s: string): seq<SkillRow> {
    if IsLabelled(s) || rows == [] then rows + [HeadRow(s)]
    else
      var last := rows[|rows| - 1];
      rows[..|rows| - 1] + [last.(value := last.value + (", " + EscapeLatex(s)))]
  }

  lemma RowsSnoc(groups: seq<seq<string>>, g: seq<string>)
    ensures RowsOf(groups + [g]) == RowsOf(groups) + [RowOf(g)]
  {
  }

  lemma AddIsAdd(groups: seq<seq<string>>, s: string)
    requires forall i :: 0 <= i < |groups| ==> groups[i] != []
    ensures AddSkill(RowsOf(groups), s) == RowsOf(AddTo(groups, s))
  {
    if groups == [] || IsLabelled(s) {
      RowOfOne(s);
      RowsSnoc(groups, [s]);
    } else {
      var front, last := groups[..|groups| - 1], groups[|groups| - 1];
      RowGrows(last, s);
      RowsSnoc(front, last + [s]);
      assert RowsOf(groups)[..|front|] == RowsOf(front);
    }
  }

  lemma {:induction false} TrimmedSnoc(skills: seq<string>, s: string)
    ensures TrimmedNonEmpty(skills + [s]) == TrimmedNonEmpty(skills) + (if Trim(s) == "" then [] else [Trim(s)])
  {
    NonEmptySnoc(skills, s, Trim);
  }

  lemma {:induction false} NonEmptySnoc(items: seq<string>, x: string, f: string -> string)
    ensures NonEmptyAfter(items + [x], f) == NonEmptyAfter(items, f) + (if f(x) == "" then [] else [f(x)])
  {
    if items == [] {
      assert items + [x] == [x];
    } else {
      NonEmptySnoc(items[1..], x, f);
      assert (items + [x])[1..] == items[1..] + [x];
    }
  }

  lemma OneMoreEntry(skills: seq<string>, i: nat)
    requires i < |skills|
    ensures var before, s := Groups(TrimmedNonEmpty(skills[..i])), Trim(skills[i]);
      RowsOf(Groups(TrimmedNonEmpty(skills[..i + 1]))) == if s == "" then RowsOf(before)
          else AddSkill(RowsOf(before), s)
  {
    var kept, s := TrimmedNonEmpty(skills[..i]), Trim(skills[i]);
    assert skills[..i + 1] == skills[..i] + [skills[i]];
    TrimmedSnoc(skills[..i], skills[i]);
    if s == "" {
      assert kept + [] == kept;
    } else {
      assert (kept + [s])[..|kept|] == kept;
      GroupsGroup(kept);
      AddIsAdd(Groups(kept), s);
    }
  }

  method CollectRows(skills: seq<string>) returns (rows: seq<SkillRow>)
    ensures rows == RowsOf(Groups(TrimmedNonEmpty(skills)))
  {
    rows := [];
    for i := 0 to |skills|
      invariant rows == RowsOf(Groups(TrimmedNonEmpty(skills[..i])))
    {
      OneMoreEntry(skills, i);
      var s := Trim(skills[i]);
      if s == "" { continue; }
      rows := AddSkill(rows, s);
    }
    assert skills[..|skills|] == skills;
  }

  method ParseSkillRowsForLatex(skills: seq<string>) returns (rows: seq<SkillRow>)
    ensures skills == [] ==> rows == []
    ensures skills != [] && !ResumeSkills.AnyColon(skills) ==> rows == FlatSkills(skills)
    ensures ResumeSkills.AnyColon(skills) ==> forall groups :: IsGrouping(groups, TrimmedNonEmpty(skills)) ==>
      rows == WithValue(RowsOf(groups))
    ensures rows == SkillRows(skills)
  {
    if skills == [] { return []; }
    if !ResumeSkills.AnyColon(skills) { return FlatSkills(skills); }
    rows := CollectRows(skills);
    rows := WithValue(rows);
    forall groups | IsGrouping(groups, TrimmedNonEmpty(skills)) ensures rows == WithValue(RowsOf(groups)) {
      GroupsDetermined(groups, TrimmedNonEmpty(skills));
    }
  }

  // ---- rows open and close nothing

  ghost predicate RowNeutral(row: SkillRow) { Neutral(row.name) && Neutral(row.value) }

  lemma RowOfNeutral(g: seq<string>)
    ensures RowNeutral(RowOf(g))
  {
    hide HeadRow, EscAll, Neutral;
    PlainNeutral("");
    PlainNeutral(", ");
    if g != [] {
      HeadNeutral(g[0]);
      EscAllNeutral(g[1..]);
      JoinNeutral([HeadRow(g[0]).value] + EscAll(g[1..]), ", ");
    }
  }

  lemma HeadNeutral(s: string)
    ensures RowNeutral(HeadRow(s))
  {
    var idx := IndexOfChar(s, ':');
    EscapedNeutral("Other");
    EscapedNeutral(s);
    if 0 < idx < |s| {
      EscapedNeutral(Trim(s[..idx]));
      EscapedNeutral(Trim(s[idx + 1..]));
    }
  }

  lemma OneFlatRow(skills: seq<string>)
    ensures |FlatSkills(skills)| == 1
  {
  }

  lemma FlatNeutral(skills: seq<string>)
    ensures RowNeutral(FlatSkills(skills)[0])
  {
    hide EscapeLatex, Trim, Neutral;
    EscapedNeutral("Skills");
    forall x ensures Neutral(EscOfTrim(x)) { EscapedNeutral(Trim(x)); }
    KeptNeutral(skills, EscOfTrim);
    PlainNeutral(", ");
    JoinNeutral(NonEmptyAfter(skills, EscOfTrim), ", ");
  }

  /** No row of the table leaves anything open, whatever the entries are. */
  lemma SkillRowsNeutral(skills: seq<string>)
    ensures forall row :: row in SkillRows(skills) ==> RowNeutral(row)
  {
    hide RowOf, FlatSkills, Groups, TrimmedNonEmpty, Neutral, RowNeutral;
    FlatNeutral(skills);
    assert FlatSkills(skills) == [FlatSkills(skills)[0]] by { OneFlatRow(skills); }
    var groups := Groups(TrimmedNonEmpty(skills));
    forall i | 0 <= i < |groups| ensures RowNeutral(RowsOf(groups)[i]) { RowOfNeutral(groups[i]); }
  }
}
