/**
 Weekly templates merged with dated overrides, per day and per range
 (apps/web/src/lib/timetableMerge.ts:10-139). The fields of a class other than its identity and
 times are kept as one list of texts. `localeCompare` is the parameter `collate`.
 */
module TimetableMerge {
  import opened Options
  import opened JsText
  import opened Calendar
  import opened DayKeys
  import opened StableSort

  /** Texts: title, course, location, teacher, type, colour. */
  datatype Lesson = Lesson(
    id: string, texts: seq<string>, dayOfWeek: Option<int>,
    startTime: string, endTime: string, startMinutes: Option<int>, endMinutes: Option<int>)

  datatype Kind = EDITED | CANCELLED | ADDED_TEMP

  /** An override; an empty text or an absent number leaves the template's value. */
  datatype Override = Override(
    id: string, kind: Kind, baseScheduleId: string, validFrom: string, validUntil: string, patch: Lesson)

  datatype Mark = AsPlanned | Edited | Cancelled | Temporary

  datatype Entry = Entry(lesson: Lesson, date: string, mark: Mark, overrideId: string)

  type Collation = (string, string) -> bool

  // ---- dates

  /** `toDateKey` of a text: its first ten characters when they spell a real date. */
  function ToDateKey(input: string): Option<string> {
    var t := Trim(input);
    var s := if |t| > 10 then t[..10] else t;
    if KeyShaped(s) && RealDate(Spelled(s)) then Some(s) else None
  }

  /** The day of a date key, `None` when the key is malformed. */
  function DayOfKey(key: string): Option<int> {
    if KeyShaped(key) && RealDate(Spelled(key)) then Some(DayOf(Spelled(key))) else None
  }

  /** Years that `toISOString` prints with four digits. */
  predicate IsoYear(n: int) { 0 <= DateOf(n).year <= 9999 }

  /** `toISOString().slice(0, 10)`. */
  function IsoKey(n: int): string
    requires IsoYear(n)
  {
    KeyOf(DateOf(n))
  }

  /** Monday is 0. */
  function MondayBased(n: int): (r: int)
    ensures 0 <= r < 7
  {
    (WeekDay(n) + 6) % 7
  }

  predicate IsDateInRange(key: string, validFrom: string, validUntil: string) {
    var from, until := ToDateKey(validFrom), ToDateKey(validUntil);
    from.Some? && until.Some? && KeyShaped(key)
    && !StringLess(key, from.value) && !StringLess(until.value, key)
  }

  /** The override is valid on day `n`, by day numbers. */
  predicate ValidOn(o: Override, n: int) {
    var from, until := ToDateKey(o.validFrom), ToDateKey(o.validUntil);
    from.Some? && until.Some? && DayOf(Spelled(from.value)) <= n <= DayOf(Spelled(until.value))
  }

  lemma KeysCompareAsDays(a: string, b: string)
    requires KeyShaped(a) && RealDate(Spelled(a)) && KeyShaped(b) && RealDate(Spelled(b))
    ensures StringLess(a, b) <==> DayOf(Spelled(a)) < DayOf(Spelled(b))
  {
    SpellingDetermines(a);
    SpellingDetermines(b);
    KeyOrder(Spelled(a), Spelled(b));
    DateOrder(Spelled(a), Spelled(b));
  }

  lemma KeyBetween(key: string, from: string, until: string)
    requires KeyShaped(key) && RealDate(Spelled(key))
    requires KeyShaped(from) && RealDate(Spelled(from)) && KeyShaped(until) && RealDate(Spelled(until))
    ensures !StringLess(key, from) && !StringLess(until, key)
       <==> DayOf(Spelled(from)) <= DayOf(Spelled(key)) <= DayOf(Spelled(until))
  {
    KeysCompareAsDays(key, from);
    KeysCompareAsDays(until, key);
  }

  lemma IsoKeyParses(n: int)
    requires IsoYear(n)
    ensures KeyShaped(IsoKey(n)) && RealDate(Spelled(IsoKey(n))) && DayOf(Spelled(IsoKey(n))) == n
    ensures DayOfKey(IsoKey(n)) == Some(n)
  {
    DayRoundTrip(n);
  }

  /** Comparing keys as strings finds exactly the days of the override's range. */
  lemma RangeTestIsByDays(o: Override, n: int)
    requires IsoYear(n)
    ensures IsDateInRange(IsoKey(n), o.validFrom, o.validUntil) <==> ValidOn(o, n)
  {
    IsoKeyParses(n);
    var from, until := ToDateKey(o.validFrom), ToDateKey(o.validUntil);
    if from.Some? && until.Some? { KeyBetween(IsoKey(n), from.value, until.value); }
  }

  // ---- one day

  /** Does the override apply on the day at hand? */
  type Validity = Override -> bool

  predicate Changes(o: Override, t: Lesson, valid: Validity) {
    (o.kind == EDITED || o.kind == CANCELLED) && o.baseScheduleId == t.id && valid(o)
  }

  /** `overrides.find(...)`: the first override that changes the template. */
  function FindChange(overrides: seq<Override>, t: Lesson, valid: Validity): (r: nat)
    ensures r <= |overrides|
    ensures r < |overrides| ==> Changes(overrides[r], t, valid)
    ensures forall i :: 0 <= i < r ==> !Changes(overrides[i], t, valid)
  {
    if overrides == [] || Changes(overrides[0], t, valid) then 0 else 1 + FindChange(overrides[1..], t, valid)
  }

  function PatchText(base: string, change: string): string { if change == "" then base else change }

  function PatchTexts(base: seq<string>, change: seq<string>): seq<string> {
    seq(|base|, i requires 0 <= i < |base| => if i < |change| then PatchText(base[i], change[i]) else base[i])
  }

  function PatchNumber(base: Option<int>, change: Option<int>): Option<int> { if change.None? then base else change }

  function Patched(t: Lesson, p: Lesson): Lesson {
    Lesson(t.id, PatchTexts(t.texts, p.texts), PatchNumber(t.dayOfWeek, p.dayOfWeek),
          PatchText(t.startTime, p.startTime), PatchText(t.endTime, p.endTime),
          PatchNumber(t.startMinutes, p.startMinutes), PatchNumber(t.endMinutes, p.endMinutes))
  }

  function MergeTemplate(t: Lesson, overrides: seq<Override>, key: string, valid: Validity): Entry {
    var i := FindChange(overrides, t, valid);
    if i == |overrides| then Entry(t, key, AsPlanned, "")
    else if overrides[i].kind == CANCELLED then Entry(t, key, Cancelled, overrides[i].id)
    else Entry(Patched(t, overrides[i].patch), key, Edited, overrides[i].id)
  }

  /** `o` is the first override that changes `t`. */
  ghost predicate IsFirstChange(overrides: seq<Override>, o: Override, t: Lesson, valid: Validity) {
    exists i :: 0 <= i < |overrides| && overrides[i] == o && Changes(o, t, valid)
      && forall k :: 0 <= k < i ==> !Changes(overrides[k], t, valid)
  }

  /** An override that gives no value. */
  predicate GivesNothing(p: Lesson) {
    && (forall i :: 0 <= i < |p.texts| ==> p.texts[i] == "")
    && p.startTime == "" && p.endTime == "" && p.startMinutes.None? && p.endMinutes.None? && p.dayOfWeek.None?
  }

  /** An override that gives every value of `n` texts. */
  predicate GivesAll(p: Lesson, n: nat) {
    && |p.texts| == n && (forall i :: 0 <= i < n ==> p.texts[i] != "")
    && p.startTime != "" && p.endTime != "" && p.startMinutes.Some? && p.endMinutes.Some? && p.dayOfWeek.Some?
  }

  /**
   Patching with nothing changes nothing, patching with everything leaves nothing but the identity,
   and patching twice is patching once.
   */
  lemma PatchLaws(t: Lesson, p: Lesson)
    ensures GivesNothing(p) ==> Patched(t, p) == t
    ensures GivesAll(p, |t.texts|) ==> Patched(t, p) == p.(id := t.id)
    ensures Patched(Patched(t, p), p) == Patched(t, p)
    ensures Patched(t, p).id == t.id
  {
    var once := Patched(t, p);
    assert Patched(once, p).texts == once.texts;
    assert GivesNothing(p) ==> once.texts == t.texts;
    assert GivesAll(p, |t.texts|) ==> once.texts == p.texts;
  }

  /**
   A template is listed as planned exactly when nothing changes it, as cancelled exactly when its
   first change cancels it, and as edited, with the values given, exactly when that change edits it.
   */
  lemma EntryFollowsFirstChange(t: Lesson, overrides: seq<Override>, key: string, valid: Validity)
    ensures var e := MergeTemplate(t, overrides, key, valid);
      && e.date == key && e.lesson.id == t.id && e.mark != Temporary
      && (e.mark == AsPlanned <==> forall i :: 0 <= i < |overrides| ==> !Changes(overrides[i], t, valid))
      && (e.mark == AsPlanned || e.mark == Cancelled ==> e.lesson == t)
    ensures var e := MergeTemplate(t, overrides, key, valid);
      forall o :: IsFirstChange(overrides, o, t, valid) ==>
        && e.overrideId == o.id && (e.mark == Cancelled <==> o.kind == CANCELLED)
        && (e.mark == Edited <==> o.kind == EDITED) && (e.mark == Edited ==> e.lesson == Patched(t, o.patch))
  {
    var i := FindChange(overrides, t, valid);
    forall o | IsFirstChange(overrides, o, t, valid) ensures i < |overrides| && o == overrides[i] {
      var j :| 0 <= j < |overrides| && overrides[j] == o && Changes(o, t, valid)
        && forall k :: 0 <= k < j ==> !Changes(overrides[k], t, valid);
      assert i <= j;
    }
  }

  /** Runs every week on `dow`. */
  predicate OnWeekDay(t: Lesson, dow: int) { t.dayOfWeek == Some(dow) }

  function FromTemplates(templates: seq<Lesson>, overrides: seq<Override>, key: string, dow: int,
      valid: Validity): seq<Entry> {
    if templates == [] then []
    else
      var t := templates[|templates| - 1];
      FromTemplates(templates[..|templates| - 1], overrides, key, dow, valid)
      + (if OnWeekDay(t, dow) then [MergeTemplate(t, overrides, key, valid)] else [])
  }

  /** `toMinutes`: `H:MM`, with or without AM or PM. Given as a parameter. */
  type Clock = string -> Option<int>

  function OrElse(a: Option<int>, b: Option<int>, fallback: int): Option<int> {
    if a.Some? then a else if b.Some? then b else Some(fallback)
  }

  /** Defaults of a temporary class: title and colour; course and location stay empty. */
  function TempTexts(texts: seq<string>): seq<string> {
    var defaults := ["Temporary class", "", "", "", "CLASS", "#f59e0b"];
    seq(|defaults|, i requires 0 <= i < |defaults| =>
      if i < |texts| && texts[i] != "" then texts[i] else defaults[i])
  }

  function TempEntry(o: Override, key: string, dow: int, clock: Clock): Entry {
    var c := o.patch;
    Entry(
      Lesson(o.id, TempTexts(c.texts), if c.dayOfWeek.Some? then c.dayOfWeek else Some(dow),
            PatchText("09:00", c.startTime), PatchText("10:00", c.endTime),
            OrElse(c.startMinutes, clock(c.startTime), 540), OrElse(c.endMinutes, clock(c.endTime), 600)),
      key, Temporary, o.id)
  }

  /** A temporary class falls on a valid day of its week day, or on every valid day without one. */
  predicate Occurs(o: Override, dow: int, valid: Validity) {
    o.kind == ADDED_TEMP && valid(o) && (o.patch.dayOfWeek.None? || o.patch.dayOfWeek == Some(dow))
  }

  function FromTemps(overrides: seq<Override>, key: string, dow: int, valid: Validity, clock: Clock): seq<Entry> {
    if overrides == [] then []
    else
      var o := overrides[|overrides| - 1];
      FromTemps(overrides[..|overrides| - 1], key, dow, valid, clock)
      + (if Occurs(o, dow, valid) then [TempEntry(o, key, dow, clock)] else [])
  }

  /** `minutesOf(e, 0)`. */
  function StartMinute(e: Entry, clock: Clock): int {
    OrElse(e.lesson.startMinutes, clock(e.lesson.startTime), 0).value
  }

  predicate Earlier(a: Entry, b: Entry, clock: Clock, collate: Collation) {
    var s, t := StartMinute(a, clock), StartMinute(b, clock);
    if s != t then s < t else collate(a.lesson.startTime, b.lesson.startTime)
  }

  function SortEntries(entries: seq<Entry>, clock: Clock, collate: Collation): seq<Entry> {
    Sort(entries, (a: Entry, b: Entry) => Earlier(a, b, clock, collate))
  }

  function MergedOn(templates: seq<Lesson>, overrides: seq<Override>, key: string, dow: int, valid: Validity,
                    clock: Clock, collate: Collation): seq<Entry> {
    SortEntries(FromTemplates(templates, overrides, key, dow, valid) + FromTemps(overrides, key, dow, valid, clock),
                clock, collate)
  }

  method MergeWith(templates: seq<Lesson>, overrides: seq<Override>, key: string, dow: int, valid: Validity,
                   clock: Clock, collate: Collation) returns (out: seq<Entry>)
    ensures out == MergedOn(templates, overrides, key, dow, valid, clock, collate)
  {
    out := [];
    for i := 0 to |templates|
      invariant out == FromTemplates(templates[..i], overrides, key, dow, valid)
    {
      var t := templates[i];
      assert templates[..i + 1][..i] == templates[..i];
      if !OnWeekDay(t, dow) { continue; }
      var found := FindChange(overrides, t, valid);
      if found == |overrides| {
        out := out + [Entry(t, key, AsPlanned, "")];
      } else if overrides[found].kind == CANCELLED {
        out := out + [Entry(t, key, Cancelled, overrides[found].id)];
      } else {
        out := out + [Entry(Patched(t, overrides[found].patch), key, Edited, overrides[found].id)];
      }
    }
    assert templates[..|templates|] == templates;
    ghost var planned := out;
    for i := 0 to |overrides|
      invariant out == planned + FromTemps(overrides[..i], key, dow, valid, clock)
    {
      var o := overrides[i];
      assert overrides[..i + 1][..i] == overrides[..i];
      if o.kind != ADDED_TEMP { continue; }
      if !valid(o) { continue; }
      if o.patch.dayOfWeek.Some? && o.patch.dayOfWeek != Some(dow) { continue; }
      out := out + [TempEntry(o, key, dow, clock)];
    }
    assert overrides[..|overrides|] == overrides;
    out := SortEntries(out, clock, collate);
  }
}
