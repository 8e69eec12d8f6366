/**
 The timetable of a date and of a range of dates (apps/web/src/lib/timetableMerge.ts:67-139), and
 how often each template and each temporary class appears in it.
 */
module TimetableRange {
  import opened Options
  import opened JsText
  import opened Calendar
  import opened DayKeys
  import opened StableSort
  import opened TimetableMerge

  // ---- one date

  /** Which overrides are valid on day `n`. */
  function ValidityOn(n: int): Validity { (o: Override) => ValidOn(o, n) }

  /** The merge for day `n`, with the overrides that are valid on it. */
  function DayMerge(templates: seq<Lesson>, overrides: seq<Override>, clock: Clock, collate: Collation,
      n: int): seq<Entry>
    requires IsoYear(n)
  {
    MergedOn(templates, overrides, IsoKey(n), MondayBased(n), ValidityOn(n), clock, collate)
  }

  lemma {:induction false} FindAgrees(overrides: seq<Override>, t: Lesson, v: Validity, w: Validity)
    requires forall o :: v(o) == w(o)
    ensures FindChange(overrides, t, v) == FindChange(overrides, t, w)
  {
    if overrides != [] { FindAgrees(overrides[1..], t, v, w); }
  }

  lemma {:induction false} TemplatesAgree(templates: seq<Lesson>, overrides: seq<Override>, key: string, dow: int,
      v: Validity, w: Validity)
    requires forall o :: v(o) == w(o)
    ensures FromTemplates(templates, overrides, key, dow, v) == FromTemplates(templates, overrides, key, dow, w)
  {
    if templates != [] {
      TemplatesAgree(templates[..|templates| - 1], overrides, key, dow, v, w);
      FindAgrees(overrides, templates[|templates| - 1], v, w);
    }
  }

  lemma {:induction false} TempsAgree(overrides: seq<Override>, key: string, dow: int, v: Validity, w: Validity,
      clock: Clock)
    requires forall o :: v(o) == w(o)
    ensures FromTemps(overrides, key, dow, v, clock) == FromTemps(overrides, key, dow, w, clock)
  {
    if overrides != [] { TempsAgree(overrides[..|overrides| - 1], key, dow, v, w, clock); }
  }

  lemma MergeAgrees(templates: seq<Lesson>, overrides: seq<Override>, key: string, dow: int, v: Validity, w: Validity,
                    clock: Clock, collate: Collation)
    requires forall o :: v(o) == w(o)
    ensures MergedOn(templates, overrides, key, dow, v, clock, collate)
        == MergedOn(templates, overrides, key, dow, w, clock, collate)
  {
    TemplatesAgree(templates, overrides, key, dow, v, w);
    TempsAgree(overrides, key, dow, v, w, clock);
  }

  lemma KeyOfRealDay(key: string)
    requires DayOfKey(key).Some?
    ensures IsoYear(DayOfKey(key).value) && IsoKey(DayOfKey(key).value) == key
  {
    DateRoundTrip(Spelled(key));
    SpellingDetermines(key);
  }

  lemma ByKeyIsByDay(templates: seq<Lesson>, overrides: seq<Override>, key: string, n: int, clock: Clock,
      collate: Collation)
    requires DayOfKey(key) == Some(n) && IsoYear(n)
    ensures MergedOn(templates, overrides, key, MondayBased(n),
        (o: Override) => IsDateInRange(key, o.validFrom, o.validUntil), clock, collate)
         == DayMerge(templates, overrides, clock, collate, n)
  {
    KeyOfRealDay(key);
    forall o: Override ensures IsDateInRange(key, o.validFrom, o.validUntil) == ValidOn(o, n) {
      RangeTestIsByDays(o, n);
    }
    MergeAgrees(templates, overrides, key, MondayBased(n),
      (o: Override) => IsDateInRange(key, o.validFrom, o.validUntil), ValidityOn(n), clock, collate);
  }

  method MergeTimetableForDate(templates: seq<Lesson>, overrides: seq<Override>, dateKey: string,
                               clock: Clock, collate: Collation) returns (out: seq<Entry>)
    ensures DayOfKey(dateKey).None? ==> out == []
    ensures DayOfKey(dateKey).Some? ==>
      IsoYear(DayOfKey(dateKey).value) && out == DayMerge(templates, overrides, clock, collate, DayOfKey(dateKey).value)
  {
    var day := DayOfKey(dateKey);
    if day.None? { return []; }
    KeyOfRealDay(dateKey);
    ByKeyIsByDay(templates, overrides, dateKey, day.value, clock, collate);
    out := MergeWith(templates, overrides, dateKey, MondayBased(day.value),
                     (o: Override) => IsDateInRange(dateKey, o.validFrom, o.validUntil), clock, collate);
  }

  // ---- a range of dates

  /** What each day contributes, day after day. */
  type DayEntries = int -> seq<Entry>

  function ConcatDays(start: int, days: nat, day: DayEntries): seq<Entry> {
    if days == 0 then [] else ConcatDays(start, days - 1, day) + day(start + days - 1)
  }

  function DailyMerge(templates: seq<Lesson>, overrides: seq<Override>, clock: Clock, collate: Collation): DayEntries {
    (n: int) => if IsoYear(n) then DayMerge(templates, overrides, clock, collate, n) else []
  }

  lemma YearsOrdered(m: int, n: int)
    requires m <= n
    ensures DateOf(m).year <= DateOf(n).year
  {
    DayRoundTrip(m);
    DayRoundTrip(n);
    DateOrder(DateOf(m), DateOf(n));
  }

  lemma KeysOrderedAsDays(a: string, b: string)
    requires DayOfKey(a).Some? && DayOfKey(b).Some?
    ensures StringLess(a, b) <==> DayOfKey(a).value < DayOfKey(b).value
  {
    KeysCompareAsDays(a, b);
  }

  method MergeDays(start: int, end: int, day: DayEntries) returns (out: seq<Entry>)
    requires start <= end + 1
    ensures out == ConcatDays(start, end - start + 1, day)
  {
    out := [];
    var t := start;
    while t <= end
      invariant start <= t <= end + 1
      invariant out == ConcatDays(start, t - start, day)
    {
      out := out + day(t);
      t := t + 1;
    }
  }

  /** The entries from one date key to another: at most 63 days; a malformed or reversed range is empty. */
  function MergedRange(fromKey: string, toKey: string, day: DayEntries): seq<Entry> {
    match (DayOfKey(fromKey), DayOfKey(toKey))
    case (Some(start), Some(end)) =>
      if start <= end <= start + 62 then ConcatDays(start, end - start + 1, day) else []
    case _ => []
  }

  method MergeKeyRange(fromKey: string, toKey: string, day: DayEntries) returns (out: seq<Entry>)
    ensures out == MergedRange(fromKey, toKey, day)
  {
    hide DayOf, Spelled, RealDate, StringLess, ConcatDays, KeyShaped;
    if !KeyShaped(fromKey) || !KeyShaped(toKey) { return []; }
    var from, to := DayOfKey(fromKey), DayOfKey(toKey);
    if from.None? || to.None? { return []; }
    if StringLess(toKey, fromKey) {
      KeysOrderedAsDays(toKey, fromKey);
      return [];
    }
    var days := to.value - from.value;
    if days < 0 || days > 62 { return []; }
    out := MergeDays(from.value, to.value, day);
  }

  method MergeTimetableForRange(templates: seq<Lesson>, overrides: seq<Override>, fromKey: string, toKey: string,
                                clock: Clock, collate: Collation) returns (out: seq<Entry>)
    ensures out == MergedRange(fromKey, toKey, DailyMerge(templates, overrides, clock, collate))
  {
    out := MergeKeyRange(fromKey, toKey, DailyMerge(templates, overrides, clock, collate));
  }

  lemma IsoBetween(start: int, n: int, end: int)
    requires IsoYear(start) && IsoYear(end) && start <= n <= end
    ensures IsoYear(n)
  {
    YearsOrdered(start, n);
    YearsOrdered(n, end);
  }

  lemma IsoAllBetween(start: int, end: int)
    requires IsoYear(start) && IsoYear(end)
    ensures forall n :: start <= n <= end ==> IsoYear(n)
  {
    forall n | start <= n <= end ensures IsoYear(n) { IsoBetween(start, n, end); }
  }

  /** Every day between two date keys has a four-digit year. */
  lemma RangeYears(fromKey: string, toKey: string)
    requires DayOfKey(fromKey).Some? && DayOfKey(toKey).Some?
    ensures forall n :: DayOfKey(fromKey).value <= n <= DayOfKey(toKey).value ==> IsoYear(n)
  {
    KeyOfRealDay(fromKey);
    KeyOfRealDay(toKey);
    IsoAllBetween(DayOfKey(fromKey).value, DayOfKey(toKey).value);
  }

  // ---- only the overrides valid on a day matter

  lemma FindCons(o: Override, rest: seq<Override>, t: Lesson, valid: Validity)
    ensures FindChange([o] + rest, t, valid) == if Changes(o, t, valid) then 0 else 1 + FindChange(rest, t, valid)
  {
    assert ([o] + rest)[1..] == rest;
  }

  /** Both lists have the same first change, or none. */
  ghost predicate SameChange(a: seq<Override>, b: seq<Override>, t: Lesson, valid: Validity) {
    var i, j := FindChange(a, t, valid), FindChange(b, t, valid);
    (i == |a| <==> j == |b|) && (i < |a| ==> a[i] == b[j])
  }

  lemma ConsSame(o: Override, a: seq<Override>, b: seq<Override>, t: Lesson, valid: Validity)
    requires SameChange(a, b, t, valid)
    ensures SameChange([o] + a, [o] + b, t, valid)
    ensures !Changes(o, t, valid) ==> SameChange([o] + a, b, t, valid)
  {
    hide FindChange, Changes;
    FindCons(o, a, t, valid);
    FindCons(o, b, t, valid);
  }

  lemma {:induction false} ChangeAmongValid(overrides: seq<Override>, t: Lesson, valid: Validity)
    ensures SameChange(overrides, Filter(overrides, valid), t, valid)
  {
    hide SameChange;
    if overrides == [] {
      NoChange(t, valid);
    } else {
      var o, rest := overrides[0], overrides[1..];
      ChangeAmongValid(rest, t, valid);
      assert overrides == [o] + rest;
      FilterCons(o, rest, valid);
      ConsSame(o, rest, Filter(rest, valid), t, valid);
      assert [] + Filter(rest, valid) == Filter(rest, valid);
    }
  }

  lemma NoChange(t: Lesson, valid: Validity)
    ensures SameChange([], [], t, valid)
  {
  }

  lemma {:induction false} TemplatesNeedValid(templates: seq<Lesson>, overrides: seq<Override>, key: string,
      dow: int, valid: Validity)
    ensures FromTemplates(templates, Filter(overrides, valid), key, dow, valid)
        == FromTemplates(templates, overrides, key, dow, valid)
  {
    if templates != [] {
      TemplatesNeedValid(templates[..|templates| - 1], overrides, key, dow, valid);
      ChangeAmongValid(overrides, templates[|templates| - 1], valid);
    }
  }

  lemma {:induction false} TempsNeedValid(overrides: seq<Override>, key: string, dow: int, valid: Validity,
      clock: Clock)
    ensures FromTemps(Filter(overrides, valid), key, dow, valid, clock) == FromTemps(overrides, key, dow, valid, clock)
  {
    if overrides != [] {
      var front, o := overrides[..|overrides| - 1], overrides[|overrides| - 1];
      TempsNeedValid(front, key, dow, valid, clock);
      FilterAppend(front, o, valid);
      assert overrides == front + [o];
      var kept := Filter(front, valid);
      if valid(o) { assert (kept + [o])[..|kept|] == kept; } else { assert kept + [] == kept; }
    }
  }

  /** The day is the same when the overrides that do not cover it are removed first. */
  lemma OnlyValidOverridesMatter(templates: seq<Lesson>, overrides: seq<Override>, clock: Clock, collate: Collation,
      n: int)
    requires IsoYear(n)
    ensures DayMerge(templates, Filter(overrides, ValidityOn(n)), clock, collate, n)
        == DayMerge(templates, overrides, clock, collate, n)
  {
    TemplatesNeedValid(templates, overrides, IsoKey(n), MondayBased(n), ValidityOn(n));
    TempsNeedValid(overrides, IsoKey(n), MondayBased(n), ValidityOn(n), clock);
  }

  // ---- each day is in order

  lemma EarlierIsTotalPreorder(clock: Clock, collate: Collation)
    requires TotalPreorder(collate)
    ensures TotalPreorder((a: Entry, b: Entry) => Earlier(a, b, clock, collate))
  {
  }

  /** Within a day, classes are listed by start minute. */
  lemma DayInOrder(templates: seq<Lesson>, overrides: seq<Override>, key: string, dow: int, valid: Validity,
                   clock: Clock, collate: Collation)
    requires TotalPreorder(collate)
    ensures var out := MergedOn(templates, overrides, key, dow, valid, clock, collate);
      forall i, j :: 0 <= i < j < |out| ==> StartMinute(out[i], clock) <= StartMinute(out[j], clock)
  {
    EarlierIsTotalPreorder(clock, collate);
    SortSorts(FromTemplates(templates, overrides, key, dow, valid) + FromTemps(overrides, key, dow, valid, clock),
              (a: Entry, b: Entry) => Earlier(a, b, clock, collate));
  }

  // ---- how often a class appears

  /** Entries that stem from the templates with this id. */
  function Planned(id: string): Entry -> bool { (e: Entry) => e.lesson.id == id && e.mark != Temporary }

  /** Entries that stem from the temporary classes with this id. */
  function TemporaryOf(id: string): Entry -> bool { (e: Entry) => e.overrideId == id && e.mark == Temporary }

  function RunsOn(id: string, dow: int): Lesson -> bool { (t: Lesson) => t.id == id && OnWeekDay(t, dow) }

  function OccursOn(id: string, dow: int, valid: Validity): Override -> bool {
    (o: Override) => o.id == id && Occurs(o, dow, valid)
  }

  lemma {:induction false} PlannedFromTemplates(templates: seq<Lesson>, overrides: seq<Override>, key: string,
      dow: int, valid: Validity, id: string)
    ensures Count(FromTemplates(templates, overrides, key, dow, valid), Planned(id))
        == Count(templates, RunsOn(id, dow))
    ensures Count(FromTemplates(templates, overrides, key, dow, valid), TemporaryOf(id)) == 0
  {
    hide MergeTemplate;
    if templates != [] {
      var front, t := templates[..|templates| - 1], templates[|templates| - 1];
      PlannedFromTemplates(front, overrides, key, dow, valid, id);
      assert templates == front + [t];
      FilterAppend(front, t, RunsOn(id, dow));
      var before := FromTemplates(front, overrides, key, dow, valid);
      if OnWeekDay(t, dow) {
        var e := MergeTemplate(t, overrides, key, valid);
        PlannedEntry(t, overrides, key, valid, id);
        FilterAppend(before, e, Planned(id));
        FilterAppend(before, e, TemporaryOf(id));
      } else {
        assert before + [] == before;
      }
    }
  }

  lemma PlannedEntry(t: Lesson, overrides: seq<Override>, key: string, valid: Validity, id: string)
    ensures var e := MergeTemplate(t, overrides, key, valid);
      (Planned(id)(e) <==> t.id == id) && !TemporaryOf(id)(e)
  {
  }

  lemma {:induction false} TemporaryFromTemps(overrides: seq<Override>, key: string, dow: int, valid: Validity,
      clock: Clock, id: string)
    ensures Count(FromTemps(overrides, key, dow, valid, clock), TemporaryOf(id))
        == Count(overrides, OccursOn(id, dow, valid))
    ensures Count(FromTemps(overrides, key, dow, valid, clock), Planned(id)) == 0
  {
    if overrides != [] {
      var front, o := overrides[..|overrides| - 1], overrides[|overrides| - 1];
      TemporaryFromTemps(front, key, dow, valid, clock, id);
      assert overrides == front + [o];
      FilterAppend(front, o, OccursOn(id, dow, valid));
      var before := FromTemps(front, key, dow, valid, clock);
      if Occurs(o, dow, valid) {
        var e := TempEntry(o, key, dow, clock);
        FilterAppend(before, e, Planned(id));
        FilterAppend(before, e, TemporaryOf(id));
      } else {
        assert before + [] == before;
      }
    }
  }

  lemma CountMerged(templates: seq<Lesson>, overrides: seq<Override>, key: string, dow: int, valid: Validity,
                    clock: Clock, collate: Collation, p: Entry -> bool)
    ensures Count(MergedOn(templates, overrides, key, dow, valid, clock, collate), p)
         == Count(FromTemplates(templates, overrides, key, dow, valid), p)
             + Count(FromTemps(overrides, key, dow, valid, clock), p)
  {
    var planned, temps := FromTemplates(templates, overrides, key, dow, valid), FromTemps(overrides, key, dow, valid,
        clock);
    SortCount(planned + temps, (a: Entry, b: Entry) => Earlier(a, b, clock, collate), p);
    FilterConcat(planned, temps, p);
  }

  /** The sum of `f` over `days` consecutive days. */
  function SumDays(start: int, days: nat, f: int -> nat): nat {
    if days == 0 then 0 else SumDays(start, days - 1, f) + f(start + days - 1)
  }

  lemma {:induction false} CountOverDays(start: int, days: nat, day: DayEntries, p: Entry -> bool, f: int -> nat)
    requires forall n :: start <= n < start + days ==> Count(day(n), p) == f(n)
    ensures Count(ConcatDays(start, days, day), p) == SumDays(start, days, f)
  {
    if days > 0 {
      CountOverDays(start, days - 1, day, p, f);
      FilterConcat(ConcatDays(start, days - 1, day), day(start + days - 1), p);
    }
  }

  /** 1 on the days of week day `d`, else 0. */
  function OnDay(d: int): int -> nat {
    (n: int) => if MondayBased(n) == d then 1 else 0
  }

  lemma OnDayAt(start: int, d: int, i: nat)
    ensures OnDay(d)(start + i) == Hit((start + 3) % 7, i, d)
  {
  }

  lemma SumSeven(start: int, f: int -> nat)
    ensures SumDays(start, 7, f)
         == f(start) + f(start + 1) + f(start + 2) + f(start + 3) + f(start + 4) + f(start + 5) + f(start + 6)
  {
    assert SumDays(start, 1, f) == f(start + 0);
    assert SumDays(start, 3, f) == SumDays(start, 1, f) + f(start + 1) + f(start + 2);
    assert SumDays(start, 5, f) == SumDays(start, 3, f) + f(start + 3) + f(start + 4);
  }

  function Hit(a: int, i: int, d: int): nat { if (a + i) % 7 == d then 1 else 0 }

  lemma SevenResidues(a: int, d: int)
    requires 0 <= a < 7 && 0 <= d < 7
    ensures Hit(a, 0, d) + Hit(a, 1, d) + Hit(a, 2, d) + Hit(a, 3, d) + Hit(a, 4, d) + Hit(a, 5, d) + Hit(a, 6, d) == 1
  {
  }

  lemma SumHits(start: int, f: int -> nat, a: int, d: int)
    requires 0 <= a < 7 && 0 <= d < 7 && forall i :: 0 <= i < 7 ==> f(start + i) == Hit(a, i, d)
    ensures SumDays(start, 7, f) == 1
  {
    SumSeven(start, f);
    SevenResidues(a, d);
    assert f(start + 0) == Hit(a, 0, d);
  }

  lemma OneOfSeven(start: int, d: int)
    requires 0 <= d < 7
    ensures SumDays(start, 7, OnDay(d)) == 1
  {
    var f, a := OnDay(d), (start + 3) % 7;
    forall i | 0 <= i < 7 ensures f(start + i) == Hit(a, i, d) { OnDayAt(start, d, i); }
    SumHits(start, f, a, d);
  }

  lemma {:induction false} SumSplits(start: int, a: nat, b: nat, f: int -> nat)
    ensures SumDays(start, a + b, f) == SumDays(start, a, f) + SumDays(start + a, b, f)
  {
    if b > 0 {
      SumSplits(start, a, b - 1, f);
      assert start + (a + b) - 1 == start + a + b - 1;
    }
  }

  lemma {:induction false} OncePerWeek(start: int, k: nat, d: int)
    ensures SumDays(start, 7 * k, OnDay(d)) == if 0 <= d < 7 then k else 0
  {
    if 0 <= d < 7 {
      if k > 0 {
        OncePerWeek(start, k - 1, d);
        SumSplits(start, 7 * (k - 1), 7, OnDay(d));
        OneOfSeven(start + 7 * (k - 1), d);
      }
    } else {
      NeverThatDay(start, 7 * k, d);
    }
  }

  lemma {:induction false} NeverThatDay(start: int, days: nat, d: int)
    requires !(0 <= d < 7)
    ensures SumDays(start, days, OnDay(d)) == 0
  {
    if days > 0 { NeverThatDay(start, days - 1, d); }
  }

  /** How many templates with this id run on the week day of day `n`. */
  function TemplatesOn(templates: seq<Lesson>, id: string): int -> nat {
    (n: int) => Count(templates, RunsOn(id, MondayBased(n)))
  }

  lemma {:induction false} SumAdds(start: int, days: nat, f: int -> nat, g: int -> nat, h: int -> nat)
    requires forall n :: h(n) == f(n) + g(n)
    ensures SumDays(start, days, h) == SumDays(start, days, f) + SumDays(start, days, g)
  {
    if days > 0 { SumAdds(start, days - 1, f, g, h); }
  }

  lemma {:induction false} SumZero(start: int, days: nat, f: int -> nat)
    requires forall n :: f(n) == 0
    ensures SumDays(start, days, f) == 0
  {
    if days > 0 { SumZero(start, days - 1, f); }
  }

  /** Templates with this id that run on some week day. */
  function Weekly(id: string): Lesson -> bool {
    (t: Lesson) => t.id == id && t.dayOfWeek.Some? && 0 <= t.dayOfWeek.value < 7
  }

  /** The week day of a template with this id, -1 for the others. */
  function WeekDayIf(t: Lesson, id: string): int {
    if t.id == id && t.dayOfWeek.Some? then t.dayOfWeek.value else -1
  }

  lemma OneMoreTemplate(front: seq<Lesson>, t: Lesson, id: string, n: int)
    ensures TemplatesOn(front + [t], id)(n) == TemplatesOn(front, id)(n) + OnDay(WeekDayIf(t, id))(n)
  {
    FilterAppend(front, t, RunsOn(id, MondayBased(n)));
  }

  lemma WeeksOfOneMore(front: seq<Lesson>, t: Lesson, id: string, start: int, k: nat)
    ensures SumDays(start, 7 * k, TemplatesOn(front + [t], id))
         == SumDays(start, 7 * k, TemplatesOn(front, id)) + (if Weekly(id)(t) then k else 0)
  {
    var d := WeekDayIf(t, id);
    forall n ensures TemplatesOn(front + [t], id)(n) == TemplatesOn(front, id)(n) + OnDay(d)(n) {
      OneMoreTemplate(front, t, id, n);
    }
    SumAdds(start, 7 * k, TemplatesOn(front, id), OnDay(d), TemplatesOn(front + [t], id));
    OncePerWeek(start, k, d);
  }

  lemma Times(k: nat, c: nat, more: bool)
    ensures k * (c + (if more then 1 else 0)) == k * c + (if more then k else 0)
  {
  }

  lemma WeeksGrow(front: seq<Lesson>, t: Lesson, id: string, start: int, k: nat)
    requires SumDays(start, 7 * k, TemplatesOn(front, id)) == k * Count(front, Weekly(id))
    ensures SumDays(start, 7 * k, TemplatesOn(front + [t], id)) == k * Count(front + [t], Weekly(id))
  {
    WeeksOfOneMore(front, t, id, start, k);
    FilterAppend(front, t, Weekly(id));
    Times(k, Count(front, Weekly(id)), Weekly(id)(t));
  }

  lemma {:induction false} TemplatesOverWeeks(templates: seq<Lesson>, id: string, start: int, k: nat)
    ensures SumDays(start, 7 * k, TemplatesOn(templates, id)) == k * Count(templates, Weekly(id))
  {
    if templates == [] {
      SumZero(start, 7 * k, TemplatesOn(templates, id));
    } else {
      var front, t := templates[..|templates| - 1], templates[|templates| - 1];
      assert templates == front + [t];
      TemplatesOverWeeks(front, id, start, k);
      WeeksGrow(front, t, id, start, k);
    }
  }

  lemma DailyTemplates(templates: seq<Lesson>, overrides: seq<Override>, clock: Clock, collate: Collation, n: int,
                       id: string)
    requires IsoYear(n)
    ensures Count(DailyMerge(templates, overrides, clock, collate)(n), Planned(id)) == TemplatesOn(templates, id)(n)
  {
    var valid := ValidityOn(n);
    CountMerged(templates, overrides, IsoKey(n), MondayBased(n), valid, clock, collate, Planned(id));
    PlannedFromTemplates(templates, overrides, IsoKey(n), MondayBased(n), valid, id);
    TemporaryFromTemps(overrides, IsoKey(n), MondayBased(n), valid, clock, id);
  }

  /**
   Over 7k consecutive days every weekly template appears exactly k times, whether it is edited or
   cancelled or neither on those days. (`k <= 9` is what the 63-day limit of a range allows.)
   */
  lemma TemplatesAppearWeekly(templates: seq<Lesson>, overrides: seq<Override>, clock: Clock, collate: Collation,
                              start: int, k: nat, id: string)
    requires forall n :: start <= n < start + 7 * k ==> IsoYear(n)
    ensures Count(ConcatDays(start, 7 * k, DailyMerge(templates, overrides, clock, collate)), Planned(id))
         == k * Count(templates, Weekly(id))
  {
    hide DailyMerge, Count, Planned, TemplatesOn, ConcatDays, IsoYear;
    var daily := DailyMerge(templates, overrides, clock, collate);
    forall n | start <= n < start + 7 * k
      ensures Count(daily(n), Planned(id)) == TemplatesOn(templates, id)(n)
    {
      DailyTemplates(templates, overrides, clock, collate, n, id);
    }
    CountOverDays(start, 7 * k, daily, Planned(id), TemplatesOn(templates, id));
    TemplatesOverWeeks(templates, id, start, k);
  }

  /** 1 on the days the temporary class covers (valid, and on its week day if it has one), else 0. */
  function Covers(o: Override): int -> nat {
    (n: int) => if Occurs(o, MondayBased(n), ValidityOn(n)) then 1 else 0
  }

  function TempsOn(overrides: seq<Override>, id: string): int -> nat {
    (n: int) => Count(overrides, OccursOn(id, MondayBased(n), ValidityOn(n)))
  }

  /** The days covered in the window, added up over the temporary classes with this id. */
  function DaysCovered(overrides: seq<Override>, id: string, start: int, days: nat): nat {
    if overrides == [] then 0
    else
      var o := overrides[|overrides| - 1];
      DaysCovered(overrides[..|overrides| - 1], id, start, days)
          + (if o.id == id then SumDays(start, days, Covers(o)) else 0)
  }

  lemma {:induction false} TempsOverDays(overrides: seq<Override>, id: string, start: int, days: nat)
    ensures SumDays(start, days, TempsOn(overrides, id)) == DaysCovered(overrides, id, start, days)
  {
    if overrides == [] {
      SumZero(start, days, TempsOn(overrides, id));
    } else {
      var front, o := overrides[..|overrides| - 1], overrides[|overrides| - 1];
      assert overrides == front + [o];
      TempsOverDays(front, id, start, days);
      var one := if o.id == id then Covers(o) else (n: int) => 0;
      forall n ensures TempsOn(overrides, id)(n) == TempsOn(front, id)(n) + one(n) {
        FilterAppend(front, o, OccursOn(id, MondayBased(n), ValidityOn(n)));
      }
      SumAdds(start, days, TempsOn(front, id), one, TempsOn(overrides, id));
      if o.id != id { SumZero(start, days, one); }
    }
  }

  /** A temporary class appears once for each day of the window that it covers, and on no other day. */
  lemma TemporaryClassesAppear(templates: seq<Lesson>, overrides: seq<Override>, clock: Clock, collate: Collation,
                               start: int, days: nat, id: string)
    requires forall n :: start <= n < start + days ==> IsoYear(n)
    ensures Count(ConcatDays(start, days, DailyMerge(templates, overrides, clock, collate)), TemporaryOf(id))
         == DaysCovered(overrides, id, start, days)
  {
    var daily := DailyMerge(templates, overrides, clock, collate);
    forall n | start <= n < start + days
      ensures Count(daily(n), TemporaryOf(id)) == TempsOn(overrides, id)(n)
    {
      var valid := ValidityOn(n);
      CountMerged(templates, overrides, IsoKey(n), MondayBased(n), valid, clock, collate, TemporaryOf(id));
      PlannedFromTemplates(templates, overrides, IsoKey(n), MondayBased(n), valid, id);
      TemporaryFromTemps(overrides, IsoKey(n), MondayBased(n), valid, clock, id);
    }
    CountOverDays(start, days, daily, TemporaryOf(id), TempsOn(overrides, id));
    TempsOverDays(overrides, id, start, days);
  }

  /** In a range of k weeks, at most nine, every weekly template appears exactly k times. */
  lemma RangeShowsWeekly(templates: seq<Lesson>, overrides: seq<Override>, clock: Clock, collate: Collation,
                         fromKey: string, toKey: string, k: nat, id: string)
    requires 1 <= k <= 9 && DayOfKey(fromKey).Some? && DayOfKey(toKey).Some?
    requires DayOfKey(toKey).value - DayOfKey(fromKey).value + 1 == 7 * k
    ensures Count(MergedRange(fromKey, toKey, DailyMerge(templates, overrides, clock, collate)), Planned(id))
         == k * Count(templates, Weekly(id))
  {
    hide DayOfKey, DailyMerge, IsoYear, Count, Planned, Weekly;
    var start := DayOfKey(fromKey).value;
    RangeYears(fromKey, toKey);
    assert forall n :: start <= n < start + 7 * k ==> IsoYear(n);
    TemplatesAppearWeekly(templates, overrides, clock, collate, start, k, id);
  }

  /** In a range of at most 63 days, a temporary class appears once for each day that it covers. */
  lemma RangeShowsTemporary(templates: seq<Lesson>, overrides: seq<Override>, clock: Clock, collate: Collation,
                            fromKey: string, toKey: string, days: nat, id: string)
    requires 1 <= days <= 63 && DayOfKey(fromKey).Some? && DayOfKey(toKey).Some?
    requires DayOfKey(toKey).value - DayOfKey(fromKey).value + 1 == days
    ensures Count(MergedRange(fromKey, toKey, DailyMerge(templates, overrides, clock, collate)), TemporaryOf(id))
         == DaysCovered(overrides, id, DayOfKey(fromKey).value, days)
  {
    hide DayOfKey, DailyMerge, IsoYear, Count, TemporaryOf, DaysCovered;
    var start := DayOfKey(fromKey).value;
    RangeYears(fromKey, toKey);
    assert forall n :: start <= n < start + days ==> IsoYear(n);
    TemporaryClassesAppear(templates, overrides, clock, collate, start, days, id);
  }
}
