/**
 What the timetable of a day lists and what the clash report says, told of the fields of templates,
 overrides and entries (apps/web/src/lib/timetableMerge.ts:10-164).
 */
module TimetableMeaning {
  import opened Options
  import opened JsText
  import opened Calendar
  import opened DayKeys
  import opened StableSort
  import opened TimetableMerge
  import opened TimetableRange

  // ---- which overrides apply

  /** An override runs from the date its first text begins with to the date its second begins with, both included. */
  lemma ValidFromUntil(o: Override, from: Date, until: Date, n: int)
    requires RealDate(from) && 0 <= from.year <= 9999 && RealDate(until) && 0 <= until.year <= 9999
    requires KeyOf(from) <= Trim(o.validFrom) && KeyOf(until) <= Trim(o.validUntil)
    ensures ValidOn(o, n) <==> DayOf(from) <= n <= DayOf(until)
  {
    hide KeyOf, Trim, RealDate, KeyShaped, Spelled, DayOf;
    BeginsWithKey(o.validFrom, from);
    BeginsWithKey(o.validUntil, until);
  }

  lemma BeginsWithKey(text: string, d: Date)
    requires RealDate(d) && 0 <= d.year <= 9999 && KeyOf(d) <= Trim(text)
    ensures ToDateKey(text) == Some(KeyOf(d)) && Spelled(KeyOf(d)) == d
  {
    hide Trim;
    var t := Trim(text);
    assert |KeyOf(d)| == 10;
    assert (if |t| > 10 then t[..10] else t) == KeyOf(d);
  }

  /** Texts that do not begin with a real date make an override that never applies. */
  lemma NeverValid(o: Override, n: int)
    requires ToDateKey(o.validFrom).None? || ToDateKey(o.validUntil).None?
    ensures !ValidOn(o, n)
  {
  }

  // ---- the week days

  /** 1970-01-05 was a Monday; Monday is 0. */
  lemma MondayFirst(n: int)
    ensures MondayBased(4) == 0 && MondayBased(n + 1) == if MondayBased(n) == 6 then 0 else MondayBased(n) + 1
  {
  }

  // ---- what a day lists

  /** The override edits or cancels the template on day `n`. */
  predicate Concerns(o: Override, t: Lesson, n: int) {
    (o.kind == EDITED || o.kind == CANCELLED) && o.baseScheduleId == t.id && ValidOn(o, n)
  }

  /** The `k`-th override is the first that edits or cancels the template on day `n`. */
  predicate DecidedBy(overrides: seq<Override>, k: nat, t: Lesson, n: int) {
    && k < |overrides| && Concerns(overrides[k], t, n)
    && forall j :: 0 <= j < k ==> !Concerns(overrides[j], t, n)
  }

  /** The template as planned when no override concerns it, else as the first such override makes it. */
  ghost predicate ListedAs(e: Entry, t: Lesson, overrides: seq<Override>, n: int)
    requires IsoYear(n)
  {
    && e.date == IsoKey(n) && e.lesson.id == t.id
    && (e.mark == AsPlanned <==> forall k :: 0 <= k < |overrides| ==> !Concerns(overrides[k], t, n))
    && (e.mark == AsPlanned || e.mark == Cancelled ==> e.lesson == t) && (e.mark == AsPlanned ==> e.overrideId == "")
    && forall k: nat :: DecidedBy(overrides, k, t, n) ==>
         && e.overrideId == overrides[k].id
         && e.mark == (if overrides[k].kind == CANCELLED then Cancelled else Edited)
         && (e.mark == Edited ==> e.lesson == Patched(t, overrides[k].patch))
  }

  lemma {:induction false} FirstConcern(overrides: seq<Override>, t: Lesson, n: int)
    ensures var i := FindChange(overrides, t, ValidityOn(n));
      && (i == |overrides| <==> forall k :: 0 <= k < |overrides| ==> !Concerns(overrides[k], t, n))
      && (forall k: nat :: DecidedBy(overrides, k, t, n) <==> k == i && i < |overrides|)
  {
    hide ValidOn;
    var i := FindChange(overrides, t, ValidityOn(n));
    forall o: Override ensures Changes(o, t, ValidityOn(n)) <==> Concerns(o, t, n) { }
    assert forall j :: 0 <= j < i ==> !Concerns(overrides[j], t, n);
    if i < |overrides| { assert Concerns(overrides[i], t, n) && DecidedBy(overrides, i, t, n); }
  }

  lemma EntryIsListed(t: Lesson, overrides: seq<Override>, n: int)
    requires IsoYear(n)
    ensures ListedAs(MergeTemplate(t, overrides, IsoKey(n), ValidityOn(n)), t, overrides, n)
  {
    hide ValidOn, IsoKey, PatchTexts;
    FirstConcern(overrides, t, n);
  }

  /** A temporary class of that week day, or of every day, whose dates include the day. */
  predicate TakesPlace(o: Override, n: int) {
    && o.kind == ADDED_TEMP && ValidOn(o, n)
    && (o.patch.dayOfWeek.None? || o.patch.dayOfWeek.value == MondayBased(n))
  }

  /** The temporary class with the values it gives; its own identity; the day's date. */
  ghost predicate TemporaryAs(e: Entry, o: Override, n: int, clock: Clock)
    requires IsoYear(n)
  {
    && e.mark == Temporary && e.overrideId == o.id && e.lesson.id == o.id && e.date == IsoKey(n)
    && e.lesson.dayOfWeek == Some(MondayBased(n)) && |e.lesson.texts| == 6
    && (forall i :: 0 <= i < 6 && i < |o.patch.texts| && o.patch.texts[i] != "" ==>
          e.lesson.texts[i] == o.patch.texts[i])
    && (o.patch.startTime != "" ==> e.lesson.startTime == o.patch.startTime)
    && (o.patch.endTime != "" ==> e.lesson.endTime == o.patch.endTime)
    && (o.patch.startMinutes.Some? ==> e.lesson.startMinutes == o.patch.startMinutes)
    && (o.patch.endMinutes.Some? ==> e.lesson.endMinutes == o.patch.endMinutes)
  }

  lemma TemporaryIsListed(o: Override, n: int, clock: Clock)
    requires IsoYear(n) && TakesPlace(o, n)
    ensures TemporaryAs(TempEntry(o, IsoKey(n), MondayBased(n), clock), o, n, clock)
  {
    hide ValidOn, IsoKey;
  }

  /** A temporary class that gives only its dates is "Temporary class" from nine to ten, if the clock reads no times. */
  lemma TemporaryDefaults(o: Override, key: string, dow: int, clock: Clock)
    requires GivesNothing(o.patch) && clock("").None?
    ensures var l := TempEntry(o, key, dow, clock).lesson;
      && l.texts == ["Temporary class", "", "", "", "CLASS", "#f59e0b"]
      && l.startTime == "09:00" && l.startMinutes == Some(9 * 60)
      && l.endTime == "10:00" && l.endMinutes == Some(10 * 60)
      && l.dayOfWeek == Some(dow)
  {
  }

  /** Without minutes of its own, a temporary class has those that the clock reads off its times. */
  lemma TemporaryMinutes(o: Override, key: string, dow: int, clock: Clock)
    ensures var l, p := TempEntry(o, key, dow, clock).lesson, o.patch;
      && (p.startMinutes.None? && clock(p.startTime).Some? ==> l.startMinutes == clock(p.startTime))
      && (p.endMinutes.None? && clock(p.endTime).Some? ==> l.endMinutes == clock(p.endTime))
  {
  }

  /** The entry is that of one of the templates of the week day. */
  ghost predicate FromATemplate(e: Entry, templates: seq<Lesson>, overrides: seq<Override>, n: int)
    requires IsoYear(n)
  {
    exists t :: t in templates && t.dayOfWeek == Some(MondayBased(n)) && ListedAs(e, t, overrides, n)
  }

  ghost predicate HasTemplate(out: seq<Entry>, t: Lesson, overrides: seq<Override>, n: int)
    requires IsoYear(n)
  {
    exists e :: e in out && ListedAs(e, t, overrides, n)
  }

  /** The entry is that of one of the temporary classes that take place. */
  ghost predicate FromATemporary(e: Entry, overrides: seq<Override>, n: int, clock: Clock)
    requires IsoYear(n)
  {
    exists o :: o in overrides && TakesPlace(o, n) && TemporaryAs(e, o, n, clock)
  }

  ghost predicate HasTemporary(out: seq<Entry>, o: Override, n: int, clock: Clock)
    requires IsoYear(n)
  {
    exists e :: e in out && TemporaryAs(e, o, n, clock)
  }

  lemma {:induction false} TemplatesListed(templates: seq<Lesson>, overrides: seq<Override>, n: int)
    requires IsoYear(n)
    ensures var out := FromTemplates(templates, overrides, IsoKey(n), MondayBased(n), ValidityOn(n));
      && (forall e :: e in out ==> FromATemplate(e, templates, overrides, n))
      && (forall t :: t in templates && t.dayOfWeek == Some(MondayBased(n)) ==> HasTemplate(out, t, overrides, n))
  {
    hide ListedAs, MergeTemplate, IsoKey, MondayBased, FromATemplate, HasTemplate, FromTemplates;
    TemplatesNone(overrides, n);
    if templates != [] {
      var front, t := templates[..|templates| - 1], templates[|templates| - 1];
      assert templates == front + [t];
      TemplatesListed(front, overrides, n);
      EntryIsListed(t, overrides, n);
      var out := FromTemplates(front, overrides, IsoKey(n), MondayBased(n), ValidityOn(n));
      var e := MergeTemplate(t, overrides, IsoKey(n), ValidityOn(n));
      TemplateAdded(front, t, overrides, n, out, e);
      TemplatesSnoc(front, t, overrides, n);
      forall x | x in out ensures FromATemplate(x, templates, overrides, n) {
        assert FromATemplate(x, front, overrides, n);
      }
      var full := FromTemplates(templates, overrides, IsoKey(n), MondayBased(n), ValidityOn(n));
      assert full == out + (if t.dayOfWeek == Some(MondayBased(n)) then [e] else []);
      forall u | u in templates && u.dayOfWeek == Some(MondayBased(n)) ensures HasTemplate(full, u, overrides, n) {
        if u in front { assert HasTemplate(out, u, overrides, n); }
        assert full == out || full == out + [e];
      }
    } else {
      assert templates == [];
    }
  }

  lemma TemplatesSnoc(front: seq<Lesson>, t: Lesson, overrides: seq<Override>, n: int)
    requires IsoYear(n)
    ensures FromTemplates(front + [t], overrides, IsoKey(n), MondayBased(n), ValidityOn(n))
         == FromTemplates(front, overrides, IsoKey(n), MondayBased(n), ValidityOn(n))
          + (if t.dayOfWeek == Some(MondayBased(n))
             then [MergeTemplate(t, overrides, IsoKey(n), ValidityOn(n))] else [])
  {
    hide MergeTemplate, IsoKey, MondayBased;
    assert (front + [t])[..|front|] == front;
  }

  lemma TemplateAdded(front: seq<Lesson>, t: Lesson, overrides: seq<Override>, n: int, out: seq<Entry>, e: Entry)
    requires IsoYear(n) && ListedAs(e, t, overrides, n)
    ensures t.dayOfWeek == Some(MondayBased(n)) ==>
      FromATemplate(e, front + [t], overrides, n) && HasTemplate(out + [e], t, overrides, n)
    ensures forall x :: FromATemplate(x, front, overrides, n) ==> FromATemplate(x, front + [t], overrides, n)
    ensures forall u :: HasTemplate(out, u, overrides, n) ==> HasTemplate(out + [e], u, overrides, n)
  {
    hide ListedAs, IsoYear, MondayBased;
    assert t in front + [t] && e in out + [e];
    assert forall u :: u in front ==> u in front + [t];
    assert forall x :: x in out ==> x in out + [e];
  }

  lemma {:induction false} TemporariesListed(overrides: seq<Override>, n: int, clock: Clock)
    requires IsoYear(n)
    ensures var out := FromTemps(overrides, IsoKey(n), MondayBased(n), ValidityOn(n), clock);
      && (forall e :: e in out ==> FromATemporary(e, overrides, n, clock))
      && (forall o :: o in overrides && TakesPlace(o, n) ==> HasTemporary(out, o, n, clock))
  {
    hide TemporaryAs, TempEntry, IsoKey, MondayBased, ValidOn, FromATemporary, HasTemporary, FromTemps, TakesPlace;
    TempsNone(n, clock);
    if overrides != [] {
      var front, o := overrides[..|overrides| - 1], overrides[|overrides| - 1];
      assert overrides == front + [o];
      TemporariesListed(front, n, clock);
      var out := FromTemps(front, IsoKey(n), MondayBased(n), ValidityOn(n), clock);
      TemporaryAdded(front, o, n, clock, out);
      TempsSnoc(front, o, n, clock);
      var e, full := TempEntry(o, IsoKey(n), MondayBased(n), clock),
        FromTemps(overrides, IsoKey(n), MondayBased(n), ValidityOn(n), clock);
      assert full == out + (if TakesPlace(o, n) then [e] else []);
      forall x | x in out ensures FromATemporary(x, overrides, n, clock) { assert FromATemporary(x, front, n, clock); }
      forall p | p in overrides && TakesPlace(p, n) ensures HasTemporary(full, p, n, clock) {
        if p in front { assert HasTemporary(out, p, n, clock); }
        assert full == out || full == out + [e];
      }
    } else {
      assert overrides == [];
    }
  }

  lemma TemplatesNone(overrides: seq<Override>, n: int)
    requires IsoYear(n)
    ensures FromTemplates([], overrides, IsoKey(n), MondayBased(n), ValidityOn(n)) == []
  {
  }

  lemma TempsNone(n: int, clock: Clock)
    requires IsoYear(n)
    ensures FromTemps([], IsoKey(n), MondayBased(n), ValidityOn(n), clock) == []
  {
  }

  lemma TempsSnoc(front: seq<Override>, o: Override, n: int, clock: Clock)
    requires IsoYear(n)
    ensures FromTemps(front + [o], IsoKey(n), MondayBased(n), ValidityOn(n), clock)
         == FromTemps(front, IsoKey(n), MondayBased(n), ValidityOn(n), clock)
          + (if TakesPlace(o, n) then [TempEntry(o, IsoKey(n), MondayBased(n), clock)] else [])
  {
    hide TempEntry, IsoKey, MondayBased, ValidOn;
    OccursIff(o, n);
    assert (front + [o])[..|front|] == front;
  }

  lemma OccursIff(o: Override, n: int)
    ensures Occurs(o, MondayBased(n), ValidityOn(n)) <==> TakesPlace(o, n)
  {
    hide ValidOn, MondayBased;
  }

  lemma TemporaryAdded(front: seq<Override>, o: Override, n: int, clock: Clock, out: seq<Entry>)
    requires IsoYear(n)
    ensures var e := TempEntry(o, IsoKey(n), MondayBased(n), clock);
      && (TakesPlace(o, n) ==> FromATemporary(e, front + [o], n, clock) && HasTemporary(out + [e], o, n, clock))
      && (forall x :: FromATemporary(x, front, n, clock) ==> FromATemporary(x, front + [o], n, clock))
      && (forall p :: HasTemporary(out, p, n, clock) ==> HasTemporary(out + [e], p, n, clock))
  {
    hide TemporaryAs, TakesPlace, IsoYear, IsoKey, MondayBased, TempEntry;
    var e := TempEntry(o, IsoKey(n), MondayBased(n), clock);
    if TakesPlace(o, n) { TemporaryIsListed(o, n, clock); }
    assert o in front + [o] && e in out + [e];
    assert forall u :: u in front ==> u in front + [o];
    assert forall x :: x in out ==> x in out + [e];
  }

  /**
   The timetable of a day lists every template of its week day, planned, edited or cancelled as the
   first override for it says, every temporary class that takes place, and nothing else.
   */
  lemma DayLists(templates: seq<Lesson>, overrides: seq<Override>, clock: Clock, collate: Collation, n: int)
    requires IsoYear(n)
    ensures var out := DayMerge(templates, overrides, clock, collate, n);
      && (forall e :: e in out ==> FromATemplate(e, templates, overrides, n) || FromATemporary(e, overrides, n, clock))
      && (forall t :: t in templates && t.dayOfWeek == Some(MondayBased(n)) ==> HasTemplate(out, t, overrides, n))
      && (forall o :: o in overrides && TakesPlace(o, n) ==> HasTemporary(out, o, n, clock))
  {
    hide ListedAs, TemporaryAs, TakesPlace, IsoKey, MondayBased, FromTemplates, FromTemps, FromATemplate,
        FromATemporary, SortEntries;
    TemplatesListed(templates, overrides, n);
    TemporariesListed(overrides, n, clock);
    var planned := FromTemplates(templates, overrides, IsoKey(n), MondayBased(n), ValidityOn(n));
    var temporary := FromTemps(overrides, IsoKey(n), MondayBased(n), ValidityOn(n), clock);
    SortedHas(planned + temporary, clock, collate);
    assert forall e :: e in planned + temporary <==> e in planned || e in temporary;
  }

  /** The minute a class starts at: as given, else as the clock reads its time, else 0. */
  predicate StartsAt(e: Entry, minute: int, clock: Clock) {
    match e.lesson.startMinutes
    case Some(m) => minute == m
    case None =>
      match clock(e.lesson.startTime)
      case Some(m) => minute == m
      case None => minute == 0
  }

  /** The timetable of a day is in the order of the starting minutes. */
  lemma DayByStart(templates: seq<Lesson>, overrides: seq<Override>, clock: Clock, collate: Collation, n: int,
                   i: nat, j: nat, s: int, t: int)
    requires IsoYear(n) && TotalPreorder(collate) && i < j < |DayMerge(templates, overrides, clock, collate, n)|
    requires var out := DayMerge(templates, overrides, clock, collate, n);
      StartsAt(out[i], s, clock) && StartsAt(out[j], t, clock)
    ensures s <= t
  {
    hide IsoKey, MondayBased, FromTemplates, FromTemps;
    DayInOrder(templates, overrides, IsoKey(n), MondayBased(n), ValidityOn(n), clock, collate);
  }

  lemma SortedHas(entries: seq<Entry>, clock: Clock, collate: Collation)
    ensures forall e :: e in SortEntries(entries, clock, collate) <==> e in entries
  {
    hide Earlier;
    var out := SortEntries(entries, clock, collate);
    SortKeeps(entries, (a: Entry, b: Entry) => Earlier(a, b, clock, collate));
    assert multiset(out) == multiset(entries);
    forall e ensures e in out <==> e in entries {
      assert e in multiset(out) <==> e in multiset(entries);
    }
  }

  // ---- ranges of dates

  /** A range that is malformed, reversed, or of more than 63 days lists nothing. */
  lemma NoRange(fromKey: string, toKey: string, day: DayEntries)
    ensures DayOfKey(fromKey).None? || DayOfKey(toKey).None? ==> MergedRange(fromKey, toKey, day) == []
    ensures DayOfKey(fromKey).Some? && StringLess(toKey, fromKey) ==> MergedRange(fromKey, toKey, day) == []
    ensures DayOfKey(fromKey).Some? && DayOfKey(toKey).Some? && DayOfKey(toKey).value >= DayOfKey(fromKey).value + 63
      ==> MergedRange(fromKey, toKey, day) == []
  {
    hide StringLess, KeyShaped, Spelled, DayOf, RealDate, ConcatDays;
    if DayOfKey(fromKey).Some? && DayOfKey(toKey).Some? { KeysOrderedAsDays(toKey, fromKey); }
  }

  /** Every entry stands under the date of its day. */
  lemma DayDates(templates: seq<Lesson>, overrides: seq<Override>, clock: Clock, collate: Collation, n: int)
    requires IsoYear(n)
    ensures forall e :: e in DayMerge(templates, overrides, clock, collate, n) ==> e.date == IsoKey(n)
  {
    hide DayMerge, IsoKey;
    DayLists(templates, overrides, clock, collate, n);
  }

  /** The date is that of one of the days. */
  ghost predicate DateWithin(date: string, start: int, days: nat)
    requires forall n :: start <= n < start + days ==> IsoYear(n)
  {
    exists n :: start <= n < start + days && date == IsoKey(n)
  }

  /** The entries are those of days from `start` on, in the order of the days. */
  ghost predicate ByDate(out: seq<Entry>, start: int, days: nat)
    requires forall n :: start <= n < start + days ==> IsoYear(n)
  {
    && (forall i :: 0 <= i < |out| ==> DateWithin(out[i].date, start, days))
    && (forall i, j :: 0 <= i < j < |out| ==> !StringLess(out[j].date, out[i].date))
  }

  lemma KeysDoNotFall(m: int, n: int)
    requires IsoYear(m) && IsoYear(n) && m <= n
    ensures !StringLess(IsoKey(n), IsoKey(m))
  {
    hide StringLess, KeyShaped, Spelled, DayOf, RealDate;
    IsoKeyParses(m);
    IsoKeyParses(n);
    KeysOrderedAsDays(IsoKey(n), IsoKey(m));
  }

  lemma LastDate(date: string, start: int, days: nat)
    requires forall n :: start <= n < start + days + 1 ==> IsoYear(n)
    ensures DateWithin(date, start, days) || date == IsoKey(start + days) ==> DateWithin(date, start, days + 1)
    ensures DateWithin(date, start, days + 1) ==> !StringLess(IsoKey(start + days), date)
  {
    hide IsoYear, IsoKey, StringLess;
    if DateWithin(date, start, days) {
      var n :| start <= n < start + days && date == IsoKey(n);
    }
    if DateWithin(date, start, days + 1) {
      var n :| start <= n < start + (days + 1) && date == IsoKey(n);
      KeysDoNotFall(n, start + days);
    }
  }

  lemma OneDayMore(out: seq<Entry>, today: seq<Entry>, start: int, days: nat)
    requires forall n :: start <= n < start + days + 1 ==> IsoYear(n)
    requires ByDate(out, start, days) && forall e :: e in today ==> e.date == IsoKey(start + days)
    ensures ByDate(out + today, start, days + 1)
  {
    hide IsoYear, IsoKey, StringLess, DateWithin;
    var all := out + today;
    forall i | 0 <= i < |all| ensures DateWithin(all[i].date, start, days + 1) {
      LastDate(all[i].date, start, days);
      assert i >= |out| ==> all[i] in today;
    }
    forall i, j | 0 <= i < j < |all| ensures !StringLess(all[j].date, all[i].date) {
      LastDate(all[i].date, start, days);
      assert j >= |out| ==> all[j] in today;
    }
  }

  /** Days whose entries stand under their own dates, one after the other, are in the order of the dates. */
  lemma {:induction false} DaysByDate(day: DayEntries, start: int, days: nat)
    requires forall n :: start <= n < start + days ==> IsoYear(n)
    requires forall n :: start <= n < start + days ==> forall e :: e in day(n) ==> e.date == IsoKey(n)
    ensures ByDate(ConcatDays(start, days, day), start, days)
  {
    hide IsoYear, ByDate, IsoKey;
    if days == 0 {
      NothingByDate(start);
    } else {
      DaysByDate(day, start, days - 1);
      OneDayMore(ConcatDays(start, days - 1, day), day(start + days - 1), start, days - 1);
    }
  }

  lemma NothingByDate(start: int)
    ensures ByDate([], start, 0)
  {
  }

  lemma DailyIs(templates: seq<Lesson>, overrides: seq<Override>, clock: Clock, collate: Collation, n: int)
    requires IsoYear(n)
    ensures DailyMerge(templates, overrides, clock, collate)(n) == DayMerge(templates, overrides, clock, collate, n)
  {
    hide DayMerge, IsoYear;
  }

  /** The timetable of a range is in the order of its dates, each day under its own. */
  lemma RangeByDate(templates: seq<Lesson>, overrides: seq<Override>, clock: Clock, collate: Collation,
                    fromKey: string, toKey: string)
    requires DayOfKey(fromKey).Some? && DayOfKey(toKey).Some?
    requires DayOfKey(fromKey).value <= DayOfKey(toKey).value <= DayOfKey(fromKey).value + 62
    ensures var from, until := DayOfKey(fromKey).value, DayOfKey(toKey).value;
      && (forall n :: from <= n < from + (until - from + 1) ==> IsoYear(n))
      && ByDate(MergedRange(fromKey, toKey, DailyMerge(templates, overrides, clock, collate)), from, until - from + 1)
  {
    hide IsoYear, ByDate, ConcatDays, DayOfKey, DailyMerge, DayMerge, IsoKey;
    RangeYears(fromKey, toKey);
    var from, until := DayOfKey(fromKey).value, DayOfKey(toKey).value;
    var daily := DailyMerge(templates, overrides, clock, collate);
    forall n | from <= n <= until ensures forall e :: e in daily(n) ==> e.date == IsoKey(n) {
      DailyIs(templates, overrides, clock, collate, n);
      DayDates(templates, overrides, clock, collate, n);
    }
    DaysByDate(daily, from, until - from + 1);
  }
}
