/**
 Day keys: printing a UTC day as `YYYY-MM-DD` and parsing it back
 (apps/web/src/lib/codingStreak.ts:44-69), section 5.6 of RFC 3339.
 */
module DayKeys {
  import opened Options
  import opened JsText
  import opened Calendar

  /** `pad2`: one-digit numbers get a leading zero. */
  function Pad2(n: nat): string {
    if n < 10 then "0" + Decimal(n) else Decimal(n)
  }

  /** `toUtcDayKey`: the year is printed without padding. */
  function UtcKey(n: int): string {
    var d := DateOf(n);
    (if d.year < 0 then "-" + Decimal(-d.year) else Decimal(d.year)) + "-" + Pad2(d.month) + "-" + Pad2(d.day)
  }

  predicate AllDigits(s: string) { forall i :: 0 <= i < |s| ==> IsDigit(s[i]) }

  /** The shape that the key pattern accepts: four, two and two digits. */
  predicate KeyShaped(key: string) {
    |key| == 10 && AllDigits(key[..4]) && key[4] == '-' && AllDigits(key[5..7]) && key[7] == '-' && AllDigits(key[8..])
  }

  /** The number two digits spell. */
  function TwoDigitValue(a: char, b: char): (r: int)
    requires IsDigit(a) && IsDigit(b)
    ensures 0 <= r < 100
  {
    10 * DigitValue(a) + DigitValue(b)
  }

  /** The date a key spells, real or not. */
  function Spelled(key: string): (d: Date)
    requires KeyShaped(key)
    ensures 0 <= d.year < 10000 && 0 <= d.month < 100 && 0 <= d.day < 100
  {
    assert IsDigit(key[..4][0]) && IsDigit(key[..4][1]) && IsDigit(key[..4][2]) && IsDigit(key[..4][3]);
    assert IsDigit(key[5..7][0]) && IsDigit(key[5..7][1]) && IsDigit(key[8..][0]) && IsDigit(key[8..][1]);
    Date(100 * TwoDigitValue(key[0], key[1]) + TwoDigitValue(key[2], key[3]),
         TwoDigitValue(key[5], key[6]), TwoDigitValue(key[8], key[9]))
  }

  /** `dayKeyToMs`, in days; `None` is NaN. `Date.UTC` reads years 0 to 99 as 1900 to 1999. */
  function ParseKey(key: string): Option<int> {
    if !KeyShaped(key) then None
    else
      var d := Spelled(key);
      Some(DayOf(if d.year < 100 then d.(year := 1900 + d.year) else d))
  }

  /** A key of a real date in the years 1000 to 9999. */
  predicate RealKey(key: string) {
    KeyShaped(key) && Spelled(key).year >= 1000 && RealDate(Spelled(key))
  }

  /** Days whose year prints with four digits. */
  predicate FourDigitYear(n: int) { 1000 <= DateOf(n).year <= 9999 }

  // ---- printing real dates

  function TwoDigits(n: nat): (r: string)
    requires n < 100
    ensures |r| == 2 && IsDigit(r[0]) && IsDigit(r[1]) && TwoDigitValue(r[0], r[1]) == n
  {
    [Digit(n / 10), Digit(n % 10)]
  }

  lemma Pad2IsTwoDigits(n: nat)
    requires n < 100
    ensures Pad2(n) == TwoDigits(n)
  {
    if n >= 10 { assert Decimal(n / 10) == [Digit(n / 10)]; }
  }

  lemma DecimalOfFour(y: nat)
    requires 1000 <= y <= 9999
    ensures Decimal(y) == TwoDigits(y / 100) + TwoDigits(y % 100)
  {
    var a, b, c, d := y / 1000, y / 100 % 10, y / 10 % 10, y % 10;
    assert y / 10 / 10 == y / 100 && y / 10 / 10 / 10 == a;
    assert Decimal(a) == [Digit(a)];
    assert Decimal(y / 10 / 10) == [Digit(a)] + [Digit(b)];
    assert Decimal(y / 10) == [Digit(a)] + [Digit(b)] + [Digit(c)];
    assert Decimal(y) == [Digit(a)] + [Digit(b)] + [Digit(c)] + [Digit(d)];
    assert y / 100 / 10 == a && y / 100 % 10 == b && y % 100 / 10 == c && y % 100 % 10 == d;
  }

  /** The key of a date, by its digits. */
  function KeyOf(d: Date): (r: string)
    requires 0 <= d.year < 10000 && 0 <= d.month < 100 && 0 <= d.day < 100
    ensures KeyShaped(r) && Spelled(r) == d
  {
    TwoDigits(d.year / 100) + TwoDigits(d.year % 100) + "-" + TwoDigits(d.month) + "-" + TwoDigits(d.day)
  }

  lemma UtcKeyByDigits(n: int)
    requires FourDigitYear(n)
    ensures UtcKey(n) == KeyOf(DateOf(n))
  {
    hide DateOf, Decimal, Pad2, TwoDigits, RealDate;
    var d := DateOf(n);
    RealFields(d);
    DecimalOfFour(d.year);
    Pad2IsTwoDigits(d.month);
    Pad2IsTwoDigits(d.day);
  }

  lemma RealFields(d: Date)
    requires RealDate(d)
    ensures 1 <= d.month <= 12 && 1 <= d.day <= 31
  {
  }

  lemma DigitsOfValue(a: char, b: char)
    requires IsDigit(a) && IsDigit(b)
    ensures TwoDigits(TwoDigitValue(a, b)) == [a, b]
  {
  }

  lemma SpellingDetermines(key: string)
    requires KeyShaped(key)
    ensures key == KeyOf(Spelled(key))
  {
    hide TwoDigits, TwoDigitValue;
    DigitsAt(key);
    DigitsOfValue(key[0], key[1]);
    DigitsOfValue(key[2], key[3]);
    DigitsOfValue(key[5], key[6]);
    DigitsOfValue(key[8], key[9]);
    var d, high, low := Spelled(key), TwoDigitValue(key[0], key[1]), TwoDigitValue(key[2], key[3]);
    assert d.year / 100 == high && d.year % 100 == low by { HundredsApart(high, low); }
    PairsMakeKey(key);
  }

  lemma HundredsApart(high: nat, low: nat)
    requires low < 100
    ensures (100 * high + low) / 100 == high && (100 * high + low) % 100 == low
  {
  }

  lemma DigitsAt(key: string)
    requires KeyShaped(key)
    ensures forall i :: 0 <= i < 10 && i != 4 && i != 7 ==> IsDigit(key[i])
  {
    assert forall i :: 0 <= i < 4 ==> key[i] == key[..4][i];
    assert forall i :: 5 <= i < 7 ==> key[i] == key[5..7][i - 5];
    assert forall i :: 8 <= i < 10 ==> key[i] == key[8..][i - 8];
  }

  lemma PairsMakeKey(key: string)
    requires KeyShaped(key)
    ensures key == [key[0], key[1]] + [key[2], key[3]] + "-" + [key[5], key[6]] + "-" + [key[8], key[9]]
  {
  }

  // ---- the round trips

  /** Parsing the printed key gives the day back, for every day with a four-digit year. */
  lemma PrintThenParse(n: int)
    requires FourDigitYear(n)
    ensures ParseKey(UtcKey(n)) == Some(n)
    ensures RealKey(UtcKey(n))
  {
    UtcKeyByDigits(n);
    DayRoundTrip(n);
  }

  /** A key counts from the day it spells; the years 0000 to 0099 stand for 1900 to 1999. */
  lemma ParsedIs(d: Date)
    requires 0 <= d.year < 10000 && 0 <= d.month < 100 && 0 <= d.day < 100
    ensures d.year >= 100 ==> ParseKey(KeyOf(d)) == Some(DayOf(d))
    ensures d.year <= 99 ==> ParseKey(KeyOf(d)) == Some(DayOf(Date(1900 + d.year, d.month, d.day)))
  {
    hide DayOf, TwoDigits;
  }

  /** Day 0 prints as the first of January 1970, and that key parses to day 0. */
  lemma EpochKey()
    ensures UtcKey(0) == "1970-01-01" && ParseKey("1970-01-01") == Some(0)
  {
    hide UtcKey, ParseKey, DateOf, KeyOf, RealDate, DayOf;
    Epoch();
    UtcKeyByDigits(0);
    EpochDigits();
    PrintThenParse(0);
  }

  lemma EpochDigits()
    ensures KeyOf(Date(1970, 1, 1)) == "1970-01-01"
  {
    assert TwoDigits(19) == "19" && TwoDigits(70) == "70" && TwoDigits(1) == "01";
  }

  /** `dayKeyToMs(todayKey(today))`, in days. */
  method ParsedToday(today: int) returns (day: int)
    requires FourDigitYear(today)
    ensures day == today
  {
    PrintThenParse(today);
    day := ParseKey(UtcKey(today)).value;
  }

  /** Printing the parsed day gives the key back exactly for the keys of real dates from year 1000 on. */
  lemma ParseThenPrint(key: string)
    requires KeyShaped(key)
    ensures ParseKey(key).Some? && (UtcKey(ParseKey(key).value) == key <==> RealKey(key))
  {
    var n := ParseKey(key).value;
    var d := Spelled(key);
    if RealKey(key) {
      DateRoundTrip(d);
      UtcKeyByDigits(n);
      SpellingDetermines(key);
    } else if UtcKey(n) == key {
      PrintedYear(n, key);
      PrintThenParse(n);
      assert false;
    }
  }

  /** The 31st of February is parsed as another day, and a year before 1000 is printed shorter. */
  lemma KeysThatChange()
    ensures var key := "2024-02-31"; KeyShaped(key) && UtcKey(ParseKey(key).value) != key
    ensures var key := "0999-01-01"; KeyShaped(key) && UtcKey(ParseKey(key).value) != key
  {
    NoSuchDay("2024-02-31");
    EarlyYear("0999-01-01");
    ParseThenPrint("2024-02-31");
    ParseThenPrint("0999-01-01");
  }

  lemma NoSuchDay(key: string)
    requires key == "2024-02-31"
    ensures KeyShaped(key) && !RealKey(key)
  {
    assert Spelled(key).month == 2 && Spelled(key).day == 31;
  }

  lemma EarlyYear(key: string)
    requires key == "0999-01-01"
    ensures KeyShaped(key) && !RealKey(key)
  {
    assert Spelled(key).year == 999;
  }

  /** A printed key of the key shape has a four-digit year. */
  lemma PrintedYear(n: int, key: string)
    requires UtcKey(n) == key && KeyShaped(key)
    ensures FourDigitYear(n)
  {
    hide DateOf, Pad2, TwoDigits, RealDate;
    var d := DateOf(n);
    RealFields(d);
    Pad2IsTwoDigits(d.month);
    Pad2IsTwoDigits(d.day);
    var y := if d.year < 0 then "-" + Decimal(-d.year) else Decimal(d.year);
    assert |key| == |y| + 6;
    assert key[..4][0] == y[0];
    DecimalLength(if d.year < 0 then -d.year else d.year);
  }

  lemma DecimalLength(y: nat)
    ensures |Decimal(y)| == 4 <==> 1000 <= y <= 9999
  {
    if y < 10 {
    } else if y < 100 {
      assert |Decimal(y / 10)| == 1;
    } else if y < 1000 {
      assert |Decimal(y / 10 / 10)| == 1;
      assert |Decimal(y / 10)| == 2;
    } else if y < 10000 {
      DecimalOfFour(y);
    } else {
      assert |Decimal(y / 10 / 10 / 10 / 10)| >= 1;
      assert |Decimal(y / 10 / 10 / 10)| >= 2;
      assert |Decimal(y / 10 / 10)| >= 3;
      assert |Decimal(y / 10)| >= 4;
    }
  }

  // ---- string order is time order

  lemma TwoDigitsOrder(m: nat, n: nat, a: string, b: string)
    requires m < 100 && n < 100
    ensures m != n ==> (StringLess(TwoDigits(m) + a, TwoDigits(n) + b) <==> m < n)
    ensures m == n ==> (StringLess(TwoDigits(m) + a, TwoDigits(n) + b) <==> StringLess(a, b))
  {
    var s, t := TwoDigits(m), TwoDigits(n);
    if m == n {
      StringLessSamePrefix(s, a, b);
    } else {
      assert TwoDigitValue(s[0], s[1]) != TwoDigitValue(t[0], t[1]);
      StringLessByPrefix(s, t, a, b);
      assert StringLess(s, t) <==> s[0] < t[0] || (s[0] == t[0] && StringLess(s[1..], t[1..]));
      assert StringLess(s[1..], t[1..]) <==> s[1] < t[1];
    }
  }

  /** `MM-DD`. */
  function MonthDay(month: nat, day: nat): string
    requires month < 100 && day < 100
  {
    TwoDigits(month) + ("-" + TwoDigits(day))
  }

  lemma MonthDayOrder(m: nat, d: nat, n: nat, e: nat)
    requires m < 100 && d < 100 && n < 100 && e < 100
    ensures StringLess(MonthDay(m, d), MonthDay(n, e)) <==> m < n || (m == n && d < e)
  {
    TwoDigitsOrder(d, e, "", "");
    assert TwoDigits(d) + "" == TwoDigits(d) && TwoDigits(e) + "" == TwoDigits(e);
    StringLessSamePrefix("-", TwoDigits(d), TwoDigits(e));
    TwoDigitsOrder(m, n, "-" + TwoDigits(d), "-" + TwoDigits(e));
  }

  function FourDigits(y: nat): string
    requires y < 10000
  {
    TwoDigits(y / 100) + TwoDigits(y % 100)
  }

  lemma YearOrder(y: nat, z: nat, a: string, b: string)
    requires y < 10000 && z < 10000
    ensures var s, t := FourDigits(y) + a, FourDigits(z) + b;
      (y != z ==> (StringLess(s, t) <==> y < z)) && (y == z ==> (StringLess(s, t) <==> StringLess(a, b)))
  {
    TwoDigitsOrder(y % 100, z % 100, a, b);
    TwoDigitsOrder(y / 100, z / 100, TwoDigits(y % 100) + a, TwoDigits(z % 100) + b);
    Assoc(TwoDigits(y / 100), TwoDigits(y % 100), a);
    Assoc(TwoDigits(z / 100), TwoDigits(z % 100), b);
  }

  lemma KeyOrder(d: Date, e: Date)
    requires 0 <= d.year < 10000 && 0 <= d.month < 100 && 0 <= d.day < 100
    requires 0 <= e.year < 10000 && 0 <= e.month < 100 && 0 <= e.day < 100
    ensures StringLess(KeyOf(d), KeyOf(e)) <==> DateLess(d, e)
  {
    hide TwoDigits, StringLess;
    var a, b := MonthDay(d.month, d.day), MonthDay(e.month, e.day);
    MonthDayOrder(d.month, d.day, e.month, e.day);
    StringLessSamePrefix("-", a, b);
    YearOrder(d.year, e.year, "-" + a, "-" + b);
    assert KeyOf(d) == FourDigits(d.year) + ("-" + a);
    assert KeyOf(e) == FourDigits(e.year) + ("-" + b);
  }

  /** Comparing two keys as strings compares the days (section 5.1 of RFC 3339). */
  lemma StringOrderIsTimeOrder(m: int, n: int)
    requires FourDigitYear(m) && FourDigitYear(n)
    ensures StringLess(UtcKey(m), UtcKey(n)) <==> m < n
    ensures UtcKey(m) == UtcKey(n) <==> m == n
  {
    UtcKeyByDigits(m);
    UtcKeyByDigits(n);
    KeyOrder(DateOf(m), DateOf(n));
    DateOrder(DateOf(m), DateOf(n));
    DayRoundTrip(m);
    DayRoundTrip(n);
  }

  // ---- different days have different keys, in any year

  function YearText(y: int): string { if y < 0 then "-" + Decimal(-y) else Decimal(y) }

  lemma YearTextInjective(y: int, z: int)
    requires YearText(y) == YearText(z)
    ensures y == z
  {
    assert y >= 0 ==> Decimal(y)[0] in Decimal(y);
    assert z >= 0 ==> Decimal(z)[0] in Decimal(z);
    if y < 0 && z < 0 {
      assert YearText(y)[1..] == Decimal(-y) && YearText(z)[1..] == Decimal(-z);
      DecimalInjective(-y, -z);
    } else if y >= 0 && z >= 0 {
      DecimalInjective(y, z);
    }
  }

  lemma KeyByParts(n: int)
    ensures var d := DateOf(n);
      && 1 <= d.month < 100 && 1 <= d.day < 100
      && UtcKey(n) == YearText(d.year) + ("-" + MonthDay(d.month, d.day))
  {
    hide DateOf, Pad2, TwoDigits, RealDate;
    var d := DateOf(n);
    RealFields(d);
    Pad2IsTwoDigits(d.month);
    Pad2IsTwoDigits(d.day);
  }

  lemma MonthDayInjective(m: nat, d: nat, n: nat, e: nat)
    requires m < 100 && d < 100 && n < 100 && e < 100 && MonthDay(m, d) == MonthDay(n, e)
    ensures m == n && d == e
  {
    hide TwoDigits;
    var s := MonthDay(m, d);
    assert s[..2] == TwoDigits(m) && s[..2] == TwoDigits(n) && s[3..] == TwoDigits(d) && s[3..] == TwoDigits(e);
  }

  lemma SplitAtTail(a: string, b: string, x: string, y: string)
    requires |x| == |y| && a + x == b + y
    ensures a == b && x == y
  {
    var s := a + x;
    assert s == b + y && |a| == |b|;
    assert a == s[..|a|] == b && x == s[|a|..] == y;
  }

  lemma UtcKeyInjective(m: int, n: int)
    requires UtcKey(m) == UtcKey(n)
    ensures m == n
  {
    hide UtcKey, DateOf, YearText, MonthDay, DayOf;
    var d, e := DateOf(m), DateOf(n);
    KeyByParts(m);
    KeyByParts(n);
    var x, y := MonthDay(d.month, d.day), MonthDay(e.month, e.day);
    MonthDayLength(d.month, d.day);
    MonthDayLength(e.month, e.day);
    SplitAtTail(YearText(d.year), YearText(e.year), "-" + x, "-" + y);
    YearTextInjective(d.year, e.year);
    assert x == ("-" + x)[1..] == ("-" + y)[1..] == y;
    MonthDayInjective(d.month, d.day, e.month, e.day);
    DayRoundTrip(m);
    DayRoundTrip(n);
  }

  lemma MonthDayLength(m: nat, d: nat)
    requires m < 100 && d < 100
    ensures |MonthDay(m, d)| == 5
  {
  }
}
