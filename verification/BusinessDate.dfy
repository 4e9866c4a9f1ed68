/** Business-day keys over the Gregorian day arithmetic of section 21.4.1 of ECMA-262, for a time zone with a fixed
    offset. Times are milliseconds since the epoch. */
module BusinessDate {
  import opened Options

  const MS_PER_DAY := 86_400_000
  /** The largest time value a Date holds. */
  const MAX_TIME := 8_640_000_000_000_000

  // ---- Day numbers -----------------------------------------------------------------------------------

  predicate Leap(y: int) { y % 4 == 0 && (y % 100 != 0 || y % 400 == 0) }

  function DayFromYear(y: int): int {
    365 * (y - 1970) + (y - 1969) / 4 - (y - 1901) / 100 + (y - 1601) / 400
  }

  function YearLength(y: int): int { if Leap(y) then 366 else 365 }

  /** Days of the year before a month counted from 0. */
  function MonthStart(leap: bool, month: int): int {
    var extra := if leap && month >= 2 then 1 else 0;
    extra + (if month <= 0 then 0 else if month == 1 then 31 else if month == 2 then 59 else if month == 3 then 90
             else if month == 4 then 120 else if month == 5 then 151 else if month == 6 then 181
               else if month == 7 then 212
             else if month == 8 then 243 else if month == 9 then 273 else if month == 10 then 304
               else if month == 11 then 334
             else 365)
  }

  /** MakeDay: month and date may lie outside their usual ranges and roll over. */
  function MakeDay(year: int, month: int, date: int): int {
    var y := year + month / 12;
    DayFromYear(y) + MonthStart(Leap(y), month % 12) + date - 1
  }

  /** The year from a lower bound upwards whose days include this one. */
  function YearFrom(day: int, y: int): (r: int)
    requires DayFromYear(y) <= day
    ensures DayFromYear(r) <= day < DayFromYear(r + 1)
    decreases day - DayFromYear(y)
  {
    YearLengths(y);
    if day < DayFromYear(y + 1) then y else YearFrom(day, y + 1)
  }

  lemma Fours(y: int)
    ensures (y - 1968) / 4 == (y - 1969) / 4 + (if y % 4 == 0 then 1 else 0)
  {}

  lemma Hundreds(y: int)
    ensures (y - 1900) / 100 == (y - 1901) / 100 + (if y % 100 == 0 then 1 else 0)
  {}

  lemma FourHundreds(y: int)
    ensures (y - 1600) / 400 == (y - 1601) / 400 + (if y % 400 == 0 then 1 else 0)
  {}

  lemma Nested(y: int)
    ensures (y % 400 == 0 ==> y % 100 == 0) && (y % 100 == 0 ==> y % 4 == 0)
  {
    if y % 400 == 0 { HundredDivides(y, 4 * (y / 400)); }
    if y % 100 == 0 { FourDivides(y, 25 * (y / 100)); }
  }

  lemma HundredDivides(y: int, k: int)
    requires y == 100 * k
    ensures y % 100 == 0
  {}

  lemma FourDivides(y: int, k: int)
    requires y == 4 * k
    ensures y % 4 == 0
  {}

  /** Consecutive years lie end to end. */
  lemma YearLengths(y: int)
    ensures DayFromYear(y + 1) == DayFromYear(y) + YearLength(y)
  {
    Fours(y);
    Hundreds(y);
    FourHundreds(y);
    Nested(y);
  }

  function MonthLength(leap: bool, month: int): int {
    if month == 1 then (if leap then 29 else 28) else if month in {3, 5, 8, 10} then 30 else 31
  }

  /** Day 0 is 1 January 1970; every month follows the one before it after its length, and January the December of the
      year before. */
  lemma CalendarIs(y: int, month: int, date: int)
    requires 0 <= month < 12
    ensures MakeDay(1970, 0, 1) == 0
    ensures MakeDay(y, month + 1, 1) == MakeDay(y, month, 1) + MonthLength(Leap(y), month)
    ensures MakeDay(y, month, date) == MakeDay(y, month, 1) + date - 1
  {
    hide MakeDay, MonthStart, DayFromYear, MonthLength, Leap;
    FirstYear();
    InYear(y, month);
    InYear(1970, 0);
    DayIs(1970, 0, 1);
    DayIs(y, month, 1);
    DayIs(y, month, date);
    if month == 11 {
      YearLengths(y);
      NextYear(y);
    } else {
      DayIs(y, month + 1, 1);
    }
  }

  /** Months outside the year roll over. */
  lemma MonthsRollOver(y: int, month: int, date: int)
    ensures MakeDay(y, month + 12, date) == MakeDay(y + 1, month, date)
  {
    hide MonthStart, DayFromYear, Leap;
    assert (month + 12) / 12 == month / 12 + 1 && (month + 12) % 12 == month % 12;
  }

  lemma DayIs(y: int, month: int, date: int)
    requires 0 <= month < 12
    ensures MakeDay(y, month, date) == DayFromYear(y) + MonthStart(Leap(y), month) + date - 1
  {
    hide MonthStart, DayFromYear, Leap;
  }

  lemma NextYear(y: int)
    ensures MakeDay(y, 12, 1) == DayFromYear(y + 1)
  {
    hide DayFromYear, Leap;
    assert 12 / 12 == 1 && 12 % 12 == 0;
  }

  lemma InYear(y: int, month: int)
    requires 0 <= month < 12
    ensures MonthStart(Leap(y), 0) == 0 && MonthStart(Leap(y), 12) == YearLength(y)
    ensures MonthStart(Leap(y), month + 1) == MonthStart(Leap(y), month) + MonthLength(Leap(y), month)
  {
    hide Leap;
  }

  lemma FirstYear()
    ensures DayFromYear(1970) == 0
  {}

  function YearOf(day: int): (y: int)
    ensures DayFromYear(y) <= day < DayFromYear(y + 1)
  {
    var low := 1970 + (if day >= 0 then day / 366 else day / 365);
    assert DayFromYear(low) <= day;
    YearFrom(day, low)
  }

  /** The month, counted from 0, of a day within its year. */
  function MonthOf(leap: bool, dayInYear: int, month: nat): (r: nat)
    requires month <= 11 && MonthStart(leap, month) <= dayInYear < MonthStart(leap, 12)
    ensures month <= r <= 11 && MonthStart(leap, r) <= dayInYear < MonthStart(leap, r + 1)
    decreases 11 - month
  {
    if month == 11 || dayInYear < MonthStart(leap, month + 1) then month else MonthOf(leap, dayInYear, month + 1)
  }

  datatype Civil = Civil(year: int, month: int, day: int)

  predicate ValidDate(c: Civil) {
    1 <= c.month <= 12 && 1 <= c.day <= MonthStart(Leap(c.year), c.month) - MonthStart(Leap(c.year), c.month - 1)
  }

  /** The dates there are: the days of each month, with 29 February in leap years. */
  lemma ValidDateIs(c: Civil)
    ensures ValidDate(c) <==> 1 <= c.month <= 12 && 1 <= c.day <= MonthLength(Leap(c.year), c.month - 1)
  {
    if 1 <= c.month <= 12 { InYear(c.year, c.month - 1); }
    hide Leap, MonthStart, MonthLength;
  }

  function DateInYear(y: int, dayInYear: int): (c: Civil)
    requires 0 <= dayInYear < YearLength(y)
    ensures ValidDate(c) && c.year == y && MonthStart(Leap(y), c.month - 1) + c.day - 1 == dayInYear
  {
    var m := MonthOf(Leap(y), dayInYear, 0);
    Civil(y, m + 1, dayInYear - MonthStart(Leap(y), m) + 1)
  }

  /** The date of a day number; months and days count from 1. */
  function CivilOf(day: int): Civil {
    var y := YearOf(day);
    YearLengths(y);
    DateInYear(y, day - DayFromYear(y))
  }

  function DayOf(c: Civil): int { MakeDay(c.year, c.month - 1, c.day) }

  lemma {:induction false} YearsIncrease(y: int, z: int)
    requires y < z
    ensures DayFromYear(y + 1) <= DayFromYear(z)
    decreases z - y
  {
    if y + 1 < z {
      YearsIncrease(y, z - 1);
      YearLengths(z - 1);
    }
  }

  lemma MonthsIncrease(leap: bool, m: int, n: int)
    requires 0 <= m < n <= 12
    ensures MonthStart(leap, m + 1) <= MonthStart(leap, n)
  {}

  predicate Earlier(a: Civil, b: Civil) {
    a.year < b.year || (a.year == b.year && (a.month < b.month || (a.month == b.month && a.day < b.day)))
  }

  /** Day numbers order valid dates as the calendar does. */
  lemma DayOrder(a: Civil, b: Civil)
    requires ValidDate(a) && ValidDate(b)
    ensures DayOf(a) < DayOf(b) <==> Earlier(a, b)
  {
    hide DayOf, ValidDate;
    if Earlier(a, b) { EarlierIsLess(a, b); }
    if Earlier(b, a) { EarlierIsLess(b, a); }
  }

  lemma EarlierIsLess(a: Civil, b: Civil)
    requires ValidDate(a) && ValidDate(b) && Earlier(a, b)
    ensures DayOf(a) < DayOf(b)
  {
    hide DayFromYear, Leap, MonthStart;
    WithinYear(a);
    WithinYear(b);
    if a.year < b.year {
      YearsIncrease(a.year, b.year);
    } else if a.month < b.month {
      MonthsIncrease(Leap(a.year), a.month - 1, b.month - 1);
    }
  }

  lemma WithinYear(c: Civil)
    requires ValidDate(c)
    ensures DayOf(c) == DayFromYear(c.year) + MonthStart(Leap(c.year), c.month - 1) + c.day - 1
    ensures DayFromYear(c.year) <= DayOf(c) < DayFromYear(c.year + 1)
  {
    YearLengths(c.year);
    MonthsIncrease(Leap(c.year), c.month - 1, 12);
  }

  /** Dates and day numbers correspond one to one. */
  lemma DayOfCivil(day: int)
    ensures ValidDate(CivilOf(day)) && DayOf(CivilOf(day)) == day
  {
    hide DayFromYear, Leap, MonthStart, DayOf, ValidDate;
    YearLengths(YearOf(day));
    WithinYear(CivilOf(day));
  }

  lemma CivilOfDay(c: Civil)
    requires ValidDate(c)
    ensures CivilOf(DayOf(c)) == c
  {
    hide CivilOf, DayOf, ValidDate;
    var d := CivilOf(DayOf(c));
    DayOfCivil(DayOf(c));
    DayOrder(c, d);
    DayOrder(d, c);
  }

  // ---- Keys ------------------------------------------------------------------------------------------

  /** What the pattern of four, two and two digits admits. */
  predicate KeyShape(c: Civil) { 0 <= c.year <= 9999 && 0 <= c.month <= 99 && 0 <= c.day <= 99 }

  predicate ValidKey(c: Civil) { KeyShape(c) && ValidDate(c) }

  function Pow10(w: nat): nat { if w == 0 then 1 else 10 * Pow10(w - 1) }

  function Digits(n: nat, w: nat): (s: string)
    ensures |s| == w
  {
    if w == 0 then [] else Digits(n / 10, w - 1) + [('0' as int + n % 10) as char]
  }

  function KeyText(c: Civil): string
    requires KeyShape(c)
  {
    Digits(c.year, 4) + ("-" + (Digits(c.month, 2) + ("-" + Digits(c.day, 2))))
  }

  predicate IsDigit(ch: char) { '0' <= ch <= '9' }

  function DigitValue(ch: char): (n: nat) { if IsDigit(ch) then ch as int - '0' as int else 0 }

  function Number(s: string): (n: nat) {
    if s == [] then 0 else 10 * Number(s[..|s| - 1]) + DigitValue(s[|s| - 1])
  }

  predicate AllDigits(s: string) { forall i :: 0 <= i < |s| ==> IsDigit(s[i]) }

  /** parseDateKey; None is the error for a malformed key. */
  function ParseDateKey(s: string): Option<Civil> {
    if |s| == 10 && s[4] == '-' && s[7] == '-' && AllDigits(s[..4]) && AllDigits(s[5..7]) && AllDigits(s[8..])
    then Some(Civil(Number(s[..4]), Number(s[5..7]), Number(s[8..])))
    else None
  }

  lemma {:induction false} NumberOfDigits(n: nat, w: nat)
    requires n < Pow10(w)
    ensures AllDigits(Digits(n, w)) && Number(Digits(n, w)) == n
  {
    if w > 0 {
      NumberOfDigits(n / 10, w - 1);
      assert Digits(n, w)[..w - 1] == Digits(n / 10, w - 1);
    }
  }

  lemma Pow10s()
    ensures Pow10(2) == 100 && Pow10(4) == 10000
  {
    assert Pow10(3) == 10 * Pow10(2);
  }

  /** A written key reads back as itself. */
  lemma ParseKeyText(c: Civil)
    requires KeyShape(c)
    ensures ParseDateKey(KeyText(c)) == Some(c)
  {
    Pow10s();
    var s := KeyText(c);
    NumberOfDigits(c.year, 4);
    NumberOfDigits(c.month, 2);
    NumberOfDigits(c.day, 2);
    assert s[..4] == Digits(c.year, 4);
    assert s[5..7] == Digits(c.month, 2);
    assert s[8..] == Digits(c.day, 2);
  }

  lemma {:induction false} DigitsOfNumber(s: string)
    requires AllDigits(s)
    ensures Number(s) < Pow10(|s|) && Digits(Number(s), |s|) == s
  {
    if s != [] {
      var init, last := s[..|s| - 1], s[|s| - 1];
      assert s == init + [last] && AllDigits(init) && IsDigit(last);
      DigitsOfNumber(init);
      DigitBack(Number(init), last);
      hide IsDigit, DigitValue;
    }
  }

  lemma DigitBack(n: nat, ch: char)
    requires IsDigit(ch)
    ensures var m := 10 * n + DigitValue(ch); m / 10 == n && ('0' as int + m % 10) as char == ch && DigitValue(ch) < 10
  {}

  /** Exactly the written keys can be read: a string is read as a date of four-digit year and two-digit month and day if
      and only if it is that date written out. */
  lemma ParseIff(s: string, c: Civil)
    ensures ParseDateKey(s) == Some(c) <==> KeyShape(c) && s == KeyText(c)
  {
    if ParseDateKey(s) == Some(c) {
      Pow10s();
      DigitsOfNumber(s[..4]);
      DigitsOfNumber(s[5..7]);
      DigitsOfNumber(s[8..]);
      assert s == s[..4] + ['-'] + s[5..7] + ['-'] + s[8..];
      hide Number, Digits, AllDigits, Pow10;
      assert s == KeyText(c);
    }
    if KeyShape(c) { ParseKeyText(c); }
  }

  /** The order of strings by character codes. */
  predicate Before(a: string, b: string) {
    b != [] && (a == [] || a[0] < b[0] || (a[0] == b[0] && Before(a[1..], b[1..])))
  }

  lemma {:induction false} BeforeAppend(a: string, b: string, x: string, y: string)
    requires |a| == |b|
    ensures Before(a + x, b + y) <==> Before(a, b) || (a == b && Before(x, y))
  {
    if a == [] {
      assert a + x == x && b + y == y;
    } else {
      assert (a + x)[1..] == a[1..] + x && (b + y)[1..] == b[1..] + y;
      BeforeAppend(a[1..], b[1..], x, y);
      assert a == [a[0]] + a[1..] && b == [b[0]] + b[1..];
    }
  }

  lemma {:induction false} DigitsOrder(n: nat, m: nat, w: nat)
    requires n < Pow10(w) && m < Pow10(w)
    ensures Before(Digits(n, w), Digits(m, w)) <==> n < m
    ensures Digits(n, w) == Digits(m, w) <==> n == m
  {
    NumberOfDigits(n, w);
    NumberOfDigits(m, w);
    if w > 0 {
      DigitsOrder(n / 10, m / 10, w - 1);
      BeforeAppend(Digits(n / 10, w - 1), Digits(m / 10, w - 1), [('0' as int + n % 10) as char],
        [('0' as int + m % 10) as char]);
    }
  }

  /** Sorting keys as strings sorts them by day. */
  lemma KeyOrderIsDayOrder(a: Civil, b: Civil)
    requires ValidKey(a) && ValidKey(b)
    ensures Before(KeyText(a), KeyText(b)) <==> DayOf(a) < DayOf(b)
  {
    Pow10s();
    DayOrder(a, b);
    DigitsOrder(a.year, b.year, 4);
    DigitsOrder(a.month, b.month, 2);
    DigitsOrder(a.day, b.day, 2);
    hide Before, Digits;
    FieldOrder(Digits(a.month, 2), Digits(b.month, 2), Digits(a.day, 2), Digits(b.day, 2));
    FieldOrder(Digits(a.year, 4), Digits(b.year, 4), Digits(a.month, 2) + ("-" + Digits(a.day, 2)),
      Digits(b.month, 2) + ("-" + Digits(b.day, 2)));
  }

  /** Fields of equal width compare one after the other. */
  lemma FieldOrder(a: string, b: string, x: string, y: string)
    requires |a| == |b|
    ensures Before(a + ("-" + x), b + ("-" + y)) <==> Before(a, b) || (a == b && Before(x, y))
    ensures a + ("-" + x) == b + ("-" + y) <==> a == b && x == y
  {
    BeforeAppend(a, b, "-" + x, "-" + y);
    assert ("-" + x)[1..] == x && ("-" + y)[1..] == y;
    if a + ("-" + x) == b + ("-" + y) {
      assert (a + ("-" + x))[..|a|] == a && (b + ("-" + y))[..|a|] == b;
      assert (a + ("-" + x))[|a| + 1..] == x && (b + ("-" + y))[|a| + 1..] == y;
    }
  }
}
