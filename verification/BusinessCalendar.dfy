/** Operations on business-day keys and the UTC ranges of business days, for a zone whose offset (in milliseconds,
    local minus UTC) is the same at every instant. */
module BusinessCalendar {
  import opened Options
  import opened BusinessDate

  /** Date.UTC reads the years 0 to 99 as 1900 to 1999. */
  function FullYear(year: int): int { if 0 <= year <= 99 then 1900 + year else year }

  function UtcDay(year: int, month: int, date: int): int { MakeDay(FullYear(year), month - 1, date) }

  /** What toISOString().split('T')[0] gives: a key, a date written with a six-digit year, or a RangeError. */
  datatype KeyResult = Key(key: Civil) | LongYear(date: Civil) | BadDate

  function CanonicalDateToKey(day: int): KeyResult {
    if !(-MAX_TIME <= day * MS_PER_DAY <= MAX_TIME) then BadDate
    else if 0 <= CivilOf(day).year <= 9999 then Key(CivilOf(day)) else LongYear(CivilOf(day))
  }

  function AddBusinessDays(k: Civil, days: int): KeyResult {
    CanonicalDateToKey(UtcDay(k.year, k.month, k.day + days))
  }

  /** Both keys are parsed as ISO dates, which take every year as it stands. */
  function DaysInclusiveBetween(from: Civil, to: Civil): int {
    var diffMs := DayOf(to) * MS_PER_DAY - DayOf(from) * MS_PER_DAY;
    if diffMs < 0 then 0 else diffMs / MS_PER_DAY + 1
  }

  function DaysElapsed(from: Civil, to: Civil): int {
    var n := DaysInclusiveBetween(from, to) - 1;
    if n < 0 then 0 else n
  }

  /** The local day of an instant. */
  function LocalDay(t: int, offset: int): int { (t + offset) / MS_PER_DAY }

  /** The formatted local date; the year is not padded, so only years of four digits make a key. */
  function ToBusinessDateKey(t: int, offset: int): Option<Civil> {
    var c := CivilOf(LocalDay(t, offset));
    if 1000 <= c.year <= 9999 then Some(c) else None
  }

  function ZonedLocalTimeToUtc(year: int, month: int, day: int, offset: int): int {
    var utcGuess := UtcDay(year, month, day) * MS_PER_DAY;
    utcGuess - offset
  }

  function RangeStart(k: Civil, offset: int): int { ZonedLocalTimeToUtc(k.year, k.month, k.day, offset) }

  function RangeEnd(k: Civil, offset: int): int {
    var next := CivilOf(UtcDay(k.year, k.month, k.day + 1));
    ZonedLocalTimeToUtc(next.year, next.month, next.day, offset)
  }

  /** A day within a hundred million days of the epoch has a date; it makes a key in the years 0 to 9999. */
  lemma KeyOfDay(day: int)
    ensures var r := CanonicalDateToKey(day);
      && (r == BadDate <==> day < -100_000_000 || day > 100_000_000)
      && (r.Key? <==> -100_000_000 <= day <= 100_000_000 && 0 <= CivilOf(day).year <= 9999)
      && (r.Key? ==> r == Key(CivilOf(day)))
  {
    hide CivilOf;
  }

  // ---- Adding days -----------------------------------------------------------------------------------

  /** For the years that Date.UTC reads as they stand, adding days is adding to the day number. */
  lemma AddShifts(k: Civil, days: int)
    requires k.year >= 100
    ensures AddBusinessDays(k, days) == CanonicalDateToKey(DayOf(k) + days)
  {
    hide CanonicalDateToKey, DayFromYear, MonthStart, Leap;
  }

  lemma CenturyShift(k: Civil)
    requires ValidKey(k) && k.year <= 99
    ensures UtcDay(k.year, k.month, k.day) > DayOf(k)
  {
    hide DayFromYear, Leap;
    WithinYear(k);
    YearsIncrease(k.year, 1900 + k.year);
    YearLengths(k.year);
  }

  lemma DateBounds(c: Civil)
    requires ValidDate(c)
    ensures 1 <= c.month <= 12 && 1 <= c.day <= 31
  {}

  lemma KeyDayIs(day: int, k: Civil)
    requires CanonicalDateToKey(day) == Key(k)
    ensures ValidKey(k) && DayOf(k) == day
  {
    hide DayOf, ValidDate, CivilOf;
    DayOfCivil(day);
    DateBounds(k);
  }

  lemma KeyInRange(k: Civil)
    requires ValidKey(k)
    ensures CanonicalDateToKey(DayOf(k)) == Key(k)
  {
    hide DayFromYear, MonthStart, Leap, DayOf;
    CivilOfDay(k);
    WithinYear(k);
    Year0To10000(k.year);
  }

  lemma Year0To10000(y: int)
    requires 0 <= y <= 9999
    ensures -800_000 <= DayFromYear(y) && DayFromYear(y + 1) <= 3_000_000
  {}

  lemma UtcDayShift(k: Civil, days: int)
    ensures UtcDay(k.year, k.month, k.day + days) == UtcDay(k.year, k.month, k.day) + days
  {}

  /** Adding no days gives the key back exactly for the years from 100 on. */
  lemma AddZeroIff(k: Civil)
    requires ValidKey(k)
    ensures AddBusinessDays(k, 0) == Key(k) <==> k.year >= 100
  {
    hide CanonicalDateToKey, DayOf, UtcDay;
    if k.year >= 100 {
      AddShifts(k, 0);
      KeyInRange(k);
    } else {
      CenturyShift(k);
      if AddBusinessDays(k, 0) == Key(k) { KeyDayIs(UtcDay(k.year, k.month, k.day), k); }
    }
  }

  /** Adding m and then n days is adding m + n, exactly when the key in between is of year 100 or later. */
  lemma AddIsAdditiveIff(k: Civil, m: int, mid: Civil, n: int)
    requires ValidKey(k) && AddBusinessDays(k, m) == Key(mid) && AddBusinessDays(k, m + n).Key?
    ensures AddBusinessDays(mid, n) == AddBusinessDays(k, m + n) <==> mid.year >= 100
  {
    hide CanonicalDateToKey, DayOf, UtcDay;
    UtcDayShift(k, m);
    UtcDayShift(k, m + n);
    KeyDayIs(UtcDay(k.year, k.month, k.day + m), mid);
    var whole := AddBusinessDays(k, m + n).key;
    KeyDayIs(UtcDay(k.year, k.month, k.day + (m + n)), whole);
    if mid.year >= 100 {
      AddShifts(mid, n);
    } else {
      CenturyShift(mid);
      UtcDayShift(mid, n);
      if AddBusinessDays(mid, n) == Key(whole) { KeyDayIs(UtcDay(mid.year, mid.month, mid.day + n), whole); }
    }
  }

  /** The inclusive count minus one is the number of days to add, exactly from year 100 on. */
  lemma CountInvertsAddIff(from: Civil, to: Civil)
    requires ValidKey(from) && ValidKey(to) && DayOf(from) <= DayOf(to)
    ensures DaysInclusiveBetween(from, to) == DayOf(to) - DayOf(from) + 1
    ensures AddBusinessDays(from, DaysInclusiveBetween(from, to) - 1) == Key(to) <==> from.year >= 100
  {
    hide CanonicalDateToKey, DayOf, UtcDay;
    var n := DaysInclusiveBetween(from, to) - 1;
    Multiples(DayOf(to), DayOf(from));
    if from.year >= 100 {
      AddShifts(from, n);
      KeyInRange(to);
    } else {
      CenturyShift(from);
      UtcDayShift(from, n);
      if AddBusinessDays(from, n) == Key(to) { KeyDayIs(UtcDay(from.year, from.month, from.day + n), to); }
    }
  }

  lemma Multiples(a: int, b: int)
    requires b <= a
    ensures a * MS_PER_DAY - b * MS_PER_DAY >= 0 && (a * MS_PER_DAY - b * MS_PER_DAY) / MS_PER_DAY == a - b
  {
    assert a * MS_PER_DAY - b * MS_PER_DAY == (a - b) * MS_PER_DAY;
  }

  /** And counting undoes adding; a backwards addition counts as no days. */
  lemma AddInvertsCountIff(from: Civil, n: int, to: Civil)
    requires ValidKey(from) && AddBusinessDays(from, n) == Key(to)
    ensures from.year >= 100 ==> DaysInclusiveBetween(from, to) == if n >= 0 then n + 1 else 0
    ensures n >= 0 ==> (DaysInclusiveBetween(from, to) == n + 1 <==> from.year >= 100)
    ensures from.year >= 100 ==> DaysElapsed(from, to) == if n >= 0 then n else 0
  {
    hide CanonicalDateToKey, DayOf, UtcDay;
    UtcDayShift(from, n);
    KeyDayIs(UtcDay(from.year, from.month, from.day + n), to);
    if from.year < 100 { CenturyShift(from); } else { FullYearSame(from); }
    if DayOf(from) <= DayOf(to) { Multiples(DayOf(to), DayOf(from)); }
  }

  lemma FullYearSame(k: Civil)
    requires k.year >= 100
    ensures UtcDay(k.year, k.month, k.day) == DayOf(k)
  {}

  // ---- Business days tile time -------------------------------------------------------------------------

  lemma StartIs(k: Civil, offset: int)
    requires k.year >= 100
    ensures RangeStart(k, offset) == DayOf(k) * MS_PER_DAY - offset
  {
    hide DayFromYear, MonthStart, Leap;
  }

  lemma EndIs(k: Civil, offset: int)
    requires ValidKey(k) && k.year >= 100
    ensures RangeEnd(k, offset) == (DayOf(k) + 1) * MS_PER_DAY - offset
  {
    hide DayFromYear, MonthStart, Leap, CivilOf, DayOf;
    UtcDayShift(k, 1);
    FullYearSame(k);
    var next := CivilOf(DayOf(k) + 1);
    DayOfCivil(DayOf(k) + 1);
    DayOrder(k, next);
    FullYearSame(next);
  }

  lemma LocalDayIs(t: int, offset: int, day: int)
    ensures LocalDay(t, offset) == day <==> day * MS_PER_DAY - offset <= t < (day + 1) * MS_PER_DAY - offset
  {
    var q := LocalDay(t, offset);
    assert q * MS_PER_DAY <= t + offset < (q + 1) * MS_PER_DAY;
    if day < q { assert (day + 1) * MS_PER_DAY <= q * MS_PER_DAY; }
    if day > q { assert day * MS_PER_DAY >= (q + 1) * MS_PER_DAY; }
  }

  /** An instant lies in the half-open range of exactly one key: the one it is formatted as. */
  lemma EachInstantInOneRange(t: int, offset: int, k: Civil)
    requires ValidKey(k) && k.year >= 100 && ToBusinessDateKey(t, offset).Some?
    ensures RangeStart(k, offset) <= t < RangeEnd(k, offset) <==> ToBusinessDateKey(t, offset) == Some(k)
    ensures ValidKey(ToBusinessDateKey(t, offset).value)
  {
    hide DayOf, ValidDate, CivilOf, RangeStart, RangeEnd, LocalDay;
    var q, day := LocalDay(t, offset), DayOf(k);
    DayOfCivil(q);
    DateBounds(CivilOf(q));
    CivilOfDay(k);
    assert RangeStart(k, offset) <= t < RangeEnd(k, offset) <==> q == day by {
      StartIs(k, offset);
      EndIs(k, offset);
      LocalDayIs(t, offset, day);
    }
  }

  /** The range of a key ends where the range of the next key starts. */
  lemma RangesAreAdjacent(k: Civil, offset: int, next: Civil)
    requires ValidKey(k) && k.year >= 100 && AddBusinessDays(k, 1) == Key(next)
    ensures RangeEnd(k, offset) == RangeStart(next, offset)
  {
    hide DayOf, CanonicalDateToKey, RangeStart, RangeEnd, CivilOf;
    EndIs(k, offset);
    AddShifts(k, 1);
    KeyDayIs(DayOf(k) + 1, next);
    DayOrder(k, next);
    StartIs(next, offset);
  }

  /** A key survives the way to its range and back exactly for years written with four digits. */
  lemma KeyRangeRoundTripIff(k: Civil, offset: int)
    requires ValidKey(k)
    ensures ToBusinessDateKey(RangeStart(k, offset), offset) == Some(k) <==> k.year >= 1000
  {
    hide DayOf, CivilOf;
    if k.year >= 1000 {
      StartIs(k, offset);
      LocalDayIs(RangeStart(k, offset), offset, DayOf(k));
      CivilOfDay(k);
    }
  }

  /** The date column of a key: midnight UTC. */
  function KeyToDate(k: Civil): int { DayOf(k) * MS_PER_DAY }

  /** A key survives the way to its stored date and back, which is the way a rebuild takes, exactly for years written
      with four digits in a zone that is not behind UTC and less than a day ahead of it. */
  lemma StoredDateRoundTripIff(k: Civil, offset: int)
    requires ValidKey(k)
    ensures ToBusinessDateKey(KeyToDate(k), offset) == Some(k) <==> k.year >= 1000 && 0 <= offset < MS_PER_DAY
  {
    hide DayOf, CivilOf;
    var day := DayOf(k);
    LocalDayIs(KeyToDate(k), offset, day);
    DayOfCivil(LocalDay(KeyToDate(k), offset));
    CivilOfDay(k);
  }

  /** A run of days is one half-open range: the form in which the rebuild queries its sources. */
  lemma DayRange(t: int, offset: int, from: Civil, to: Civil)
    requires ValidKey(from) && ValidKey(to) && from.year >= 100 && to.year >= 100
    ensures RangeStart(from, offset) <= t < RangeEnd(to, offset) <==> DayOf(from) <= LocalDay(t, offset) <= DayOf(to)
  {
    hide DayOf, RangeStart, RangeEnd;
    StartIs(from, offset);
    EndIs(to, offset);
    var q := LocalDay(t, offset);
    LocalDayIs(t, offset, q);
    var a, b := DayOf(from), DayOf(to);
    assert a <= q ==> a * MS_PER_DAY <= q * MS_PER_DAY;
    assert a > q ==> a * MS_PER_DAY >= (q + 1) * MS_PER_DAY;
    assert q <= b ==> (q + 1) * MS_PER_DAY <= (b + 1) * MS_PER_DAY;
    assert q > b ==> q * MS_PER_DAY >= (b + 1) * MS_PER_DAY;
  }
}
