/** Civil dates of the proleptic Gregorian calendar, weekdays, and wall-clock times written
    'H:i', as the date library of the PHP side (Carbon) and the browser's Date give them. */
module Dates {
  import opened Wrappers
  import opened Text

  datatype Date = Date(year: int, month: int, day: int)

  datatype Weekday = Monday | Tuesday | Wednesday | Thursday | Friday | Saturday | Sunday

  predicate IsLeapYear(y: int)
  {
    y % 4 == 0 && (y % 100 != 0 || y % 400 == 0)
  }

  function DaysInMonth(y: int, m: int): (n: int)
    requires 1 <= m <= 12
    ensures 28 <= n <= 31
  {
    if m == 2 then (if IsLeapYear(y) then 29 else 28)
    else if m == 4 || m == 6 || m == 9 || m == 11 then 30
    else 31
  }

  predicate Valid(d: Date)
  {
    1 <= d.year && 1 <= d.month <= 12 && 1 <= d.day <= DaysInMonth(d.year, d.month)
  }

  function YearLength(y: int): int
  {
    if IsLeapYear(y) then 366 else 365
  }

  /** Days from 0001-01-01 to January 1st of year y. */
  function DaysBeforeYear(y: int): (n: int)
    requires y >= 1
    ensures n >= 0
  {
    if y == 1 then 0 else DaysBeforeYear(y - 1) + YearLength(y - 1)
  }

  /** Days from January 1st to the first of month m of year y. */
  function DaysBeforeMonth(y: int, m: int): int
    requires 1 <= m <= 12
  {
    CommonDaysBefore(m) + (if m > 2 && IsLeapYear(y) then 1 else 0)
  }

  /** Days from January 1st to the first of month m in a common year. */
  function CommonDaysBefore(m: int): int
  {
    if m <= 1 then 0 else if m == 2 then 31 else if m == 3 then 59 else if m == 4 then 90
    else if m == 5 then 120 else if m == 6 then 151 else if m == 7 then 181
    else if m == 8 then 212 else if m == 9 then 243 else if m == 10 then 273
    else if m == 11 then 304 else 334
  }

  /** Days elapsed since 0001-01-01, which was a Monday. */
  function DayNumber(d: Date): int
    requires Valid(d)
  {
    DaysBeforeYear(d.year) + DaysBeforeMonth(d.year, d.month) + d.day - 1
  }

  /** The date that follows d. */
  function NextDay(d: Date): (e: Date)
    requires Valid(d)
    ensures Valid(e)
  {
    if d.day < DaysInMonth(d.year, d.month) then d.(day := d.day + 1)
    else if d.month < 12 then Date(d.year, d.month + 1, 1)
    else Date(d.year + 1, 1, 1)
  }

  /** d plus n days (Carbon's addDays). */
  function AddDays(d: Date, n: nat): (e: Date)
    requires Valid(d)
    ensures Valid(e)
    decreases n
  {
    if n == 0 then d else AddDays(NextDay(d), n - 1)
  }

  /** A year contributes its own length to the count of days. */
  lemma YearStep(y: int)
    requires y >= 1
    ensures DaysBeforeYear(y + 1) == DaysBeforeYear(y) + YearLength(y)
  {
  }

  /** The day number of the next day is one more. */
  lemma NextDayNumber(d: Date)
    requires Valid(d)
    ensures DayNumber(NextDay(d)) == DayNumber(d) + 1
  {
    if d.day == DaysInMonth(d.year, d.month) && d.month == 12 {
      YearStep(d.year);
    }
  }

  /** Adding n days adds n to the day number. */
  lemma {:induction false} AddDaysNumber(d: Date, n: nat)
    requires Valid(d)
    ensures DayNumber(AddDays(d, n)) == DayNumber(d) + n
    decreases n
  {
    if n > 0 {
      NextDayNumber(d);
      AddDaysNumber(NextDay(d), n - 1);
    }
  }

  /** Distinct valid dates have distinct day numbers, so the day number orders dates. */
  lemma DayNumberInjective(d: Date, e: Date)
    requires Valid(d) && Valid(e) && DayNumber(d) == DayNumber(e)
    ensures d == e
  {
    if d.year < e.year {
      YearsApart(d.year, e.year);
    } else if e.year < d.year {
      YearsApart(e.year, d.year);
    }
  }

  /** A later year starts after the whole of an earlier one. */
  lemma {:induction false} YearsApart(y: int, z: int)
    requires 1 <= y < z
    ensures DaysBeforeYear(z) >= DaysBeforeYear(y) + YearLength(y)
    decreases z - y
  {
    YearStep(y);
    if y + 1 < z {
      YearsApart(y + 1, z);
    }
  }

  lemma DayNumberNonNegative(d: Date)
    requires Valid(d)
    ensures DayNumber(d) >= 0
  {
  }

  // ----- weekdays -----

  function WeekdayFromIndex(i: int): Weekday
    requires 0 <= i < 7
  {
    if i == 0 then Monday else if i == 1 then Tuesday else if i == 2 then Wednesday
    else if i == 3 then Thursday else if i == 4 then Friday else if i == 5 then Saturday
    else Sunday
  }

  /** Monday = 0 ... Sunday = 6. */
  function IsoIndex(w: Weekday): (i: nat)
    ensures i < 7 && WeekdayFromIndex(i) == w
  {
    match w
    case Monday => 0
    case Tuesday => 1
    case Wednesday => 2
    case Thursday => 3
    case Friday => 4
    case Saturday => 5
    case Sunday => 6
  }

  lemma IndexOfWeekday(i: int)
    requires 0 <= i < 7
    ensures IsoIndex(WeekdayFromIndex(i)) == i
  {
  }

  function WeekdayOf(d: Date): Weekday
    requires Valid(d)
  {
    DayNumberNonNegative(d);
    WeekdayFromIndex(DayNumber(d) % 7)
  }

  lemma WeekdayIndexStep(a: int, n: nat)
    requires a >= 0
    ensures IsoIndex(WeekdayFromIndex((a + n) % 7)) == (IsoIndex(WeekdayFromIndex(a % 7)) + n) % 7
  {
    IndexOfWeekday(a % 7);
    IndexOfWeekday((a + n) % 7);
  }

  /** n days on, the weekday has moved n places round the week. */
  lemma WeekdayAfter(d: Date, n: nat)
    requires Valid(d)
    ensures IsoIndex(WeekdayOf(AddDays(d, n))) == (IsoIndex(WeekdayOf(d)) + n) % 7
  {
    AddDaysNumber(d, n);
    DayNumberNonNegative(d);
    var a := DayNumber(d);
    assert WeekdayOf(d) == WeekdayFromIndex(a % 7);
    assert WeekdayOf(AddDays(d, n)) == WeekdayFromIndex((a + n) % 7);
    WeekdayIndexStep(a, n);
  }

  /** The English weekday name in lower case: strtolower($date->format('l')) in PHP and
      the names list of the browser code. */
  function EnglishName(w: Weekday): string
  {
    match w
    case Monday => "monday"
    case Tuesday => "tuesday"
    case Wednesday => "wednesday"
    case Thursday => "thursday"
    case Friday => "friday"
    case Saturday => "saturday"
    case Sunday => "sunday"
  }

  lemma EnglishNameInjective(v: Weekday, w: Weekday)
    requires EnglishName(v) == EnglishName(w)
    ensures v == w
  {
  }

  // ----- PHP date formats -----

  function Pow10(k: nat): (p: nat)
    ensures p >= 1
  {
    if k == 0 then 1 else 10 * Pow10(k - 1)
  }

  /** A number below 10^k has at most k digits. */
  lemma {:induction false} NatToStringShort(n: nat, k: nat)
    requires 1 <= k && n < Pow10(k)
    ensures |NatToString(n)| <= k
    decreases k
  {
    if n >= 10 {
      assert k >= 2;
      NatToStringShort(n / 10, k - 1);
    }
  }

  /** PHP's format('Y'): the year with at least four digits. */
  function YearDigits(y: nat): string
  {
    PadStart(NatToString(y), 4, '0')
  }

  lemma YearDigitsLength(y: nat)
    ensures y <= 9999 ==> |YearDigits(y)| == 4
  {
    if y <= 9999 {
      NatToStringShort(y, 4);
    }
  }

  /** PHP's $date->format('Y-m-d'). */
  function FormatYmd(d: Date): (s: string)
    requires Valid(d)
    ensures ':' !in s
    ensures d.year <= 9999 ==> |s| == 10
  {
    YearDigitsLength(d.year);
    YearDigits(d.year) + "-" + Pad2(d.month) + "-" + Pad2(d.day)
  }

  /** PHP's $date->format('d.m'). */
  function FormatDayMonth(d: Date): (s: string)
    requires Valid(d)
    ensures |s| == 5 && s[2] == '.'
  {
    Pad2(d.day) + "." + Pad2(d.month)
  }

  // ----- wall-clock times -----

  /** Carbon::createFromFormat('H:i', s) as minutes after today's midnight: one or two hour
      digits, a colon and exactly two minute digits, nothing else; values past the clock's
      range roll over into the next day as the date library does. None is a string the
      library rejects, which it reports by throwing (its strict mode, on by default). */
  function ParseHM(s: string): (r: Option<nat>)
    ensures r.Some? ==> r.value < 99 * 60 + 100
    ensures r.Some? ==> |s| == 4 || |s| == 5
  {
    if |s| == 4 && IsDigit(s[0]) && s[1] == ':' && IsDigit(s[2]) && IsDigit(s[3]) then
      Some(DigitValue(s[0]) * 60 + DigitValue(s[2]) * 10 + DigitValue(s[3]))
    else if |s| == 5 && IsDigit(s[0]) && IsDigit(s[1]) && s[2] == ':'
            && IsDigit(s[3]) && IsDigit(s[4]) then
      Some((DigitValue(s[0]) * 10 + DigitValue(s[1])) * 60 + DigitValue(s[3]) * 10
           + DigitValue(s[4]))
    else
      None
  }

  /** $time->format('H:i') of a time t minutes after today's midnight: the clock reading,
      which starts over after midnight. */
  function FormatHM(t: nat): (s: string)
    ensures |s| == 5 && s[2] == ':'
  {
    var m := t % 1440;
    Pad2(m / 60) + ":" + Pad2(m % 60)
  }

  /** Reading back a formatted time gives the clock reading it was made from. */
  lemma ParseFormatHM(t: nat)
    ensures ParseHM(FormatHM(t)) == Some(t % 1440)
  {
    var m := t % 1440;
    var s := FormatHM(t);
    assert s[0..2] == Pad2(m / 60) && s[3..5] == Pad2(m % 60);
  }

  /** format('H:i') is one-to-one on the minutes of a day. */
  lemma FormatHMInjective(t: nat, u: nat)
    requires t < 1440 && u < 1440 && FormatHM(t) == FormatHM(u)
    ensures t == u
  {
    ClockReading(t);
    ClockReading(u);
    Pad2Injective(t / 60, u / 60);
    Pad2Injective(t % 60, u % 60);
  }

  /** Within a day, the two halves of format('H:i') are the hour and the minute. */
  lemma ClockReading(t: nat)
    requires t < 1440
    ensures FormatHM(t)[..2] == Pad2(t / 60) && FormatHM(t)[3..] == Pad2(t % 60)
  {
    assert t % 1440 == t;
    var h, m := Pad2(t / 60), Pad2(t % 60);
    assert FormatHM(t) == h + ":" + m;
    assert (h + ":" + m)[..2] == h && (h + ":" + m)[3..] == m;
  }
}
