/** The browser side of the company page: the CalendarUtils helper class, the month grid
    of the calendar, the display of a day's time slots, the booking form's check, the diff
    the owner's edit form sends, the date converters and the status maps. The browser's
    clock is a parameter: "today" as a date and "now" as milliseconds after midnight. */
module CalendarUtils {
  import opened Wrappers
  import opened Text
  import opened Dates
  import PhpValues
  import CalendarSettings
  import opened Models

  // ----- the helper's settings -----

  /** The work_days setting: a list of day names, or something that is not an array. */
  datatype WorkDays = NotAList | Names(names: seq<string>)

  datatype BreakTime = BreakTime(start: string, end: string)

  /** The settings the page hands to the helper; None is a key it leaves out. */
  datatype Given = Given(
    workDays: Option<WorkDays>,
    holidays: Option<seq<string>>,
    breakTimes: Option<seq<BreakTime>>,
    daysAhead: Option<int>)

  /** The helper's settings after the given ones are laid over the defaults. Only the keys
      the helper reads are kept; holidays are 'YYYY-MM-DD' or 'MM-DD' strings. */
  datatype Settings = Settings(
    workDays: WorkDays,
    holidays: seq<string>,
    breakTimes: seq<BreakTime>,
    daysAhead: int)

  function DefaultWorkDays(): seq<string>
  {
    ["monday", "tuesday", "wednesday", "thursday", "friday"]
  }

  function OrElse<T>(o: Option<T>, default: T): T
  {
    match o
    case None => default
    case Some(x) => x
  }

  /** The constructor: Object.assign over the defaults, key by key. */
  function Configure(given: Given): Settings
  {
    Settings(
      OrElse(given.workDays, Names(DefaultWorkDays())),
      OrElse(given.holidays, []),
      OrElse(given.breakTimes, []),
      OrElse(given.daysAhead, 14))
  }

  // ----- dates -----

  /** Date.prototype.getDay: Sunday = 0 ... Saturday = 6. */
  function GetDay(d: Date): (i: nat)
    requires Valid(d)
    ensures i < 7
  {
    (IsoIndex(WeekdayOf(d)) + 1) % 7
  }

  /** The helper's own table of day names, indexed by getDay(). */
  function WeekdayName(d: Date): string
    requires Valid(d)
  {
    DayNameTable()[GetDay(d)]
  }

  function DayNameTable(): seq<string>
  {
    ["sunday", "monday", "tuesday", "wednesday", "thursday", "friday", "saturday"]
  }

  lemma TableNamesWeekday(w: Weekday)
    ensures DayNameTable()[(IsoIndex(w) + 1) % 7] == EnglishName(w)
  {
    match w
    case Monday =>
    case Tuesday =>
    case Wednesday =>
    case Thursday =>
    case Friday =>
    case Saturday =>
    case Sunday =>
  }

  /** The table indexed by getDay() names the same day as the server's English names. */
  lemma WeekdayNameIsEnglish(d: Date)
    requires Valid(d)
    ensures WeekdayName(d) == EnglishName(WeekdayOf(d))
  {
    TableNamesWeekday(WeekdayOf(d));
  }

  /** formatDateForServer: the year as it is, then month and day with two digits each. */
  function FormatDateForServer(d: Date): (s: string)
    requires Valid(d)
    ensures |s| >= 7 && s[|s| - 6] == '-' && s[|s| - 3] == '-'
  {
    NatToString(d.year) + "-" + Pad2(d.month) + "-" + Pad2(d.day)
  }

  /** A number of at least 10^k has more than k digits. */
  lemma {:induction false} NatToStringLong(n: nat, k: nat)
    requires n >= Pow10(k)
    ensures |NatToString(n)| > k
    decreases k
  {
    if k > 0 {
      NatToStringLong(n / 10, k - 1);
    }
  }

  /** For four-digit years the helper writes dates exactly as the server's 'Y-m-d'. */
  lemma ServerFormatIsYmd(d: Date)
    requires Valid(d) && 1000 <= d.year <= 9999
    ensures FormatDateForServer(d) == FormatYmd(d)
    ensures |FormatDateForServer(d)| == 10
  {
    NatToStringLong(d.year, 3);
    NatToStringShort(d.year, 4);
    var y := NatToString(d.year);
    assert PadStart(y, 4, '0') == y;
  }

  predicate IsWorkDay(s: Settings, d: Date)
    requires Valid(d)
  {
    s.workDays.Names? && WeekdayName(d) in s.workDays.names
  }

  /** A holiday entry of length 10 is a full date; any other entry is matched against the
      month and day, the date string from its sixth character on. */
  predicate HolidayMatches(h: string, ymd: string)
    requires |ymd| >= 5
  {
    if |h| == 10 then h == ymd else h == ymd[5..]
  }

  predicate IsHoliday(s: Settings, d: Date)
    requires Valid(d)
  {
    var ymd := FormatDateForServer(d);
    exists i :: 0 <= i < |s.holidays| && HolidayMatches(s.holidays[i], ymd)
  }

  /** isDateAvailable: from today on, at most days_ahead days away when that is positive,
      a work day, and not a holiday. */
  predicate IsDateAvailable(s: Settings, d: Date, today: Date)
    requires Valid(d) && Valid(today)
  {
    var diffDays := DayNumber(d) - DayNumber(today);
    if diffDays < 0 then false
    else if s.daysAhead > 0 && diffDays > s.daysAhead then false
    else if !IsWorkDay(s, d) then false
    else !IsHoliday(s, d)
  }

  /** The available dates are exactly the work days that are not holidays n days after
      today, with n at most days_ahead when that is positive. */
  lemma AvailableWindow(s: Settings, d: Date, today: Date)
    requires Valid(d) && Valid(today)
    ensures IsDateAvailable(s, d, today)
            <==> exists n: nat :: d == AddDays(today, n) && (s.daysAhead <= 0 || n <= s.daysAhead)
                                  && IsWorkDay(s, d) && !IsHoliday(s, d)
  {
    var diffDays := DayNumber(d) - DayNumber(today);
    if IsDateAvailable(s, d, today) {
      var n: nat := diffDays;
      AddDaysNumber(today, n);
      DayNumberInjective(d, AddDays(today, n));
    }
    forall n: nat | d == AddDays(today, n)
      ensures diffDays == n
    {
      AddDaysNumber(today, n);
    }
  }

  // ----- break times -----

  /** The characters String.prototype.trim and parseInt skip: white space and line
      terminators. */
  predicate IsJsSpace(c: char)
  {
    (c <= ' ' && (c == ' ' || '\t' <= c <= '\r')) || ('\U{00A0}' <= c && IsWideSpace(c))
  }

  /** The white space beyond ASCII: no-break spaces, the Unicode space separators, the
      line and paragraph separators and the byte order mark. */
  predicate IsWideSpace(c: char)
  {
    c == '\U{00A0}' || c == '\U{1680}' || ('\U{2000}' <= c <= '\U{200A}')
    || c == '\U{2028}' || c == '\U{2029}' || c == '\U{202F}' || c == '\U{205F}'
    || c == '\U{3000}' || c == '\U{FEFF}'
  }

  /** String.prototype.trimStart. */
  function JsTrimStart(s: string): (r: string)
    ensures |r| <= |s| && r == s[|s| - |r|..]
    ensures r == [] || !IsJsSpace(r[0])
  {
    if |s| > 0 && IsJsSpace(s[0]) then JsTrimStart(s[1..]) else s
  }

  /** parseInt(s, 10): leading white space, an optional sign, then the longest run of
      digits; None is NaN, when there is no digit. */
  function ParseInt(s: string): Option<int>
  {
    var t := JsTrimStart(s);
    var negative := |t| > 0 && t[0] == '-';
    var u := if |t| > 0 && (t[0] == '-' || t[0] == '+') then t[1..] else t;
    var n := PhpValues.DigitRun(u);
    if n == 0 then None
    else
      var v: int := DigitsValue(u[..n]);
      Some(if negative then -v else v)
  }

  /** The helper's toMinutes: the parts before and after the first ':' read with parseInt,
      a missing or empty minute part counting as "0". A NaN part makes the sum NaN. */
  function ToMinutes(t: string): Option<int>
  {
    var parts := Explode(':', t);
    var mm := if |parts| > 1 && parts[1] != "" then parts[1] else "0";
    HourMinute(ParseInt(parts[0]), ParseInt(mm))
  }

  /** hours * 60 + minutes, NaN when either is. */
  function HourMinute(h: Option<int>, m: Option<int>): Option<int>
  {
    if h.Some? && m.Some? then Some(h.value * 60 + m.value) else None
  }

  /** A comparison with NaN is false, so a break with an unreadable end never matches. */
  predicate InBreak(b: BreakTime, t: int)
  {
    match ToMinutes(b.start)
    case None => false
    case Some(a) =>
      match ToMinutes(b.end)
      case None => false
      case Some(e) => a <= t < e
  }

  /** isBreakTime: a non-empty time inside some break, the break's end excluded. */
  predicate IsBreakTime(s: Settings, time: string)
  {
    time != "" &&
    match ToMinutes(time)
    case None => false
    case Some(t) => exists i :: 0 <= i < |s.breakTimes| && InBreak(s.breakTimes[i], t)
  }

  /** Two digits read by parseInt. */
  lemma ParseTwoDigits(p: string, n: nat)
    requires |p| == 2 && AllDigits(p) && DigitValue(p[0]) * 10 + DigitValue(p[1]) == n
    ensures ParseInt(p) == Some(n)
  {
    assert !IsJsSpace(p[0]);
    assert JsTrimStart(p) == p;
    assert PhpValues.DigitRun(p) == 2;
    assert p[..2] == p && p[..1] == [p[0]] && [p[0]][..0] == [];
    assert DigitsValue([p[0]]) == DigitValue(p[0]);
  }

  /** Hour and minute written with two digits each fall apart at the colon between them. */
  lemma ClockParts(h: nat, mi: nat)
    requires h < 100 && mi < 100
    ensures Explode(':', Pad2(h) + ":" + Pad2(mi)) == [Pad2(h), Pad2(mi)]
  {
    var hh := Pad2(h);
    var mm := Pad2(mi);
    assert hh + ":" + mm == hh + [':'] + mm;
    assert ':' !in hh && ':' !in mm by {
      assert forall i :: 0 <= i < 2 ==> IsDigit(hh[i]) && IsDigit(mm[i]);
    }
    ExplodeCons(':', hh, mm);
    ExplodeJoin(':', [mm]);
  }

  lemma ReadsParts(s: string, hh: string, mm: string, h: int, mi: int)
    requires Explode(':', s) == [hh, mm] && mm != ""
    requires ParseInt(hh) == Some(h) && ParseInt(mm) == Some(mi)
    ensures ToMinutes(s) == Some(h * 60 + mi)
  {
    assert ToMinutes(s) == HourMinute(ParseInt(hh), ParseInt(mm));
  }

  lemma ParsePad2(n: nat)
    requires n < 100
    ensures ParseInt(Pad2(n)) == Some(n)
  {
    ParseTwoDigits(Pad2(n), n);
  }

  lemma ClockOf(h: nat, mi: nat)
    requires h < 100 && mi < 100
    ensures ToMinutes(Pad2(h) + ":" + Pad2(mi)) == Some(h * 60 + mi)
  {
    ClockParts(h, mi);
    ParsePad2(h);
    ParsePad2(mi);
    ReadsParts(Pad2(h) + ":" + Pad2(mi), Pad2(h), Pad2(mi), h, mi);
  }

  /** The helper reads a time written 'H:i' back as its minutes after midnight. */
  lemma ClockMinutes(t: nat)
    ensures ToMinutes(FormatHM(t)) == Some(t % 1440)
  {
    var m := t % 1440;
    var h, mi := m / 60, m % 60;
    assert h * 60 + mi == m;
    ClockOf(h, mi);
  }

  /** With one break whose ends and the time all read as minutes, the time is a break when
      it lies from the start up to, and not including, the end. */
  lemma OneBreak(s: Settings, b: BreakTime, time: string, a: int, e: int, t: int)
    requires s.breakTimes == [b] && time != ""
    requires ToMinutes(b.start) == Some(a) && ToMinutes(b.end) == Some(e) && ToMinutes(time) == Some(t)
    ensures IsBreakTime(s, time) <==> a <= t < e
  {
    BreakAmong(s.breakTimes, t);
    assert s.breakTimes[0] == b;
  }

  /** A time read as minutes falls in some break of a one-element list exactly when it
      falls in that break. */
  lemma BreakAmong(breaks: seq<BreakTime>, t: int)
    requires |breaks| == 1
    ensures (exists i :: 0 <= i < |breaks| && InBreak(breaks[i], t)) <==> InBreak(breaks[0], t)
  {
    if exists i :: 0 <= i < |breaks| && InBreak(breaks[i], t) {
      var i :| 0 <= i < |breaks| && InBreak(breaks[i], t);
      assert i == 0;
    }
  }

  /** With one break written 'H:i', a clock time is a break exactly when it lies in
      [start, end): the start belongs to the break and the end does not. */
  lemma BreakIsHalfOpen(start: nat, end: nat, t: nat)
    requires start < 1440 && end < 1440
    ensures var b := BreakTime(FormatHM(start), FormatHM(end));
            IsBreakTime(Configure(Given(None, None, Some([b]), None)), FormatHM(t))
            <==> start <= t % 1440 < end
  {
    assert start % 1440 == start && end % 1440 == end;
    ClockMinutes(start);
    ClockMinutes(end);
    ClockMinutes(t);
    var b := BreakTime(FormatHM(start), FormatHM(end));
    OneBreak(Configure(Given(None, None, Some([b]), None)), b, FormatHM(t), start, end, t % 1440);
  }

  /** With nothing configured the helper works Monday to Friday, up to 14 days ahead, with
      no holidays and no breaks. */
  lemma DefaultCalendar(d: Date, today: Date, time: string)
    requires Valid(d) && Valid(today)
    ensures var s := Configure(Given(None, None, None, None));
            && (IsDateAvailable(s, d, today)
                <==> 0 <= DayNumber(d) - DayNumber(today) <= 14
                     && WeekdayOf(d) != Saturday && WeekdayOf(d) != Sunday)
            && !IsHoliday(s, d)
            && !IsBreakTime(s, time)
  {
    WeekdayNameIsEnglish(d);
  }

  // ----- holidays -----

  /** Two decimal digits spell the number they are read as. */
  lemma DigitPairValue(p: string)
    requires |p| == 2 && AllDigits(p)
    ensures DigitsValue(p) == DigitValue(p[0]) * 10 + DigitValue(p[1])
  {
    assert p[..1] == [p[0]] && [p[0]][..0] == [];
    assert DigitsValue([p[0]]) == DigitValue(p[0]);
  }

  /** The pieces of a server-format date with a four-digit year. */
  lemma ServerFormatPieces(d: Date)
    requires Valid(d) && 1000 <= d.year <= 9999
    ensures var s := FormatDateForServer(d);
            |s| == 10 && s[..4] == NatToString(d.year) && s[4] == '-' && s[5..7] == Pad2(d.month)
            && s[7] == '-' && s[8..] == Pad2(d.day) && s[5..] == Pad2(d.month) + "-" + Pad2(d.day)
  {
    ServerFormatIsYmd(d);
    var y := NatToString(d.year);
    var s := FormatDateForServer(d);
    assert |y| == 4;
    assert s == y + ("-" + Pad2(d.month) + "-" + Pad2(d.day));
  }

  /** The date input's value: 'YYYY-MM-DD' naming a real date; None is a string the
      browser's date parser rejects. */
  function ParseDateInput(s: string): (r: Option<Date>)
    ensures r.Some? ==> Valid(r.value)
  {
    if |s| == 10 && AllDigits(s[..4]) && s[4] == '-' && AllDigits(s[5..7]) && s[7] == '-'
       && AllDigits(s[8..]) then
      var d := Date(DigitsValue(s[..4]), DigitsValue(s[5..7]), DigitsValue(s[8..]));
      if Valid(d) then Some(d) else None
    else None
  }

  /** A date written by formatDateForServer, with a four-digit year, reads back as itself. */
  lemma DateInputRoundTrip(d: Date)
    requires Valid(d) && 1000 <= d.year <= 9999
    ensures ParseDateInput(FormatDateForServer(d)) == Some(d)
  {
    var s := FormatDateForServer(d);
    ServerFormatPieces(d);
    NatToStringRoundTrip(d.year);
    DigitPairValue(Pad2(d.month));
    DigitPairValue(Pad2(d.day));
  }

  /** formatDateForServer is one-to-one on dates with four-digit years. */
  lemma ServerFormatInjective(d: Date, e: Date)
    requires Valid(d) && 1000 <= d.year <= 9999 && Valid(e) && 1000 <= e.year <= 9999
    requires FormatDateForServer(d) == FormatDateForServer(e)
    ensures d == e
  {
    DateInputRoundTrip(d);
    DateInputRoundTrip(e);
  }

  /** A full-date holiday entry marks that one date and no other. */
  lemma FullDateHoliday(s: Settings, d: Date, e: Date)
    requires Valid(d) && 1000 <= d.year <= 9999 && Valid(e) && 1000 <= e.year <= 9999
    requires s.holidays == [FormatDateForServer(e)]
    ensures IsHoliday(s, d) <==> d == e
  {
    ServerFormatIsYmd(e);
    if IsHoliday(s, d) {
      assert HolidayMatches(s.holidays[0], FormatDateForServer(d));
      ServerFormatInjective(d, e);
    } else {
      assert !HolidayMatches(s.holidays[0], FormatDateForServer(d));
    }
  }

  /** An 'MM-DD' entry marks that month and day in every year. */
  lemma YearlyHoliday(s: Settings, d: Date, month: nat, day: nat)
    requires Valid(d) && 1000 <= d.year <= 9999 && month < 100 && day < 100
    requires s.holidays == [Pad2(month) + "-" + Pad2(day)]
    ensures IsHoliday(s, d) <==> d.month == month && d.day == day
  {
    ServerFormatPieces(d);
    var ymd := FormatDateForServer(d);
    var h := Pad2(month) + "-" + Pad2(day);
    assert |h| == 5;
    if HolidayMatches(h, ymd) {
      assert h[..2] == Pad2(month) && h[3..] == Pad2(day);
      assert ymd[5..][..2] == Pad2(d.month) && ymd[5..][3..] == Pad2(d.day);
      Pad2Injective(month, d.month);
      Pad2Injective(day, d.day);
    }
    assert IsHoliday(s, d) <==> HolidayMatches(s.holidays[0], ymd);
  }

  // ----- the booking form -----

  const MsPerDay := 86400000

  /** The time select's value, 'HH:MM' on the 24-hour clock, as minutes after midnight;
      None is a string the browser's date parser rejects. */
  function ParseTimeInput(s: string): (r: Option<nat>)
    ensures r.Some? ==> r.value < 1440
  {
    if |s| == 5 && IsDigit(s[0]) && IsDigit(s[1]) && s[2] == ':' && IsDigit(s[3]) && IsDigit(s[4]) then
      var h := DigitValue(s[0]) * 10 + DigitValue(s[1]);
      var m := DigitValue(s[3]) * 10 + DigitValue(s[4]);
      if h < 24 && m < 60 then Some(h * 60 + m) else None
    else None
  }

  /** A time written 'H:i' reads back as its clock reading. */
  lemma TimeInputRoundTrip(t: nat)
    ensures ParseTimeInput(FormatHM(t)) == Some(t % 1440)
  {
    var m := t % 1440;
    var s := FormatHM(t);
    assert s[0..2] == Pad2(m / 60) && s[3..5] == Pad2(m % 60);
  }

  /** validateAppointmentForm: the chosen date at the chosen time, in local time, must not
      lie before now. A value the browser cannot read is an Invalid Date, which is never
      before anything, so such a form goes through. */
  predicate FormAccepted(date: string, time: string, today: Date, nowMs: nat)
    requires Valid(today)
  {
    match ParseDateInput(date)
    case None => true
    case Some(d) =>
      match ParseTimeInput(time)
      case None => true
      case Some(t) => !(DayNumber(d) * MsPerDay + t * 60000 < DayNumber(today) * MsPerDay + nowMs)
  }

  /** For a date and a time the page itself wrote, the form goes through exactly for a later
      day, or for today at a minute that has not started before now. */
  lemma FormAcceptsFuture(d: Date, t: nat, today: Date, nowMs: nat)
    requires Valid(d) && 1000 <= d.year <= 9999 && Valid(today)
    requires t < 1440 && nowMs < MsPerDay
    ensures FormAccepted(FormatDateForServer(d), FormatHM(t), today, nowMs)
            <==> DayNumber(d) > DayNumber(today) || (d == today && t * 60000 >= nowMs)
  {
    DateInputRoundTrip(d);
    TimeFieldReadBack(t);
    AcceptedWhenRead(FormatDateForServer(d), FormatHM(t), today, nowMs, d, t);
  }

  /** A minute of the day the page writes into the time field reads back as itself. */
  lemma TimeFieldReadBack(t: nat)
    requires t < 1440
    ensures ParseTimeInput(FormatHM(t)) == Some(t)
  {
    SmallRemainder(t, 1440);
    TimeInputRoundTrip(t);
  }

  lemma SmallRemainder(a: nat, n: nat)
    requires a < n
    ensures a % n == a
  {
  }

  /** A form whose date and time the browser reads as d and t goes through exactly for a
      later day, or for today from nowMs on. */
  lemma AcceptedWhenRead(date: string, time: string, today: Date, nowMs: nat, d: Date, t: nat)
    requires Valid(today) && Valid(d) && t < 1440 && nowMs < MsPerDay
    requires ParseDateInput(date) == Some(d) && ParseTimeInput(time) == Some(t)
    ensures FormAccepted(date, time, today, nowMs)
            <==> DayNumber(d) > DayNumber(today) || (d == today && t * 60000 >= nowMs)
  {
    MomentOrder(DayNumber(d), DayNumber(today), t, nowMs);
    if DayNumber(d) == DayNumber(today) {
      DayNumberInjective(d, today);
    }
  }

  /** A moment of day dn at minute t is not before day en at millisecond nowMs exactly when
      the day is later, or the same day from nowMs on. */
  lemma MomentOrder(dn: int, en: int, t: nat, nowMs: nat)
    requires t < 1440 && nowMs < MsPerDay
    ensures !(dn * MsPerDay + t * 60000 < en * MsPerDay + nowMs)
            <==> dn > en || (dn == en && t * 60000 >= nowMs)
  {
    if dn < en {
      assert dn * MsPerDay + MsPerDay <= en * MsPerDay;
    } else if dn > en {
      assert en * MsPerDay + MsPerDay <= dn * MsPerDay;
    }
  }

  /** A slot the server marks past today is refused by the form: the helpers agree on what
      is in the past (the server's now is in whole seconds, the browser's in milliseconds). */
  lemma PastSlotRefused(today: Date, t: nat, now: nat, nowMs: nat)
    requires Valid(today) && 1000 <= today.year <= 9999
    requires t < 1440 && now * 1000 <= nowMs < MsPerDay
    requires CalendarSettings.MakeSlot(t, true, now).isPast
    ensures !FormAccepted(FormatDateForServer(today), FormatHM(t), today, nowMs)
  {
    FormAcceptsFuture(today, t, today, nowMs);
  }

  // ----- the month grid -----

  /** A cell of the month grid: createDayElement's arguments -- the day of the month,
      whether it belongs to a neighbouring month, the month index (0 to 11, or one past
      either end for a neighbour) and the year. */
  datatype Cell = Cell(day: int, otherMonth: bool, month: int, year: int)

  /** createDayElement's correction of a month index one past either end of the year: the
      same month, counted from year 0. */
  function MonthWrap(month: int, year: int): (r: (int, int))
    ensures -1 <= month <= 12 ==> 0 <= r.0 <= 11 && r.1 * 12 + r.0 == year * 12 + month
  {
    if month < 0 then (11, year - 1) else if month > 11 then (0, year + 1) else (month, year)
  }

  /** The date a cell stands for. */
  function CellDate(c: Cell): Date
  {
    var w := MonthWrap(c.month, c.year);
    Date(w.1, w.0 + 1, c.day)
  }

  /** new Date(year, month, 0).getDate(): the length of the month before month index m. */
  function PrevMonthDays(year: int, m: int): int
    requires 0 <= m < 12
  {
    if m == 0 then DaysInMonth(year - 1, 12) else DaysInMonth(year, m)
  }

  /** getDay() of the first of the month turned to a Monday-first column. */
  function LeadingCount(year: int, m: int): nat
    requires year >= 1 && 0 <= m < 12
  {
    var g := GetDay(Date(year, m + 1, 1));
    if g == 0 then 6 else g - 1
  }

  /** How many cells of the next month fill the last row. */
  function Padding(total: nat): nat
  {
    if total % 7 == 0 then 0 else 7 - total % 7
  }

  /** count cells of one month, numbered from first. */
  function Run(count: nat, first: int, otherMonth: bool, month: int, year: int): (r: seq<Cell>)
    ensures |r| == count
    ensures forall k :: 0 <= k < count ==> r[k] == Cell(first + k, otherMonth, month, year)
  {
    if count == 0 then [] else Run(count - 1, first, otherMonth, month, year) + [Cell(first + count - 1, otherMonth, month, year)]
  }

  /** The cells renderCalendar appends: the last days of the previous month up to the
      first's column, the days of the month, then the first days of the next month up to
      the end of the row. */
  function Grid(year: int, m: int): seq<Cell>
    requires year >= 1 && 0 <= m < 12
  {
    Layout(LeadingCount(year, m), PrevMonthDays(year, m), DaysInMonth(year, m + 1), m, year)
  }

  /** The grid of a month of dim days whose first falls in column lead, after a month of
      prev days. */
  function Layout(lead: nat, prev: int, dim: nat, m: int, year: int): seq<Cell>
  {
    Run(lead, prev - lead + 1, true, m - 1, year)
    + Run(dim, 1, false, m, year)
    + Run(Padding(lead + dim), 1, true, m + 1, year)
  }

  lemma LayoutAt(lead: nat, prev: int, dim: nat, m: int, year: int, i: int)
    requires 0 <= i < lead + dim + Padding(lead + dim)
    ensures |Layout(lead, prev, dim, m, year)| == lead + dim + Padding(lead + dim)
            && Layout(lead, prev, dim, m, year)[i]
               == if i < lead then Cell(prev - (lead - 1 - i), true, m - 1, year)
                  else if i < lead + dim then Cell(i - lead + 1, false, m, year)
                  else Cell(i - lead - dim + 1, true, m + 1, year)
  {
    var a := Run(lead, prev - lead + 1, true, m - 1, year);
    var b := Run(dim, 1, false, m, year);
    var c := Run(Padding(lead + dim), 1, true, m + 1, year);
    if i < lead {
      assert (a + b + c)[i] == a[i];
    } else if i < lead + dim {
      assert (a + b + c)[i] == b[i - lead];
    } else {
      assert (a + b + c)[i] == c[i - lead - dim];
    }
  }

  /** Cell i of the grid, segment by segment. */
  lemma GridAt(year: int, m: int, i: int)
    requires year >= 1 && 0 <= m < 12
    requires 0 <= i < LeadingCount(year, m) + DaysInMonth(year, m + 1)
                      + Padding(LeadingCount(year, m) + DaysInMonth(year, m + 1))
    ensures var lead := LeadingCount(year, m);
            var dim := DaysInMonth(year, m + 1);
            |Grid(year, m)| == lead + dim + Padding(lead + dim)
            && Grid(year, m)[i]
               == if i < lead then Cell(PrevMonthDays(year, m) - (lead - 1 - i), true, m - 1, year)
                  else if i < lead + dim then Cell(i - lead + 1, false, m, year)
                  else Cell(i - lead - dim + 1, true, m + 1, year)
  {
    LayoutAt(LeadingCount(year, m), PrevMonthDays(year, m), DaysInMonth(year, m + 1), m, year, i);
  }

  /** The grid holds the leading cells, the month and the padding. */
  lemma GridLength(year: int, m: int)
    requires year >= 1 && 0 <= m < 12
    ensures var total := LeadingCount(year, m) + DaysInMonth(year, m + 1);
            |Grid(year, m)| == total + Padding(total)
  {
    GridAt(year, m, 0);
  }

  /** Cell `day` of the trailing run is the day-th of the next month. */
  lemma TrailingCell(year: int, m: int, day: int)
    requires year >= 1 && 0 <= m < 12
    requires 1 <= day <= Padding(LeadingCount(year, m) + DaysInMonth(year, m + 1))
    ensures var total := LeadingCount(year, m) + DaysInMonth(year, m + 1);
            total + day - 1 < |Grid(year, m)| && Grid(year, m)[total + day - 1] == Cell(day, true, m + 1, year)
  {
    GridAt(year, m, LeadingCount(year, m) + DaysInMonth(year, m + 1) + day - 1);
  }

  /** The shape of a layout: whole weeks with less than one week of padding, the month's
      days after the leading cells, in order. */
  lemma LayoutShape(lead: nat, prev: int, dim: nat, m: int, year: int)
    requires dim > 0
    ensures var g := Layout(lead, prev, dim, m, year);
            && |g| % 7 == 0 && lead + dim <= |g| < lead + dim + 7
            && (forall i :: 0 <= i < |g| ==> (g[i].otherMonth <==> !(lead <= i < lead + dim)))
            && (forall k :: 1 <= k <= dim ==> g[lead + k - 1] == Cell(k, false, m, year))
  {
    var g := Layout(lead, prev, dim, m, year);
    LayoutAt(lead, prev, dim, m, year, 0);
    forall i | 0 <= i < |g|
      ensures g[i].otherMonth <==> !(lead <= i < lead + dim)
    {
      LayoutAt(lead, prev, dim, m, year, i);
    }
    forall k | 1 <= k <= dim
      ensures g[lead + k - 1] == Cell(k, false, m, year)
    {
      LayoutAt(lead, prev, dim, m, year, lead + k - 1);
    }
  }

  /** The first's column, Monday first. */
  lemma LeadingIsWeekday(year: int, m: int)
    requires year >= 1 && 0 <= m < 12
    ensures LeadingCount(year, m) == IsoIndex(WeekdayOf(Date(year, m + 1, 1)))
  {
  }

  /** The grid has the first's weekday (Monday = 0) in leading cells, every day of the month
      in order, and whole weeks with less than one week of padding. */
  lemma GridShape(year: int, m: int)
    requires year >= 1 && 0 <= m < 12
    ensures var g := Grid(year, m);
            var lead := LeadingCount(year, m);
            var dim := DaysInMonth(year, m + 1);
            && lead == IsoIndex(WeekdayOf(Date(year, m + 1, 1)))
            && |g| % 7 == 0 && lead + dim <= |g| < lead + dim + 7
            && (forall i :: 0 <= i < |g| ==> (g[i].otherMonth <==> !(lead <= i < lead + dim)))
            && (forall k :: 1 <= k <= dim ==> g[lead + k - 1] == Cell(k, false, m, year))
  {
    LeadingIsWeekday(year, m);
    LayoutShape(LeadingCount(year, m), PrevMonthDays(year, m), DaysInMonth(year, m + 1), m, year);
  }

  /** The last day of a month is followed by the first of the next. */
  lemma MonthEnd(y: int, mo: int)
    requires y >= 1 && 1 <= mo <= 12
    ensures var last := Date(y, mo, DaysInMonth(y, mo));
            var next := if mo == 12 then Date(y + 1, 1, 1) else Date(y, mo + 1, 1);
            Valid(last) && Valid(next) && DayNumber(next) == DayNumber(last) + 1
  {
    NextDayNumber(Date(y, mo, DaysInMonth(y, mo)));
  }

  /** The days before the first, counted back from the last day of the previous month. */
  lemma LeadingDay(year: int, m: int, back: int)
    requires year >= 2 && 0 <= m < 12 && 0 <= back < 7
    ensures var py := if m == 0 then year - 1 else year;
            var pm := if m == 0 then 12 else m;
            var d := Date(py, pm, PrevMonthDays(year, m) - back);
            Valid(d) && DayNumber(d) == DayNumber(Date(year, m + 1, 1)) - 1 - back
  {
    var py := if m == 0 then year - 1 else year;
    var pm := if m == 0 then 12 else m;
    MonthEnd(py, pm);
  }

  /** The days after the last, counted from the first of the next month. */
  lemma TrailingDay(year: int, m: int, k: int)
    requires year >= 1 && 0 <= m < 12 && 0 <= k < 7
    ensures var ny := if m == 11 then year + 1 else year;
            var nm := if m == 11 then 1 else m + 2;
            var d := Date(ny, nm, k + 1);
            Valid(d) && DayNumber(d) == DayNumber(Date(year, m + 1, 1)) + DaysInMonth(year, m + 1) + k
  {
    MonthEnd(year, m + 1);
  }

  /** The date of cell i is i days after the Monday that begins the grid. */
  lemma CellDay(year: int, m: int, i: int)
    requires year >= 2 && 0 <= m < 12 && 0 <= i < |Grid(year, m)|
    ensures Valid(CellDate(Grid(year, m)[i]))
    ensures DayNumber(CellDate(Grid(year, m)[i])) == DayNumber(Date(year, m + 1, 1)) - LeadingCount(year, m) + i
  {
    var lead := LeadingCount(year, m);
    var dim := DaysInMonth(year, m + 1);
    GridAt(year, m, i);
    if i < lead {
      LeadingDay(year, m, lead - 1 - i);
    } else if i >= lead + dim {
      TrailingDay(year, m, i - lead - dim);
    }
  }

  /** Cell i stands for the date i days after the Monday that begins the grid: the cells
      are consecutive days. */
  lemma GridDays(year: int, m: int)
    requires year >= 2 && 0 <= m < 12
    ensures var g := Grid(year, m);
            var start := DayNumber(Date(year, m + 1, 1)) - LeadingCount(year, m);
            forall i :: 0 <= i < |g| ==> Valid(CellDate(g[i])) && DayNumber(CellDate(g[i])) == start + i
  {
    forall i | 0 <= i < |Grid(year, m)|
      ensures var c := CellDate(Grid(year, m)[i]);
              Valid(c) && DayNumber(c) == DayNumber(Date(year, m + 1, 1)) - LeadingCount(year, m) + i
    {
      CellDay(year, m, i);
    }
  }

  lemma ModShift(q: int, i: int)
    requires q >= 0 && i >= 0
    ensures (7 * q + i) % 7 == i % 7
  {
  }

  /** The grid starts on a Monday. */
  lemma GridStartsMonday(year: int, m: int)
    requires year >= 1 && 0 <= m < 12
    ensures DayNumber(Date(year, m + 1, 1)) - LeadingCount(year, m) >= 0
    ensures (DayNumber(Date(year, m + 1, 1)) - LeadingCount(year, m)) % 7 == 0
  {
    var first := Date(year, m + 1, 1);
    DayNumberNonNegative(first);
    IndexOfWeekday(DayNumber(first) % 7);
    LeadingIsWeekday(year, m);
    WeekStart(DayNumber(first));
  }

  lemma WeekStart(n: int)
    requires n >= 0
    ensures n - n % 7 >= 0 && (n - n % 7) % 7 == 0
  {
    ModShift(n / 7, 0);
  }

  /** Cell i is in weekday column i % 7, Monday first. */
  lemma CellColumn(year: int, m: int, i: int)
    requires year >= 2 && 0 <= m < 12 && 0 <= i < |Grid(year, m)|
    ensures Valid(CellDate(Grid(year, m)[i])) && IsoIndex(WeekdayOf(CellDate(Grid(year, m)[i]))) == i % 7
  {
    var weeks := MondayWeeks(year, m);
    CellDay(year, m, i);
    ColumnOfDate(CellDate(Grid(year, m)[i]), weeks, i);
  }

  /** The Monday that begins the grid is a whole number of weeks after day 0. */
  lemma MondayWeeks(year: int, m: int) returns (weeks: nat)
    requires year >= 1 && 0 <= m < 12
    ensures DayNumber(Date(year, m + 1, 1)) - LeadingCount(year, m) == 7 * weeks
  {
    GridStartsMonday(year, m);
    weeks := (DayNumber(Date(year, m + 1, 1)) - LeadingCount(year, m)) / 7;
  }

  /** A date i days after a day number that is a whole number of weeks is in weekday
      column i % 7. */
  lemma ColumnOfDate(d: Date, weeks: nat, i: int)
    requires Valid(d) && i >= 0 && DayNumber(d) == 7 * weeks + i
    ensures IsoIndex(WeekdayOf(d)) == i % 7
  {
    ModShift(weeks, i);
    DayNumberNonNegative(d);
    IndexOfWeekday(DayNumber(d) % 7);
  }

  /** Column i % 7 of the grid is the weekday Monday + i % 7. */
  lemma GridColumns(year: int, m: int)
    requires year >= 2 && 0 <= m < 12
    ensures var g := Grid(year, m);
            forall i :: 0 <= i < |g| ==> Valid(CellDate(g[i])) && IsoIndex(WeekdayOf(CellDate(g[i]))) == i % 7
  {
    forall i | 0 <= i < |Grid(year, m)|
      ensures Valid(CellDate(Grid(year, m)[i])) && IsoIndex(WeekdayOf(CellDate(Grid(year, m)[i]))) == i % 7
    {
      CellColumn(year, m, i);
    }
  }

  // ----- the calendar page -----

  /** What createDayElement makes of a cell: its classes, the appointment count badge and
      whether a click selects the date. */
  datatype DayView = DayView(
    day: int,
    otherMonth: bool,
    weekend: bool,
    holiday: bool,
    disabled: bool,
    isToday: bool,
    badge: Option<int>,
    clickable: bool)

  /** createDayElement. Cells of the neighbouring months get no classes, no badge and no
      click handler; a day of the month is clickable exactly when it is not disabled. */
  function DayElement(s: Settings, stats: map<string, int>, today: Date, c: Cell): (v: DayView)
    requires Valid(today)
    requires !c.otherMonth ==> Valid(CellDate(c))
    ensures v.day == c.day && v.otherMonth == c.otherMonth
    ensures v.clickable <==> !c.otherMonth && !v.disabled
    ensures v.clickable <==> !c.otherMonth && IsDateAvailable(s, CellDate(c), today)
    ensures c.otherMonth ==> !v.weekend && !v.holiday && !v.disabled && !v.isToday && v.badge.None?
    ensures v.badge.Some? ==> v.badge.value > 0
  {
    if c.otherMonth then DayView(c.day, true, false, false, false, false, None, false)
    else
      var date := CellDate(c);
      var key := FormatDateForServer(date);
      var count := if key in stats then stats[key] else 0;
      var available := IsDateAvailable(s, date, today);
      DayView(c.day, false, !IsWorkDay(s, date), IsHoliday(s, date), !available, date == today,
              if count > 0 then Some(count) else None, available)
  }

  /** days holds the elements of the first n cells of g, in order. */
  predicate ShowsCells(s: Settings, stats: map<string, int>, today: Date, days: seq<DayView>, g: seq<Cell>, n: int)
    requires Valid(today)
    requires forall j :: 0 <= j < |g| && !g[j].otherMonth ==> Valid(CellDate(g[j]))
  {
    n <= |days| && n <= |g| && forall j :: 0 <= j < n ==> days[j] == DayElement(s, stats, today, g[j])
  }

  /** Appending the element of the next cell shows one cell more. */
  lemma ShowsNext(s: Settings, stats: map<string, int>, today: Date, days: seq<DayView>, g: seq<Cell>)
    requires Valid(today)
    requires forall j :: 0 <= j < |g| && !g[j].otherMonth ==> Valid(CellDate(g[j]))
    requires ShowsCells(s, stats, today, days, g, |days|) && |days| < |g|
    ensures ShowsCells(s, stats, today, days + [DayElement(s, stats, today, g[|days|])], g, |days| + 1)
  {
  }

  /** The page's state object, as far as the calendar reads and writes it: the helper, the
      month on show, the per-day appointment counts last loaded, and the cells of the
      calendar body. */
  class CalendarPage {
    const settings: Settings
    var year: int
    var month: int
    var monthlyStats: map<string, int>
    var days: seq<DayView>

    /** The page opens on the current month with no counts loaded. */
    constructor(given: Given, today: Date)
      ensures settings == Configure(given)
      ensures year == today.year && month == today.month - 1
      ensures monthlyStats == map[] && days == []
    {
      settings := Configure(given);
      year := today.year;
      month := today.month - 1;
      monthlyStats := map[];
      days := [];
    }

    /** The body holds the elements of the first n cells of the grid of month mo of year
        y, in order. */
    predicate Shows(today: Date, y: int, mo: int, n: int)
      requires Valid(today) && y >= 1 && 0 <= mo < 12
      reads this
    {
      GridInMonthValid(y, mo);
      ShowsCells(settings, monthlyStats, today, days, Grid(y, mo), n)
    }

    /** renderCalendar: the body is emptied and refilled with one element per grid cell. */
    method RenderCalendar(today: Date)
      requires Valid(today) && year >= 1 && 0 <= month < 12
      modifies this`days
      ensures |days| == |Grid(year, month)|
      ensures forall i :: 0 <= i < |days| ==> days[i] == DayElement(settings, monthlyStats, today, Grid(year, month)[i])
    {
      var firstDay := Date(year, month + 1, 1);
      var daysInMonth := DaysInMonth(year, month + 1);
      var startingDayOfWeek: int := GetDay(firstDay);
      startingDayOfWeek := if startingDayOfWeek == 0 then 6 else startingDayOfWeek - 1;
      var daysInPrevMonth := PrevMonthDays(year, month);
      GridAt(year, month, 0);
      days := [];
      PreviousMonthDays(today, startingDayOfWeek, daysInPrevMonth);
      MonthDays(today, daysInMonth);
      var totalCells := |days|;
      var remainingCells := if totalCells % 7 == 0 then 0 else 7 - (totalCells % 7);
      NextMonthDays(today, remainingCells);
    }

    /** The first loop: the last days of the previous month, oldest first. */
    method PreviousMonthDays(today: Date, startingDayOfWeek: int, daysInPrevMonth: int)
      requires Valid(today) && year >= 1 && 0 <= month < 12
      requires startingDayOfWeek == LeadingCount(year, month) && daysInPrevMonth == PrevMonthDays(year, month)
      requires days == []
      modifies this`days
      ensures |days| == startingDayOfWeek && Shows(today, year, month, |days|)
    {
      GridAt(year, month, 0);
      var i := startingDayOfWeek - 1;
      while i >= 0
        invariant -1 <= i < startingDayOfWeek
        invariant |days| == startingDayOfWeek - 1 - i && Shows(today, year, month, |days|)
      {
        GridAt(year, month, |days|);
        AppendCell(today, Cell(daysInPrevMonth - i, true, month - 1, year));
        i := i - 1;
      }
    }

    /** The second loop: the days of the month. */
    method MonthDays(today: Date, daysInMonth: int)
      requires Valid(today) && year >= 1 && 0 <= month < 12
      requires daysInMonth == DaysInMonth(year, month + 1)
      requires |days| == LeadingCount(year, month) && Shows(today, year, month, |days|)
      modifies this`days
      ensures |days| == LeadingCount(year, month) + daysInMonth && Shows(today, year, month, |days|)
    {
      GridAt(year, month, 0);
      var day := 1;
      while day <= daysInMonth
        invariant 1 <= day <= daysInMonth + 1
        invariant |days| == LeadingCount(year, month) + day - 1 && Shows(today, year, month, |days|)
      {
        GridAt(year, month, |days|);
        AppendCell(today, Cell(day, false, month, year));
        day := day + 1;
      }
    }

    /** The third loop: the first days of the next month, up to the end of the row. */
    method NextMonthDays(today: Date, remainingCells: int)
      requires Valid(today) && year >= 1 && 0 <= month < 12
      requires |days| == LeadingCount(year, month) + DaysInMonth(year, month + 1)
      requires remainingCells == Padding(|days|) && Shows(today, year, month, |days|)
      modifies this`days
      ensures |days| == |Grid(year, month)| && Shows(today, year, month, |days|)
    {
      GridLength(year, month);
      var totalCells := |days|;
      var day := 1;
      while day <= remainingCells
        invariant 1 <= day <= remainingCells + 1
        invariant |days| == totalCells + day - 1 && Shows(today, year, month, |days|)
      {
        TrailingCell(year, month, day);
        AppendCell(today, Cell(day, true, month + 1, year));
        day := day + 1;
      }
    }

    /** Appends the element of the next grid cell, which is c. */
    method AppendCell(today: Date, c: Cell)
      requires Valid(today) && year >= 1 && 0 <= month < 12
      requires |days| < |Grid(year, month)| && Grid(year, month)[|days|] == c
      requires Shows(today, year, month, |days|)
      modifies this`days
      ensures |days| == old(|days|) + 1 && Shows(today, year, month, |days|)
    {
      GridInMonthValid(year, month);
      ShowsNext(settings, monthlyStats, today, days, Grid(year, month));
      days := days + [DayElement(settings, monthlyStats, today, c)];
    }
  }

  /** Every day of the month on show is a real date. */
  lemma GridInMonthValid(year: int, m: int)
    requires year >= 1 && 0 <= m < 12
    ensures forall j :: 0 <= j < |Grid(year, m)| && !Grid(year, m)[j].otherMonth ==> Valid(CellDate(Grid(year, m)[j]))
  {
    forall j | 0 <= j < |Grid(year, m)| && !Grid(year, m)[j].otherMonth
      ensures Valid(CellDate(Grid(year, m)[j]))
    {
      GridAt(year, m, j);
    }
  }

  /** After rendering, element i can be clicked exactly when it is a day of the month on
      show and that date is available. */
  lemma ClickableDays(s: Settings, stats: map<string, int>, today: Date, year: int, m: int, i: int)
    requires Valid(today) && year >= 1 && 0 <= m < 12 && 0 <= i < |Grid(year, m)|
    ensures var c := Grid(year, m)[i];
            var lead := LeadingCount(year, m);
            (!c.otherMonth ==> Valid(CellDate(c)))
            && (DayElement(s, stats, today, c).clickable
                <==> lead <= i < lead + DaysInMonth(year, m + 1)
                     && IsDateAvailable(s, Date(year, m + 1, i - lead + 1), today))
  {
    GridCell(year, m, i);
  }

  /** Cell i of the grid belongs to the month on show exactly when it lies past the leading
      cells and within the month's days, and then it is that day of the month. */
  lemma GridCell(year: int, m: int, i: int)
    requires year >= 1 && 0 <= m < 12 && 0 <= i < |Grid(year, m)|
    ensures var c := Grid(year, m)[i];
            var lead := LeadingCount(year, m);
            (!c.otherMonth <==> lead <= i < lead + DaysInMonth(year, m + 1))
            && (!c.otherMonth ==> CellDate(c) == Date(year, m + 1, i - lead + 1) && Valid(CellDate(c)))
  {
    GridLength(year, m);
    GridAt(year, m, i);
  }

  // ----- the day view's time slots -----

  /** A slot of the day view as the server sends it: its time, its flags, and how many
      appointments it lists (the owner's view lists them). */
  datatype DaySlot = DaySlot(time: string, isPast: bool, available: bool, bookings: nat)

  datatype SlotContent = OwnerAppointments | Bookable | Passed | OnBreak | Occupied

  /** createTimeSlot: the 'past' class and the content shown. */
  datatype SlotView = SlotView(past: bool, content: SlotContent)

  /** createTimeSlot's classification. The owner sees the appointments of a slot that has
      any; otherwise an available slot can be booked, and an unavailable one is shown as
      past, as a break, or else as occupied, in that order. */
  function CreateTimeSlot(s: Settings, isOwner: bool, slot: DaySlot): (v: SlotView)
    ensures v.past == slot.isPast
    ensures v.content == OwnerAppointments <==> isOwner && slot.bookings > 0
    ensures v.content == Bookable ==> slot.available
    ensures v.content == Passed ==> !slot.available && slot.isPast
    ensures v.content == OnBreak ==> !slot.available && !slot.isPast && IsBreakTime(s, slot.time)
    ensures v.content == Occupied ==> !slot.available && !slot.isPast && !IsBreakTime(s, slot.time)
  {
    var content :=
      if isOwner && slot.bookings > 0 then OwnerAppointments
      else if slot.available then Bookable
      else if slot.isPast then Passed
      else if IsBreakTime(s, slot.time) then OnBreak
      else Occupied;
    SlotView(slot.isPast, content)
  }

  /** The slots generateTimeSlots makes are shown as bookable until their time has passed
      and as past after it, never as a break or as occupied: the server already leaves the
      breaks out and marks nothing else unavailable. */
  lemma GeneratedSlotsShown(s: Settings, isOwner: bool, t: nat, isToday: bool, now: nat)
    ensures var slot := CalendarSettings.MakeSlot(t, isToday, now);
            var v := CreateTimeSlot(s, isOwner, DaySlot(slot.time, slot.isPast, slot.available, 0));
            v.content == (if slot.isPast then Passed else Bookable) && v.past == slot.isPast
  {
  }

  // ----- the edit form -----

  /** String.prototype.trimEnd. */
  function JsTrimEnd(s: string): (r: string)
    ensures |r| <= |s| && r == s[..|r|]
    ensures r == [] || !IsJsSpace(r[|r| - 1])
  {
    if |s| > 0 && IsJsSpace(s[|s| - 1]) then JsTrimEnd(s[..|s| - 1]) else s
  }

  /** String.prototype.trim. */
  function JsTrim(s: string): (r: string)
    ensures |r| <= |s|
    ensures r == [] || (!IsJsSpace(r[0]) && !IsJsSpace(r[|r| - 1]))
  {
    var t := JsTrimStart(s);
    var r := JsTrimEnd(t);
    assert r == [] || r[0] == t[0];
    r
  }

  /** x || '' for a field that is a string, missing or null. */
  function OrEmpty(o: Option<string>): string
  {
    match o
    case None => ""
    case Some(x) => x
  }

  /** The appointment the edit form was opened for, as the page's JSON has it; None is a
      field that is missing or null. */
  datatype ShownAppointment = ShownAppointment(
    date: Option<string>,
    time: Option<string>,
    clientName: Option<string>,
    clientPhone: Option<string>,
    ownerNotes: Option<string>)

  /** The edit form's fields: the new date and time, the name, the phone and the owner's
      notes. */
  datatype EditForm = EditForm(
    newDate: string,
    newTime: string,
    clientName: string,
    clientPhone: string,
    ownerNotes: string)

  /** updateData: the new date and time go together; None is a field not sent. */
  datatype UpdateData = UpdateData(
    schedule: Option<(string, string)>,
    clientName: Option<string>,
    clientPhone: Option<string>,
    ownerNotes: Option<string>)

  const NoChanges := UpdateData(None, None, None, None)

  /** What handleAppointmentUpdate puts into updateData: the date and time when both are
      filled in and either differs from the appointment's, the trimmed name when it is not
      empty and differs, the phone and the owner's notes when they differ. A field the
      appointment lacks differs from every string; missing notes count as empty. */
  function Changes(a: ShownAppointment, f: EditForm): UpdateData
  {
    var name := JsTrim(f.clientName);
    UpdateData(
      if f.newDate != "" && f.newTime != ""
         && (f.newDate != ConvertDate(OrEmpty(a.date)) || Some(f.newTime) != a.time)
      then Some((f.newDate, f.newTime)) else None,
      if name != "" && Some(name) != a.clientName then Some(name) else None,
      if Some(f.clientPhone) != a.clientPhone then Some(f.clientPhone) else None,
      if f.ownerNotes != OrEmpty(a.ownerNotes) then Some(f.ownerNotes) else None)
  }

  /** handleAppointmentUpdate: builds updateData field by field, raising hasChanges for each
      field it adds; without changes it only warns (None), otherwise it sends updateData. */
  method HandleAppointmentUpdate(a: ShownAppointment, f: EditForm) returns (r: Option<UpdateData>)
    ensures r == if Changes(a, f) == NoChanges then None else Some(Changes(a, f))
  {
    var updateData := NoChanges;
    var hasChanges := false;
    var newName := JsTrim(f.clientName);
    if f.newDate != "" && f.newTime != "" {
      var originalDate := ConvertDate(OrEmpty(a.date));
      if f.newDate != originalDate || Some(f.newTime) != a.time {
        updateData := updateData.(schedule := Some((f.newDate, f.newTime)));
        hasChanges := true;
      }
    }
    if newName != "" && Some(newName) != a.clientName {
      updateData := updateData.(clientName := Some(newName));
      hasChanges := true;
    }
    if Some(f.clientPhone) != a.clientPhone {
      updateData := updateData.(clientPhone := Some(f.clientPhone));
      hasChanges := true;
    }
    if f.ownerNotes != OrEmpty(a.ownerNotes) {
      updateData := updateData.(ownerNotes := Some(f.ownerNotes));
      hasChanges := true;
    }
    if !hasChanges {
      return None;
    }
    return Some(updateData);
  }

  /** Everything sent is the form's value and differs from the appointment's; everything
      that differs is sent, except a name left empty and a date or time without the other. */
  lemma ChangesAreDifferences(a: ShownAppointment, f: EditForm)
    ensures var u := Changes(a, f);
            && (u.schedule.Some? <==> f.newDate != "" && f.newTime != ""
                                      && (f.newDate != ConvertDate(OrEmpty(a.date)) || Some(f.newTime) != a.time))
            && (u.schedule.Some? ==> u.schedule.value == (f.newDate, f.newTime))
            && (u.clientName.Some? ==> (u.clientName.value == JsTrim(f.clientName)
                                        && u.clientName != a.clientName && u.clientName.value != ""))
            && (u.clientPhone.Some? <==> Some(f.clientPhone) != a.clientPhone)
            && (u.clientPhone.Some? ==> u.clientPhone.value == f.clientPhone)
            && (u.ownerNotes.Some? <==> f.ownerNotes != OrEmpty(a.ownerNotes))
            && (u.ownerNotes.Some? ==> u.ownerNotes.value == f.ownerNotes)
  {
  }

  /** The form as openEditModal fills it: the name, phone and notes or '' for each, the
      date converted for the date input, and no new time chosen yet. */
  function Prefilled(a: ShownAppointment): EditForm
  {
    EditForm(ConvertDate(OrEmpty(a.date)), "", OrEmpty(a.clientName), OrEmpty(a.clientPhone),
             OrEmpty(a.ownerNotes))
  }

  /** Submitting the form as it was opened sends nothing, provided the name has no
      surrounding white space -- and the appointment has a phone: a missing phone is
      prefilled as '' and then counts as a change. */
  lemma UntouchedFormSendsNothing(a: ShownAppointment)
    requires a.clientName.Some? ==> JsTrim(a.clientName.value) == a.clientName.value
    ensures Changes(a, Prefilled(a)) == NoChanges <==> a.clientPhone.Some?
  {
    var f := Prefilled(a);
    if a.clientName.None? {
      assert JsTrim("") == "";
    }
  }

  // ----- the date converters and the status maps -----

  /** convertDateToInputFormat and convertDateToServerFormat, which have the same body: a
      'dd.mm.yyyy' string (three parts around '.') becomes 'yyyy-mm-dd' with month and day
      padded to two digits; anything else, '' included, is returned as it is. */
  function ConvertDate(s: string): string
  {
    if s == "" then ""
    else if '.' in s && |Explode('.', s)| == 3 then
      var parts := Explode('.', s);
      parts[2] + "-" + PadStart(parts[1], 2, '0') + "-" + PadStart(parts[0], 2, '0')
    else s
  }

  /** formatDateForDisplay: day and month with two digits, then the year. */
  function FormatDateForDisplay(d: Date): string
    requires Valid(d)
  {
    Pad2(d.day) + "." + Pad2(d.month) + "." + NatToString(d.year)
  }

  /** Three dot-free pieces joined with '.' fall apart into those pieces. */
  lemma DotPieces(a: string, b: string, c: string)
    requires '.' !in a && '.' !in b && '.' !in c
    ensures Explode('.', a + "." + b + "." + c) == [a, b, c]
  {
    assert a + "." + b + "." + c == a + ['.'] + (b + ['.'] + c);
    ExplodeCons('.', a, b + ['.'] + c);
    ExplodeCons('.', b, c);
    ExplodeJoin('.', [c]);
  }

  /** "dd.mm.yy" with two-character, dot-free day and month converts to "yy-mm-dd". */
  lemma ConvertPieces(dd: string, mm: string, yy: string)
    requires |dd| == 2 && |mm| == 2
    requires '.' !in dd && '.' !in mm && '.' !in yy
    ensures ConvertDate(dd + "." + mm + "." + yy) == yy + "-" + mm + "-" + dd
  {
    var s := dd + "." + mm + "." + yy;
    DotPieces(dd, mm, yy);
    assert s[2] == '.';
  }

  /** A date the page displays converts to the date the helper sends to the server. */
  lemma DisplayRoundTrip(d: Date)
    requires Valid(d)
    ensures ConvertDate(FormatDateForDisplay(d)) == FormatDateForServer(d)
  {
    var dd := Pad2(d.day);
    var mm := Pad2(d.month);
    var yy := NatToString(d.year);
    assert '.' !in dd && '.' !in mm && '.' !in yy by {
      assert forall i :: 0 <= i < 2 ==> IsDigit(dd[i]) && IsDigit(mm[i]);
      assert forall i :: 0 <= i < |yy| ==> IsDigit(yy[i]);
    }
    ConvertPieces(dd, mm, yy);
  }

  /** Padding with '0' adds no '.'. */
  lemma PadKeepsNoDot(p: string)
    requires '.' !in p
    ensures '.' !in PadStart(p, 2, '0')
  {
    var r := PadStart(p, 2, '0');
    forall i | 0 <= i < |r|
      ensures r[i] != '.'
    {
      if i >= |r| - |p| {
        assert r[i] == r[|r| - |p|..][i - (|r| - |p|)];
      }
    }
  }

  /** Converting twice is converting once: a converted date holds no '.'. */
  lemma ConvertIdempotent(s: string)
    ensures ConvertDate(ConvertDate(s)) == ConvertDate(s)
  {
    if s != "" && '.' in s && |Explode('.', s)| == 3 {
      var parts := Explode('.', s);
      ExplodePartsHaveNoSeparator('.', s);
      assert '.' !in parts[0] && '.' !in parts[1] && '.' !in parts[2];
      PadKeepsNoDot(parts[1]);
      PadKeepsNoDot(parts[0]);
      var r := ConvertDate(s);
      assert r == parts[2] + "-" + PadStart(parts[1], 2, '0') + "-" + PadStart(parts[0], 2, '0');
      assert '.' !in r;
    }
  }

  /** The status column's value as the page's JSON writes it. */
  function StatusName(st: Status): string
  {
    match st
    case Pending => "pending"
    case Confirmed => "confirmed"
    case Cancelled => "cancelled"
    case Completed => "completed"
  }

  /** getStatusText: the Russian label of a known status, else the status itself. */
  function GetStatusText(status: string): string
  {
    if status == "pending" then "Ожидает"
    else if status == "confirmed" then "Подтверждена"
    else if status == "cancelled" then "Отменена"
    else if status == "completed" then "Выполнена"
    else status
  }

  /** getStatusColor: the badge colour of a known status, else 'secondary'. */
  function GetStatusColor(status: string): string
  {
    if status == "pending" then "warning"
    else if status == "confirmed" then "success"
    else if status == "cancelled" then "danger"
    else if status == "completed" then "info"
    else "secondary"
  }

  /** The four statuses get four different labels and four different colours, none of them
      the fallback. */
  lemma StatusMaps(st: Status, other: Status)
    ensures GetStatusText(StatusName(st)) != StatusName(st) && GetStatusColor(StatusName(st)) != "secondary"
    ensures GetStatusText(StatusName(st)) == GetStatusText(StatusName(other)) ==> st == other
    ensures GetStatusColor(StatusName(st)) == GetStatusColor(StatusName(other)) ==> st == other
  {
  }

  /** Any other value is shown as it is, in the 'secondary' colour, and only such a value is
      shown in that colour. */
  lemma UnknownStatus(status: string)
    ensures (forall s: Status :: status != StatusName(s)) <==> GetStatusColor(status) == "secondary"
    ensures (forall s: Status :: status != StatusName(s)) ==> GetStatusText(status) == status
  {
    if GetStatusColor(status) == "secondary" {
      forall s: Status
        ensures status != StatusName(s)
      {
      }
    } else {
      var s: Status :| GetStatusColor(status) == GetStatusColor(StatusName(s)) && status == StatusName(s);
    }
  }
}
