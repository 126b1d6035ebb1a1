/** The calendar policy of a company (the HasCalendarSettings trait): its stored settings
    resolved against the defaults, holidays, work days, breaks, and the time slots of a day.
    Every operation reads the company's stored settings `stored` afresh, as the trait reads
    $this->settings. */
module CalendarSettings {
  import opened Wrappers
  import opened Text
  import opened Dates
  import opened PhpValues

  /** What getCalendarSettings() returns. The work hours, work days, holidays and breaks keep
      the stored JSON value as it is (only the shape of the three lists is checked); the
      numbers and flags are cast. */
  datatype Settings = Settings(
    workStartTime: Value,
    workEndTime: Value,
    interval: int,
    daysAhead: int,
    workDays: Value,
    emailNotifications: bool,
    requireConfirmation: bool,
    holidays: Value,
    breakTimes: Value,
    maxPerSlot: int)

  /** Monday to Friday. */
  function DefaultWorkDays(): Value
  {
    List([Str("monday"), Str("tuesday"), Str("wednesday"), Str("thursday"), Str("friday")])
  }

  /** A value is_array() accepts and empty() rejects. */
  predicate NonEmptyArray(v: Value)
  {
    v.Array? && |v.entries| > 0
  }

  /** $settings[$key] ?? $default for a setting kept as stored. */
  function StoredSetting(stored: Value, key: string, default: Value): (v: Value)
    ensures Unset(stored, key) ==> v == default
    ensures !Unset(stored, key) ==> Some(v) == Lookup(stored, key)
  {
    Coalesce(stored, key, default)
  }

  /** (int)($settings[$key] ?? $default). */
  function IntSetting(stored: Value, key: string, default: int): (n: int)
    ensures n == if Unset(stored, key) then default else ToInt(Lookup(stored, key).value)
  {
    ToInt(Coalesce(stored, key, Int(default)))
  }

  /** (bool)($settings[$key] ?? $default). */
  predicate BoolSetting(stored: Value, key: string, default: bool)
    ensures BoolSetting(stored, key, default) == if Unset(stored, key) then default else ToBool(Lookup(stored, key).value)
  {
    ToBool(Coalesce(stored, key, Bool(default)))
  }

  /** A list setting after its validation: kept when the stored value passes `ok`,
      otherwise the default. */
  function ListSetting(stored: Value, key: string, default: Value, ok: Value -> bool): (v: Value)
    requires ok(default)
    ensures ok(v)
    ensures v == if !Unset(stored, key) && ok(Lookup(stored, key).value) then Lookup(stored, key).value else default
  {
    var v := Coalesce(stored, key, default);
    if ok(v) then v else default
  }

  predicate IsArray(v: Value)
  {
    v.Array?
  }

  /** The stored settings merged over the defaults: 09:00 to 18:00, 30-minute slots, 14
      days ahead, Monday to Friday, e-mail notifications on, no confirmation required, no
      holidays, no breaks, one booking per slot. A work-day list that is not a non-empty
      array, and holiday or break lists that are not arrays, fall back to their defaults.
      (A missing settings column, null, reads as the empty array: every key is unset.) */
  function GetCalendarSettings(stored: Value): (s: Settings)
    ensures NonEmptyArray(s.workDays) && s.holidays.Array? && s.breakTimes.Array?
  {
    Settings(
      StoredSetting(stored, "work_start_time", Str("09:00")),
      StoredSetting(stored, "work_end_time", Str("18:00")),
      IntSetting(stored, "appointment_interval", 30),
      IntSetting(stored, "appointment_days_ahead", 14),
      ListSetting(stored, "work_days", DefaultWorkDays(), NonEmptyArray),
      BoolSetting(stored, "email_notifications", true),
      BoolSetting(stored, "require_confirmation", false),
      ListSetting(stored, "holidays", Array([]), IsArray),
      ListSetting(stored, "break_times", Array([]), IsArray),
      IntSetting(stored, "max_appointments_per_slot", 1))
  }

  /** Settings nobody has stored are the defaults. */
  lemma DefaultSettings()
    ensures GetCalendarSettings(Null) == Settings(Str("09:00"), Str("18:00"), 30, 14, DefaultWorkDays(),
                                                  true, false, Array([]), Array([]), 1)
  {
  }

  /** isHoliday: the date written Y-m-d is in the holiday list. */
  predicate IsHoliday(stored: Value, d: Date)
    requires Valid(d)
  {
    InArray(FormatYmd(d), GetCalendarSettings(stored).holidays)
  }

  /** isWorkDay: the weekday's lower-case English name is in the work-day list and the date
      is not a holiday. */
  predicate IsWorkDay(stored: Value, d: Date)
    requires Valid(d)
  {
    InArray(EnglishName(WeekdayOf(d)), GetCalendarSettings(stored).workDays) && !IsHoliday(stored, d)
  }

  /** A date whose Y-m-d is an entry of the stored holiday list is a holiday, and so not a
      work day whatever the work-day list says. */
  lemma ListedHoliday(stored: Value, d: Date, holidays: seq<Entry>, i: nat)
    requires Valid(d)
    requires Lookup(stored, "holidays") == Some(Array(holidays))
    requires i < |holidays| && holidays[i].value == Str(FormatYmd(d))
    ensures IsHoliday(stored, d) && !IsWorkDay(stored, d)
  {
    assert GetCalendarSettings(stored).holidays == Array(holidays);
    assert LooseEqualsText(FormatYmd(d), holidays[i].value);
  }

  /** Without a stored holiday list no date is a holiday. */
  lemma NoHolidays(stored: Value, d: Date)
    requires Valid(d)
    requires Unset(stored, "holidays")
    ensures !IsHoliday(stored, d)
  {
    assert GetCalendarSettings(stored).holidays == Array([]);
  }

  /** A date whose lower-case English day name is an entry of the stored non-empty work-day
      list is a work day unless it is a holiday. */
  lemma ListedWorkDay(stored: Value, d: Date, days: seq<Entry>, i: nat)
    requires Valid(d)
    requires Lookup(stored, "work_days") == Some(Array(days))
    requires i < |days| && days[i].value == Str(EnglishName(WeekdayOf(d)))
    ensures IsWorkDay(stored, d) <==> !IsHoliday(stored, d)
  {
    assert GetCalendarSettings(stored).workDays == Array(days);
    assert LooseEqualsText(EnglishName(WeekdayOf(d)), days[i].value);
  }

  /** Without a usable stored work-day list, the work days are Monday to Friday minus the
      holidays. */
  lemma DefaultWorkWeek(stored: Value, d: Date)
    requires Valid(d)
    requires Unset(stored, "work_days") || !NonEmptyArray(Lookup(stored, "work_days").value)
    ensures IsWorkDay(stored, d) <==>
              WeekdayOf(d) != Saturday && WeekdayOf(d) != Sunday && !IsHoliday(stored, d)
  {
    assert GetCalendarSettings(stored).workDays == DefaultWorkDays();
    DefaultDayNames(WeekdayOf(d));
  }

  /** The default list names Monday to Friday. */
  lemma DefaultDayNames(w: Weekday)
    ensures InArray(EnglishName(w), DefaultWorkDays()) <==> w != Saturday && w != Sunday
  {
    var days := DefaultWorkDays();
    if w != Saturday && w != Sunday {
      assert LooseEqualsText(EnglishName(w), days.entries[IsoIndex(w)].value);
    } else {
      forall i | 0 <= i < |days.entries|
        ensures !LooseEqualsText(EnglishName(w), days.entries[i].value)
      {
      }
    }
  }

  // ----- breaks -----

  /** Carbon::createFromFormat('H:i', $break[$key]) for one entry of the break list. None
      (an exception) when the entry is not an array holding a string under the key (PHP
      then warns, which the framework turns into an exception, or passes on a value the
      library rejects) or the string does not parse. */
  function BreakBound(b: Value, key: string): Option<nat>
  {
    match Lookup(b, key)
    case Some(Str(x)) => ParseHM(x)
    case _ => None
  }

  /** $time->between($a, $b, true): inclusive at both ends, the bounds taken in either
      order. */
  predicate BetweenInclusive(t: int, a: int, b: int)
  {
    if a <= b then a <= t <= b else b <= t <= a
  }

  /** The two ends of a break, minutes after midnight. */
  datatype Span = Span(start: nat, end: nat)

  /** One entry of the break list as the loop body reads it: its start and its end, or
      None when either cannot be read. */
  function ReadBreak(b: Value): Option<Span>
  {
    var start := BreakBound(b, "start");
    var end := BreakBound(b, "end");
    if start.Some? && end.Some? then Some(Span(start.value, end.value)) else None
  }

  function ReadBreaks(es: seq<Entry>): (spans: seq<Option<Span>>)
    ensures |spans| == |es|
    ensures forall i :: 0 <= i < |es| ==> spans[i] == ReadBreak(es[i].value)
  {
    seq(|es|, i requires 0 <= i < |es| => ReadBreak(es[i].value))
  }

  /** How a break's ends are compared: isBreakTime of the calendar policy includes both
      ends and takes them in either order; the bot's slot search includes the start only. */
  datatype BoundRule = Inclusive | HalfOpen

  /** t lies in the break under the rule. */
  predicate InBreak(rule: BoundRule, t: nat, span: Span)
  {
    match rule
    case Inclusive => BetweenInclusive(t, span.start, span.end)
    case HalfOpen => span.start <= t < span.end
  }

  /** The foreach over the break entries: it stops at the first entry that holds the time
      t, and throws at the first entry it cannot read. */
  function BreakScan(rule: BoundRule, spans: seq<Option<Span>>, t: nat): Result<bool>
  {
    if spans == [] then Ok(false)
    else if spans[0].None? then Thrown
    else if InBreak(rule, t, spans[0].value) then Ok(true)
    else BreakScan(rule, spans[1..], t)
  }

  /** The break list of the resolved settings. */
  function BreakList(stored: Value): (es: seq<Entry>)
    ensures es == GetCalendarSettings(stored).breakTimes.entries
  {
    ListSetting(stored, "break_times", Array([]), IsArray).entries
  }

  /** What isBreakTime($time) gives: an exception when the time itself does not parse,
      otherwise the scan of the breaks. */
  function BreakTimeResult(stored: Value, time: string): Result<bool>
  {
    match ParseHM(time)
    case None => Thrown
    case Some(t) => BreakScan(Inclusive, ReadBreaks(BreakList(stored)), t)
  }

  method IsBreakTime(stored: Value, time: string) returns (r: Result<bool>)
    ensures r == BreakTimeResult(stored, time)
  {
    var settings := GetCalendarSettings(stored);
    var timeCarbon := ParseHM(time);
    if timeCarbon.None? {
      return Thrown;
    }
    var breaks := settings.breakTimes.entries;
    ghost var spans := ReadBreaks(breaks);
    var i := 0;
    while i < |breaks|
      invariant 0 <= i <= |breaks|
      invariant BreakScan(Inclusive, spans[i..], timeCarbon.value) == BreakScan(Inclusive, spans, timeCarbon.value)
    {
      var breakStart := BreakBound(breaks[i].value, "start");
      var breakEnd := BreakBound(breaks[i].value, "end");
      if breakStart.None? || breakEnd.None? {
        return Thrown;
      }
      if BetweenInclusive(timeCarbon.value, breakStart.value, breakEnd.value) {
        return Ok(true);
      }
      assert spans[i..][1..] == spans[i + 1..];
      i := i + 1;
    }
    return Ok(false);
  }

  /** The scan passes over every entry of spans: each is readable and none holds t. */
  predicate PassesOver(rule: BoundRule, spans: seq<Option<Span>>, t: nat)
  {
    forall j :: 0 <= j < |spans| ==> spans[j].Some? && !InBreak(rule, t, spans[j].value)
  }

  /** With readable entries, a time is a break time exactly when some break holds it. */
  lemma {:induction false} BreakScanMeaning(rule: BoundRule, spans: seq<Option<Span>>, t: nat)
    requires forall i :: 0 <= i < |spans| ==> spans[i].Some?
    ensures BreakScan(rule, spans, t) == Ok(exists i :: 0 <= i < |spans| && InBreak(rule, t, spans[i].value))
  {
    if spans != [] {
      BreakScanMeaning(rule, spans[1..], t);
      if !InBreak(rule, t, spans[0].value) {
        if exists i :: 0 <= i < |spans| && InBreak(rule, t, spans[i].value) {
          var i :| 0 <= i < |spans| && InBreak(rule, t, spans[i].value);
          assert spans[1..][i - 1] == spans[i];
        }
      }
    }
  }

  /** Reaching an unreadable entry, past readable entries that do not hold the time,
      throws. */
  lemma {:induction false} ScanReachesUnreadable(rule: BoundRule, spans: seq<Option<Span>>, t: nat, k: nat)
    requires k < |spans| && spans[k].None? && PassesOver(rule, spans[..k], t)
    ensures BreakScan(rule, spans, t) == Thrown
    decreases k
  {
    if k > 0 {
      assert spans[..k][0] == spans[0];
      assert spans[1..][..k - 1] == spans[..k][1..];
      ScanReachesUnreadable(rule, spans[1..], t, k - 1);
    }
  }

  /** A scan that throws has reached an unreadable entry k, past readable entries that do
      not hold the time. */
  lemma {:induction false} ScanThrowWitness(rule: BoundRule, spans: seq<Option<Span>>, t: nat) returns (k: nat)
    requires BreakScan(rule, spans, t) == Thrown
    ensures k < |spans| && spans[k].None? && PassesOver(rule, spans[..k], t)
  {
    if spans[0].None? {
      k := 0;
    } else {
      var j := ScanThrowWitness(rule, spans[1..], t);
      k := j + 1;
      assert spans[..k] == [spans[0]] + spans[1..][..j];
    }
  }

  /** The check throws exactly when the scan reaches an unreadable entry: one preceded only
      by readable entries that do not hold the time. */
  lemma BreakScanThrows(rule: BoundRule, spans: seq<Option<Span>>, t: nat)
    ensures BreakScan(rule, spans, t) == Thrown <==>
              exists k :: 0 <= k < |spans| && spans[k].None? && PassesOver(rule, spans[..k], t)
  {
    if BreakScan(rule, spans, t) == Thrown {
      var k := ScanThrowWitness(rule, spans, t);
    }
    forall k | 0 <= k < |spans| && spans[k].None? && PassesOver(rule, spans[..k], t)
      ensures BreakScan(rule, spans, t) == Thrown
    {
      ScanReachesUnreadable(rule, spans, t, k);
    }
  }

  // ----- the slots of a day -----

  /** One entry of generateTimeSlots: the time 'H:i', whether it has passed, and whether it
      can be booked. */
  datatype Slot = Slot(time: string, isPast: bool, available: bool)

  /** createFromFormat('H:i', ...) of a stored work-hours value. */
  function WorkTime(v: Value): Option<nat>
  {
    if v.Str? then ParseHM(v.s) else None
  }

  /** The slot at t minutes after midnight; `now` is the current time of day in seconds. */
  function MakeSlot(t: nat, isToday: bool, now: nat): (s: Slot)
    ensures s.time == FormatHM(t)
    ensures s.available == !s.isPast
    ensures s.isPast <==> isToday && t * 60 < now
  {
    var isPast := isToday && t * 60 < now;
    Slot(FormatHM(t), isPast, !isPast)
  }

  function SlotsAt(ts: seq<nat>, isToday: bool, now: nat): (slots: seq<Slot>)
  {
    seq(|ts|, i requires 0 <= i < |ts| => MakeSlot(ts[i], isToday, now))
  }

  /** The times the loop visits: t, t + interval, t + 2 * interval, ... while below end. */
  function Steps(t: nat, end: nat, interval: int): seq<nat>
    requires interval > 0
    decreases if t >= end then 0 else end - t
  {
    if t >= end then [] else [t] + Steps(t + interval, end, interval)
  }

  /** The loop's visits are exactly the multiples of the interval past t that lie below end. */
  lemma {:induction false} StepsAt(t: nat, end: nat, interval: int)
    requires interval > 0
    ensures forall k :: 0 <= k < |Steps(t, end, interval)| ==> Steps(t, end, interval)[k] == t + k * interval
    ensures forall k: nat :: t + k * interval < end ==> k < |Steps(t, end, interval)|
    decreases if t >= end then 0 else end - t
  {
    if t < end {
      var rest := Steps(t + interval, end, interval);
      StepsAt(t + interval, end, interval);
      forall k | 1 <= k < |rest| + 1
        ensures Steps(t, end, interval)[k] == t + k * interval
      {
        assert Steps(t, end, interval)[k] == rest[k - 1];
        assert (t + interval) + (k - 1) * interval == t + k * interval;
      }
      forall k: nat | t + k * interval < end
        ensures k < |Steps(t, end, interval)|
      {
        if k > 0 {
          assert (t + interval) + (k - 1) * interval == t + k * interval;
        }
      }
    }
  }

  /** The break check of the loop at t minutes after midnight: isBreakTime of its clock
      reading written 'H:i' (BreakCheckAt shows the two agree). */
  function BreakCheck(stored: Value): nat -> Result<bool>
  {
    (u: nat) => BreakScan(Inclusive, ReadBreaks(BreakList(stored)), u % 1440)
  }

  /** The while loop of generateTimeSlots from time t on, as a value, for a break check
      `check`: the times kept (those the check says are outside every break), or Thrown
      when a check throws. */
  function KeptTimes(check: nat -> Result<bool>, t: nat, end: nat, interval: int): Result<seq<nat>>
    requires interval > 0
    decreases if t >= end then 0 else end - t
  {
    if t >= end then Ok([])
    else match check(t)
      case Thrown => Thrown
      case Ok(isBreak) =>
        match KeptTimes(check, t + interval, end, interval)
        case Thrown => Thrown
        case Ok(rest) => Ok(if isBreak then rest else [t] + rest)
  }

  /** The first visit is t, then the visits from t + interval on. */
  lemma StepsUnfold(t: nat, end: nat, interval: int, u: nat)
    requires interval > 0 && t < end
    ensures u in Steps(t, end, interval) <==> u == t || u in Steps(t + interval, end, interval)
  {
    assert Steps(t, end, interval) == [t] + Steps(t + interval, end, interval);
  }

  /** Every visit lies at or past the start. */
  lemma {:induction false} StepsFrom(t: nat, end: nat, interval: int, u: nat)
    requires interval > 0 && u in Steps(t, end, interval)
    ensures t <= u < end
    decreases if t >= end then 0 else end - t
  {
    StepsUnfold(t, end, interval, u);
    if u != t {
      StepsFrom(t + interval, end, interval, u);
    }
  }

  /** The loop throws exactly when the break check of some visited time throws. */
  lemma {:induction false} KeptTimesThrows(check: nat -> Result<bool>, t: nat, end: nat, interval: int)
    requires interval > 0
    ensures KeptTimes(check, t, end, interval).Thrown? <==>
              exists u :: u in Steps(t, end, interval) && check(u).Thrown?
    decreases if t >= end then 0 else end - t
  {
    if t < end {
      KeptTimesThrows(check, t + interval, end, interval);
      forall u ensures u in Steps(t, end, interval) <==> u == t || u in Steps(t + interval, end, interval) {
        StepsUnfold(t, end, interval, u);
      }
    }
  }

  /** A loop that does not throw keeps exactly the visited times outside the breaks, in
      increasing order. */
  lemma {:induction false} KeptTimesContents(check: nat -> Result<bool>, t: nat, end: nat, interval: int)
    requires interval > 0
    requires KeptTimes(check, t, end, interval).Ok?
    ensures var ts := KeptTimes(check, t, end, interval).value;
              forall u :: u in ts <==> u in Steps(t, end, interval) && check(u) == Ok(false)
    ensures var ts := KeptTimes(check, t, end, interval).value;
              forall i, j :: 0 <= i < j < |ts| ==> ts[i] < ts[j]
    decreases if t >= end then 0 else end - t
  {
    if t < end {
      KeptTimesContents(check, t + interval, end, interval);
      var rest := KeptTimes(check, t + interval, end, interval).value;
      forall u ensures u in Steps(t, end, interval) <==> u == t || u in Steps(t + interval, end, interval) {
        StepsUnfold(t, end, interval, u);
      }
      forall u | u in rest ensures t < u {
        StepsFrom(t + interval, end, interval, u);
      }
      var ts := KeptTimes(check, t, end, interval).value;
      if check(t) == Ok(false) {
        assert ts == [t] + rest;
        forall i, j | 0 <= i < j < |ts| ensures ts[i] < ts[j] {
          assert ts[j] == rest[j - 1] && rest[j - 1] in rest;
          if i > 0 {
            assert ts[i] == rest[i - 1];
          }
        }
      }
    }
  }

  /** What generateTimeSlots($date) returns; `today` is the current date and `now` the
      current time of day in seconds. A date that is not a work day has no slots; an
      unreadable start or end time throws. */
  function TimeSlots(stored: Value, date: Date, today: Date, now: nat): Result<seq<Slot>>
    requires Valid(date)
    requires GetCalendarSettings(stored).interval > 0
  {
    if !IsWorkDay(stored, date) then Ok([])
    else
      var s := GetCalendarSettings(stored);
      match WorkTime(s.workStartTime)
      case None => Thrown
      case Some(start) =>
        match WorkTime(s.workEndTime)
        case None => Thrown
        case Some(end) => DaySlots(BreakCheck(stored), start, end, s.interval, date == today, now)
  }

  /** The slots the loop yields from start to end. */
  function DaySlots(check: nat -> Result<bool>, start: nat, end: nat, interval: int, isToday: bool, now: nat): Result<seq<Slot>>
    requires interval > 0
  {
    match KeptTimes(check, start, end, interval)
    case Thrown => Thrown
    case Ok(ts) => Ok(SlotsAt(ts, isToday, now))
  }

  /** Prefixes the times kept so far to the outcome of the rest of the loop. */
  function Prepend(done: seq<nat>, r: Result<seq<nat>>): Result<seq<nat>>
  {
    match r
    case Thrown => Thrown
    case Ok(rest) => Ok(done + rest)
  }

  lemma PrependNothing(r: Result<seq<nat>>)
    ensures Prepend([], r) == r
  {
    if r.Ok? {
      assert [] + r.value == r.value;
    }
  }

  /** One turn of the loop: the outcome from t is the break check of t followed by the
      outcome from t + interval. */
  lemma KeptStep(check: nat -> Result<bool>, t: nat, end: nat, interval: int, done: seq<nat>, isBreak: bool)
    requires interval > 0 && t < end
    requires check(t) == Ok(isBreak)
    ensures isBreak ==> Prepend(done, KeptTimes(check, t, end, interval))
                        == Prepend(done, KeptTimes(check, t + interval, end, interval))
    ensures !isBreak ==> Prepend(done, KeptTimes(check, t, end, interval))
                         == Prepend(done + [t], KeptTimes(check, t + interval, end, interval))
  {
    match KeptTimes(check, t + interval, end, interval)
    case Thrown =>
    case Ok(rest) =>
      assert done + ([t] + rest) == (done + [t]) + rest;
  }

  lemma SlotsAtAppend(ts: seq<nat>, t: nat, isToday: bool, now: nat)
    ensures SlotsAt(ts + [t], isToday, now) == SlotsAt(ts, isToday, now) + [MakeSlot(t, isToday, now)]
  {
    assert forall i :: 0 <= i < |ts| ==> (ts + [t])[i] == ts[i];
  }

  /** A break check that throws ends the loop with the exception. */
  lemma KeptThrown(check: nat -> Result<bool>, t: nat, end: nat, interval: int, done: seq<nat>)
    requires interval > 0 && t < end && check(t).Thrown?
    ensures Prepend(done, KeptTimes(check, t, end, interval)) == Thrown
  {
  }

  /** The outcome once the loop has run past end. */
  lemma KeptDone(check: nat -> Result<bool>, t: nat, end: nat, interval: int, done: seq<nat>)
    requires interval > 0 && t >= end
    ensures Prepend(done, KeptTimes(check, t, end, interval)) == Ok(done)
  {
    assert done + [] == done;
  }

  /** The invariant of the loop at time t: the outcome from start is the times kept so far
      followed by the outcome from t. */
  ghost predicate Visited(check: nat -> Result<bool>, start: nat, end: nat, interval: int, kept: seq<nat>, t: nat)
    requires interval > 0
  {
    KeptTimes(check, start, end, interval) == Prepend(kept, KeptTimes(check, t, end, interval))
  }

  lemma VisitedStart(check: nat -> Result<bool>, start: nat, end: nat, interval: int)
    requires interval > 0
    ensures Visited(check, start, end, interval, [], start)
  {
    PrependNothing(KeptTimes(check, start, end, interval));
  }

  lemma VisitedStep(check: nat -> Result<bool>, start: nat, end: nat, interval: int, kept: seq<nat>, t: nat, isBreak: bool)
    requires interval > 0 && t < end && check(t) == Ok(isBreak)
    requires Visited(check, start, end, interval, kept, t)
    ensures Visited(check, start, end, interval, if isBreak then kept else kept + [t], t + interval)
  {
    KeptStep(check, t, end, interval, kept, isBreak);
  }

  lemma VisitedThrown(check: nat -> Result<bool>, start: nat, end: nat, interval: int, kept: seq<nat>, t: nat)
    requires interval > 0 && t < end && check(t).Thrown?
    requires Visited(check, start, end, interval, kept, t)
    ensures KeptTimes(check, start, end, interval) == Thrown
  {
    KeptThrown(check, t, end, interval, kept);
  }

  lemma VisitedDone(check: nat -> Result<bool>, start: nat, end: nat, interval: int, kept: seq<nat>, t: nat)
    requires interval > 0 && t >= end
    requires Visited(check, start, end, interval, kept, t)
    ensures KeptTimes(check, start, end, interval) == Ok(kept)
  {
    KeptDone(check, t, end, interval, kept);
  }

  method GenerateTimeSlots(stored: Value, date: Date, today: Date, now: nat) returns (r: Result<seq<Slot>>)
    requires Valid(date)
    requires GetCalendarSettings(stored).interval > 0
    ensures r == TimeSlots(stored, date, today, now)
    ensures !IsWorkDay(stored, date) ==> r == Ok([])
  {
    var settings := GetCalendarSettings(stored);
    if !IsWorkDay(stored, date) {
      return Ok([]);
    }
    var startTime := WorkTime(settings.workStartTime);
    if startTime.None? {
      return Thrown;
    }
    var endTime := WorkTime(settings.workEndTime);
    if endTime.None? {
      return Thrown;
    }
    var interval := settings.interval;
    var isToday := date == today;
    r := SlotLoop(BreakCheck(stored), startTime.value, endTime.value, interval, isToday, now);
  }

  /** isBreakTime($currentTime->format('H:i')) for the time t minutes after midnight: the
      break check of its clock reading. */
  method BreakCheckAt(stored: Value, t: nat) returns (r: Result<bool>)
    ensures r == BreakCheck(stored)(t)
  {
    var timeString := FormatHM(t);
    ParseFormatHM(t);
    r := IsBreakTime(stored, timeString);
  }

  /** The `if (!$this->isBreakTime(...))` block of the loop: the slot of the time t, past when
      t is before now on today's date. */
  method AddTimeSlot(slots: seq<Slot>, ghost kept: seq<nat>, t: nat, isToday: bool, now: nat)
    returns (r: seq<Slot>)
    requires slots == SlotsAt(kept, isToday, now)
    ensures r == SlotsAt(kept + [t], isToday, now)
  {
    var timeString := FormatHM(t);
    var isPast := isToday && t * 60 < now;
    SlotsAtAppend(kept, t, isToday, now);
    r := slots + [Slot(timeString, isPast, !isPast)];
  }

  /** One pass of generateTimeSlots' loop at a time the break check reads as `isBreak`: a
      time outside the breaks is kept and its slot added. */
  method VisitSlot(check: nat -> Result<bool>, start: nat, end: nat, interval: int, isToday: bool, now: nat,
                   slots: seq<Slot>, ghost kept: seq<nat>, currentTime: nat, isBreak: bool)
    returns (slots': seq<Slot>, ghost kept': seq<nat>)
    requires interval > 0 && currentTime < end && check(currentTime) == Ok(isBreak)
    requires slots == SlotsAt(kept, isToday, now)
    requires Visited(check, start, end, interval, kept, currentTime)
    ensures slots' == SlotsAt(kept', isToday, now)
    ensures Visited(check, start, end, interval, kept', currentTime + interval)
  {
    VisitedStep(check, start, end, interval, kept, currentTime, isBreak);
    slots', kept' := slots, kept;
    if !isBreak {
      slots' := AddTimeSlot(slots, kept, currentTime, isToday, now);
      kept' := kept + [currentTime];
    }
  }

  /** The while loop of generateTimeSlots: from start, one slot per visited time outside
      the breaks, until end. `check(t)` stands for isBreakTime($currentTime->format('H:i')):
      the method passes BreakCheck of its settings, which BreakCheckAt computes from the
      clock reading. */
  method SlotLoop(check: nat -> Result<bool>, start: nat, end: nat, interval: int, isToday: bool, now: nat)
    returns (r: Result<seq<Slot>>)
    requires interval > 0
    ensures r == DaySlots(check, start, end, interval, isToday, now)
  {
    var currentTime := start;
    var slots: seq<Slot> := [];
    ghost var kept: seq<nat> := [];
    VisitedStart(check, start, end, interval);
    while currentTime < end
      invariant slots == SlotsAt(kept, isToday, now)
      invariant Visited(check, start, end, interval, kept, currentTime)
      decreases end - currentTime
    {
      var isBreak := check(currentTime);
      if isBreak.Thrown? {
        VisitedThrown(check, start, end, interval, kept, currentTime);
        return Thrown;
      }
      slots, kept := VisitSlot(check, start, end, interval, isToday, now, slots, kept, currentTime, isBreak.value);
      currentTime := currentTime + interval;
    }
    VisitedDone(check, start, end, interval, kept, currentTime);
    return Ok(slots);
  }
}
