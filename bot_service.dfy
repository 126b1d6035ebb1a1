/** The Telegram bot's keyboards and its search for free times (TelegramBotService): the
    dates offered, the times of a date with room left, the services, each as rows of
    buttons whose payloads the webhook reads back. */
module BotService {
  import opened Wrappers
  import opened Text
  import opened Dates
  import opened PhpValues
  import opened CalendarSettings
  import opened Models

  /** An inline keyboard button: its label and the callback payload it sends back. */
  datatype Button = Button(text: string, callbackData: string)

  type Keyboard = seq<seq<Button>>

  /** One entry of getAvailableTimeSlots: the time 'H:i' and the places still free. */
  datatype BotSlot = BotSlot(time: string, availableSlots: int)

  /** getDayName: the Russian abbreviation of the weekday. */
  function GetDayName(w: Weekday): (name: string)
    ensures |name| == 2
  {
    match w
    case Monday => "Пн"
    case Tuesday => "Вт"
    case Wednesday => "Ср"
    case Thursday => "Чт"
    case Friday => "Пт"
    case Saturday => "Сб"
    case Sunday => "Вс"
  }

  /** Each weekday has its own abbreviation. */
  lemma DayNamesDistinct(v: Weekday, w: Weekday)
    requires GetDayName(v) == GetDayName(w)
    ensures v == w
  {
  }

  // ----- rows of buttons -----

  /** The buttons of a keyboard, row after row. */
  function Flatten<T>(rows: seq<seq<T>>): seq<T>
  {
    if rows == [] then [] else rows[0] + Flatten(rows[1..])
  }

  lemma {:induction false} FlattenAppend<T>(rows: seq<seq<T>>, row: seq<T>)
    ensures Flatten(rows + [row]) == Flatten(rows) + row
  {
    if rows == [] {
      assert [row][1..] == [];
    } else {
      assert (rows + [row])[1..] == rows[1..] + [row];
      FlattenAppend(rows[1..], row);
    }
  }

  /** The buttons laid out so far: full rows of n, then the open row, holding `done` in
      order. */
  ghost predicate Laid<T>(keyboard: seq<seq<T>>, row: seq<T>, done: seq<T>, n: nat)
  {
    Flatten(keyboard) + row == done && |row| < n
    && forall j :: 0 <= j < |keyboard| ==> |keyboard[j]| == n
  }

  /** Adding a button to the open row, and closing the row once it is full, extends the
      buttons laid out by that button. */
  lemma Push<T>(keyboard: seq<seq<T>>, row: seq<T>, x: T, done: seq<T>, n: nat)
    requires Laid(keyboard, row, done, n)
    ensures |row| + 1 < n ==> Laid(keyboard, row + [x], done + [x], n)
    ensures |row| + 1 == n ==> Laid(keyboard + [row + [x]], [], done + [x], n)
  {
    FlattenAppend(keyboard, row + [x]);
    assert Flatten(keyboard) + (row + [x]) == (Flatten(keyboard) + row) + [x];
  }

  /** The items in rows of n, the last row holding what is left over. */
  function Chunk<T>(items: seq<T>, n: nat): seq<seq<T>>
    requires n > 0
    decreases |items|
  {
    if |items| == 0 then []
    else if |items| <= n then [items]
    else [items[..n]] + Chunk(items[n..], n)
  }

  /** Chunking keeps the items in order. */
  lemma {:induction false} ChunkFlatten<T>(items: seq<T>, n: nat)
    requires n > 0
    ensures Flatten(Chunk(items, n)) == items
    decreases |items|
  {
    if |items| == 0 {
    } else if |items| <= n {
      assert Flatten([items]) == items + Flatten([items][1..]);
      assert [items][1..] == [];
    } else {
      ChunkFlatten(items[n..], n);
      var rest := Chunk(items[n..], n);
      assert ([items[..n]] + rest)[1..] == rest;
      assert items[..n] + items[n..] == items;
    }
  }

  /** Every row but the last holds exactly n, and no row is empty or longer than n. */
  lemma {:induction false} ChunkSizes<T>(items: seq<T>, n: nat)
    requires n > 0
    ensures forall i :: 0 <= i < |Chunk(items, n)| ==> 0 < |Chunk(items, n)[i]| <= n
    ensures forall i :: 0 <= i < |Chunk(items, n)| - 1 ==> |Chunk(items, n)[i]| == n
    decreases |items|
  {
    if |items| > n {
      ChunkSizes(items[n..], n);
      var rest := Chunk(items[n..], n);
      assert forall i :: 1 <= i < |rest| + 1 ==> ([items[..n]] + rest)[i] == rest[i - 1];
    }
  }

  /** There are as few rows as hold all the items: the ceiling of their number over n. */
  lemma {:induction false} ChunkCount<T>(items: seq<T>, n: nat)
    requires n > 0
    ensures (|Chunk(items, n)| - 1) * n < |items| <= |Chunk(items, n)| * n
    decreases |items|
  {
    if |items| > n {
      ChunkCount(items[n..], n);
      var r := |Chunk(items[n..], n)|;
      assert |Chunk(items, n)| == r + 1;
      assert (r + 1) * n == r * n + n;
      assert r * n == (r - 1) * n + n;
    }
  }

  /** Full rows followed by a short one are what chunking their buttons gives; a short row
      that is empty is not added. */
  lemma {:induction false} ChunkRows<T>(rows: seq<seq<T>>, row: seq<T>, n: nat)
    requires n > 0
    requires forall i :: 0 <= i < |rows| ==> |rows[i]| == n
    requires |row| < n
    ensures Chunk(Flatten(rows) + row, n) == rows + (if row == [] then [] else [row])
    decreases |rows|
  {
    if rows == [] {
      assert Flatten(rows) + row == row;
    } else {
      ChunkRows(rows[1..], row, n);
      var tail := Flatten(rows[1..]) + row;
      var items := Flatten(rows) + row;
      assert items == rows[0] + tail;
      if |rows| > 1 {
        assert Flatten(rows[1..]) == rows[1] + Flatten(rows[2..]);
      }
      if tail == [] {
        assert |rows| == 1 && row == [];
        assert items == rows[0];
      } else {
        assert items[..n] == rows[0] && items[n..] == tail;
        assert rows == [rows[0]] + rows[1..];
      }
    }
  }

  // ----- the date keyboard -----

  /** The offsets below k that pass `offered`, in increasing order: the loop of
      createDateKeyboard over the days from today. */
  function DateOffsets(offered: nat -> bool, k: int): seq<nat>
    decreases k
  {
    if k <= 0 then []
    else DateOffsets(offered, k - 1) + (if offered(k - 1) then [k - 1] else [])
  }

  lemma DateOffsetsStep(offered: nat -> bool, i: nat)
    ensures DateOffsets(offered, i + 1) == DateOffsets(offered, i) + (if offered(i) then [i] else [])
  {
  }

  /** An offset is listed exactly when it lies below k and passes, and the offsets come in
      increasing order. */
  lemma DateOffsetsMeaning(offered: nat -> bool, k: int)
    ensures forall i: nat :: i in DateOffsets(offered, k) <==> i < k && offered(i)
    ensures forall a, b :: 0 <= a < b < |DateOffsets(offered, k)| ==>
              DateOffsets(offered, k)[a] < DateOffsets(offered, k)[b]
  {
    DateOffsetsMembers(offered, k);
    DateOffsetsIncrease(offered, k);
  }

  lemma {:induction false} DateOffsetsMembers(offered: nat -> bool, k: int)
    ensures forall i: nat :: i in DateOffsets(offered, k) <==> i < k && offered(i)
    decreases k
  {
    if k > 0 {
      DateOffsetsMembers(offered, k - 1);
    }
  }

  lemma {:induction false} DateOffsetsIncrease(offered: nat -> bool, k: int)
    ensures forall a, b :: 0 <= a < b < |DateOffsets(offered, k)| ==>
              DateOffsets(offered, k)[a] < DateOffsets(offered, k)[b]
    decreases k
  {
    if k > 0 {
      DateOffsetsIncrease(offered, k - 1);
      DateOffsetsMembers(offered, k - 1);
      var prev := DateOffsets(offered, k - 1);
      var offs := DateOffsets(offered, k);
      forall a, b | 0 <= a < b < |offs| ensures offs[a] < offs[b] {
        assert offs[a] == prev[a] && prev[a] in prev;
        if b < |prev| {
          assert offs[b] == prev[b];
        }
      }
    }
  }

  /** The test of the loop of createDateKeyboard on the day i days from today: its
      weekday name is in the work-day list and its Y-m-d is not in the holiday list. */
  function DayFilter(workDays: Value, holidays: Value, today: Date): nat -> bool
    requires Valid(today) && workDays.Array? && holidays.Array?
  {
    (i: nat) => InArray(EnglishName(WeekdayOf(AddDays(today, i))), workDays)
                && !InArray(FormatYmd(AddDays(today, i)), holidays)
  }

  /** The test on the company's resolved settings. */
  function OfferedDay(stored: Value, today: Date): nat -> bool
    requires Valid(today)
  {
    var s := GetCalendarSettings(stored);
    DayFilter(s.workDays, s.holidays, today)
  }

  /** The offset i is offered exactly when i is below k and its date is a work day; later
      buttons carry later dates. */
  lemma OfferedDates(stored: Value, today: Date, k: int)
    requires Valid(today)
    ensures forall i: nat :: i in DateOffsets(OfferedDay(stored, today), k) <==>
              i < k && IsWorkDay(stored, AddDays(today, i))
    ensures var offs := DateOffsets(OfferedDay(stored, today), k);
            forall a, b :: 0 <= a < b < |offs| ==>
              DayNumber(AddDays(today, offs[a])) < DayNumber(AddDays(today, offs[b]))
  {
    var offs := DateOffsets(OfferedDay(stored, today), k);
    DateOffsetsMeaning(OfferedDay(stored, today), k);
    forall a, b | 0 <= a < b < |offs|
      ensures DayNumber(AddDays(today, offs[a])) < DayNumber(AddDays(today, offs[b]))
    {
      AddDaysNumber(today, offs[a]);
      AddDaysNumber(today, offs[b]);
    }
  }

  /** The button of a date: "d.m (abbreviation)", sending "select_date:Y-m-d". */
  function DateButton(d: Date): (b: Button)
    requires Valid(d)
    ensures b.callbackData == "select_date:" + FormatYmd(d)
    ensures b.text == FormatDayMonth(d) + " (" + GetDayName(WeekdayOf(d)) + ")"
  {
    Button(FormatDayMonth(d) + " (" + GetDayName(WeekdayOf(d)) + ")", "select_date:" + FormatYmd(d))
  }

  function DateButtons(today: Date, offs: seq<nat>): (bs: seq<Button>)
    requires Valid(today)
    ensures |bs| == |offs|
    ensures forall j :: 0 <= j < |offs| ==> bs[j] == DateButton(AddDays(today, offs[j]))
  {
    seq(|offs|, j requires 0 <= j < |offs| => DateButton(AddDays(today, offs[j])))
  }

  lemma DateButtonsAppend(today: Date, offs: seq<nat>, i: nat)
    requires Valid(today)
    ensures DateButtons(today, offs + [i]) == DateButtons(today, offs) + [DateButton(AddDays(today, i))]
  {
    assert forall j :: 0 <= j < |offs| ==> (offs + [i])[j] == offs[j];
  }

  /** The number of days createDateKeyboard looks ahead: its argument, or else the
      setting. */
  function DaysAhead(stored: Value, daysAhead: Option<int>): int
  {
    if daysAhead.Some? then daysAhead.value else GetCalendarSettings(stored).daysAhead
  }

  /** createDateKeyboard: the buttons of the offered dates from today on, two to a row. */
  method CreateDateKeyboard(stored: Value, today: Date, daysAhead: Option<int>) returns (keyboard: Keyboard)
    requires Valid(today)
    ensures keyboard == Chunk(DateButtons(today, DateOffsets(OfferedDay(stored, today), DaysAhead(stored, daysAhead))), 2)
  {
    var settings := GetCalendarSettings(stored);
    var n := if daysAhead.Some? then daysAhead.value else settings.daysAhead;
    keyboard := DateRows(DayFilter(settings.workDays, settings.holidays, today), today, n);
  }

  /** The body of createDateKeyboard's loop for an offered day: the date's button goes on
      the open row, and a row of two goes on the keyboard. Laid fixes both results: full
      rows of two, then what is left, holding the earlier buttons and then this one. */
  method AddDate(keyboard: Keyboard, row: seq<Button>, today: Date, i: nat, ghost offs: seq<nat>)
    returns (keyboard': Keyboard, row': seq<Button>)
    requires Valid(today) && Laid(keyboard, row, DateButtons(today, offs), 2)
    ensures Laid(keyboard', row', DateButtons(today, offs + [i]), 2)
  {
    var date := AddDays(today, i);
    var dateString := FormatYmd(date);
    var formattedDate := FormatDayMonth(date);
    var dayName := GetDayName(WeekdayOf(date));
    var button := Button(formattedDate + " (" + dayName + ")", "select_date:" + dateString);
    DateButtonsAppend(today, offs, i);
    Push(keyboard, row, button, DateButtons(today, offs), 2);
    keyboard', row' := keyboard, row + [button];
    if |row'| == 2 {
      keyboard' := keyboard' + [row'];
      row' := [];
    }
  }

  /** One pass of createDateKeyboard's loop: an offered day's button is laid out. */
  method VisitDay(offered: nat -> bool, today: Date, i: nat, keyboard: Keyboard, row: seq<Button>, ghost offs: seq<nat>)
    returns (keyboard': Keyboard, row': seq<Button>, ghost offs': seq<nat>)
    requires Valid(today) && offs == DateOffsets(offered, i)
    requires Laid(keyboard, row, DateButtons(today, offs), 2)
    ensures offs' == DateOffsets(offered, i + 1)
    ensures Laid(keyboard', row', DateButtons(today, offs'), 2)
  {
    DateOffsetsStep(offered, i);
    keyboard', row', offs' := keyboard, row, offs;
    if offered(i) {
      keyboard', row' := AddDate(keyboard, row, today, i, offs);
      offs' := offs + [i];
    }
  }

  /** The for loop of createDateKeyboard over the next n days, for the day test `offered`
      (DayFilter: the two in_array checks of the loop body). */
  method DateRows(offered: nat -> bool, today: Date, n: int) returns (keyboard: Keyboard)
    requires Valid(today)
    ensures keyboard == Chunk(DateButtons(today, DateOffsets(offered, n)), 2)
  {
    keyboard := [];
    var row: seq<Button> := [];
    ghost var offs: seq<nat> := [];
    var i := 0;
    while i < n
      invariant 0 <= i && (i == 0 || i <= n)
      invariant offs == DateOffsets(offered, i)
      invariant Laid(keyboard, row, DateButtons(today, offs), 2)
    {
      keyboard, row, offs := VisitDay(offered, today, i, keyboard, row, offs);
      i := i + 1;
    }
    if n <= 0 {
      assert i == 0;
    } else {
      assert i == n;
    }
    ChunkRows(keyboard, row, 2);
    if row != [] {
      keyboard := keyboard + [row];
    }
  }

  // ----- the time keyboard -----

  /** The button of a free time: its time, sending "select_time:{date}:{time}". */
  function TimeButton(date: string, slot: BotSlot): (b: Button)
    ensures b.text == slot.time && b.callbackData == "select_time:" + date + ":" + slot.time
  {
    Button(slot.time, "select_time:" + date + ":" + slot.time)
  }

  function TimeButtons(date: string, slots: seq<BotSlot>): (bs: seq<Button>)
    ensures |bs| == |slots|
    ensures forall j :: 0 <= j < |slots| ==> bs[j] == TimeButton(date, slots[j])
  {
    seq(|slots|, j requires 0 <= j < |slots| => TimeButton(date, slots[j]))
  }

  lemma TimeButtonsAppend(date: string, slots: seq<BotSlot>, s: BotSlot)
    ensures TimeButtons(date, slots + [s]) == TimeButtons(date, slots) + [TimeButton(date, s)]
  {
    assert forall j :: 0 <= j < |slots| ==> (slots + [s])[j] == slots[j];
  }

  /** The row that leads back to the dates. */
  function BackToDates(): Button
  {
    Button("← Выбрать другую дату", "select_date_back")
  }

  /** createTimeKeyboard: the times three to a row, then the row back to the dates. */
  method CreateTimeKeyboard(date: string, slots: seq<BotSlot>) returns (keyboard: Keyboard)
    ensures keyboard == Chunk(TimeButtons(date, slots), 3) + [[BackToDates()]]
    ensures Flatten(keyboard[..|keyboard| - 1]) == TimeButtons(date, slots)
    ensures (|keyboard| - 2) * 3 < |slots| <= (|keyboard| - 1) * 3
    ensures forall i :: 0 <= i < |keyboard| - 1 ==> 0 < |keyboard[i]| <= 3
    ensures forall i :: 0 <= i < |keyboard| - 2 ==> |keyboard[i]| == 3
  {
    keyboard := [];
    var row: seq<Button> := [];
    var i := 0;
    while i < |slots|
      invariant 0 <= i <= |slots|
      invariant Laid(keyboard, row, TimeButtons(date, slots[..i]), 3)
    {
      var slot := slots[i];
      TimeButtonsAppend(date, slots[..i], slot);
      assert slots[..i + 1] == slots[..i] + [slot];
      var button := Button(slot.time, "select_time:" + date + ":" + slot.time);
      Push(keyboard, row, button, TimeButtons(date, slots[..i]), 3);
      row := row + [button];
      if |row| == 3 {
        keyboard := keyboard + [row];
        row := [];
      }
      i := i + 1;
    }
    assert slots[..i] == slots;
    ChunkRows(keyboard, row, 3);
    if row != [] {
      keyboard := keyboard + [row];
    }
    ChunkFlatten(TimeButtons(date, slots), 3);
    ChunkSizes(TimeButtons(date, slots), 3);
    ChunkCount(TimeButtons(date, slots), 3);
    keyboard := keyboard + [[BackToDates()]];
    assert keyboard[..|keyboard| - 1] == Chunk(TimeButtons(date, slots), 3);
  }

  // ----- the service keyboard -----

  /** `$service->price > 0`: a price is set and positive. */
  predicate Priced(s: Service)
  {
    s.price.Some? && s.price.value > 0.0
  }

  /** The label of a service: its name, followed by " - " and the formatted price when the
      service has a positive price. */
  function ServiceLabel(s: Service): (text: string)
    ensures s.name <= text
    ensures text == s.name <==> !Priced(s)
    ensures Priced(s) ==> text[|s.name|..] == " - " + s.formattedPrice
  {
    if Priced(s) then s.name + " - " + s.formattedPrice else s.name
  }

  /** The button of a service, sending "select_service:{date}:{time}:{id}". */
  function ServiceButton(date: string, time: string, s: Service): Button
  {
    Button(ServiceLabel(s), "select_service:" + date + ":" + time + ":" + NatToString(s.id))
  }

  /** The row that leads back to the times of the date. */
  function BackToTimes(date: string): Button
  {
    Button("← Выбрать другое время", "select_date:" + date)
  }

  /** createServiceKeyboard: one row per service, in the order given, then the row back. */
  method CreateServiceKeyboard(date: string, time: string, services: seq<Service>) returns (keyboard: Keyboard)
    ensures |keyboard| == |services| + 1
    ensures forall i :: 0 <= i < |services| ==> keyboard[i] == [ServiceButton(date, time, services[i])]
    ensures keyboard[|services|] == [BackToTimes(date)]
  {
    keyboard := [];
    var i := 0;
    while i < |services|
      invariant 0 <= i <= |services| && |keyboard| == i
      invariant forall j :: 0 <= j < i ==> keyboard[j] == [ServiceButton(date, time, services[j])]
    {
      var service := services[i];
      var text := service.name;
      if service.price.Some? && service.price.value > 0.0 {
        text := text + " - " + service.formattedPrice;
      }
      keyboard := keyboard + [[Button(text, "select_service:" + date + ":" + time + ":" + NatToString(service.id))]];
      i := i + 1;
    }
    keyboard := keyboard + [[BackToTimes(date)]];
  }

  // ----- the bookings of a date -----

  /** The company's appointments on the date that are not cancelled, in stored order. */
  function Booked(apps: seq<Appointment>, companyId: nat, date: string): (bs: seq<Appointment>)
    ensures forall a :: a in bs <==> a in apps && a.companyId == companyId && a.date == date && a.status != Cancelled
  {
    if apps == [] then []
    else
      var a := apps[0];
      (if a.companyId == companyId && a.date == date && a.status != Cancelled then [a] else [])
      + Booked(apps[1..], companyId, date)
  }

  /** How many of xs are at the time, compared as strings (`===`). */
  function CountAt(xs: seq<Appointment>, time: string): nat
  {
    if xs == [] then 0 else (if xs[0].time == time then 1 else 0) + CountAt(xs[1..], time)
  }

  lemma {:induction false} CountAtAppend(xs: seq<Appointment>, a: Appointment, time: string)
    ensures CountAt(xs + [a], time) == CountAt(xs, time) + (if a.time == time then 1 else 0)
  {
    if xs != [] {
      assert (xs + [a])[1..] == xs[1..] + [a];
      CountAtAppend(xs[1..], a, time);
    }
  }

  /** Storing a under its time in a keyed collection: it replaces the entry with that key,
      in that entry's place, or else is added at the end. */
  function Put(m: seq<Appointment>, a: Appointment): seq<Appointment>
  {
    if m == [] then [a]
    else if m[0].time == a.time then [a] + m[1..]
    else [m[0]] + Put(m[1..], a)
  }

  /** ->keyBy('appointment_time'): one entry per time, the last appointment with that time
      winning. */
  function KeyBy(xs: seq<Appointment>): seq<Appointment>
  {
    if xs == [] then [] else Put(KeyBy(xs[..|xs| - 1]), xs[|xs| - 1])
  }

  /** Putting adds a time only when it is new. */
  lemma {:induction false} PutCount(m: seq<Appointment>, a: Appointment, time: string)
    ensures CountAt(Put(m, a), time) == if time == a.time && CountAt(m, time) == 0 then 1 else CountAt(m, time)
  {
    if m != [] && m[0].time != a.time {
      assert Put(m, a)[1..] == Put(m[1..], a);
      PutCount(m[1..], a, time);
    } else if m != [] {
      assert ([a] + m[1..])[1..] == m[1..];
    }
  }

  /** After keyBy a time is counted once if anything is booked at it, and otherwise not at
      all. */
  lemma {:induction false} KeyByCount(xs: seq<Appointment>, time: string)
    ensures CountAt(KeyBy(xs), time) == if CountAt(xs, time) > 0 then 1 else 0
    decreases |xs|
  {
    if xs != [] {
      var init := xs[..|xs| - 1];
      var last := xs[|xs| - 1];
      KeyByCount(init, time);
      PutCount(KeyBy(init), last, time);
      assert xs == init + [last];
      CountAtAppend(init, last, time);
    }
  }

  // ----- the free times of a date -----

  /** The clock readings 'H:i' of the times ts. */
  function Clock(ts: seq<nat>): seq<string>
  {
    seq(|ts|, j requires 0 <= j < |ts| => FormatHM(ts[j]))
  }

  lemma ClockAppend(ts: seq<nat>, t: nat)
    ensures Clock(ts + [t]) == Clock(ts) + [FormatHM(t)]
  {
    assert forall j :: 0 <= j < |ts| ==> (ts + [t])[j] == ts[j];
  }

  /** The slots offered at the clock readings of the times the loop keeps, given the
      existing bookings: a time is offered while fewer than max are booked at it, with the
      places left. */
  function Offer(times: seq<string>, existing: seq<Appointment>, max: int): seq<BotSlot>
  {
    if times == [] then []
    else
      var x := times[|times| - 1];
      Offer(times[..|times| - 1], existing, max)
      + (if CountAt(existing, x) < max then [BotSlot(x, max - CountAt(existing, x))] else [])
  }

  lemma OfferAppend(times: seq<string>, x: string, existing: seq<Appointment>, max: int)
    ensures Offer(times + [x], existing, max)
            == Offer(times, existing, max)
               + (if CountAt(existing, x) < max then [BotSlot(x, max - CountAt(existing, x))] else [])
  {
    assert (times + [x])[..|times|] == times;
  }

  /** One more kept time adds its slot when it has room. */
  lemma OfferStep(kept: seq<nat>, t: nat, existing: seq<Appointment>, max: int)
    ensures var x := FormatHM(t);
            Offer(Clock(kept + [t]), existing, max)
            == Offer(Clock(kept), existing, max)
               + (if CountAt(existing, x) < max then [BotSlot(x, max - CountAt(existing, x))] else [])
  {
    ClockAppend(kept, t);
    OfferAppend(Clock(kept), FormatHM(t), existing, max);
  }

  /** Every slot offered has room left: its places are max minus the bookings counted at
      its time, at least one; and its time is one of the kept times. */
  lemma {:induction false} OfferRoom(times: seq<string>, existing: seq<Appointment>, max: int)
    ensures forall s :: s in Offer(times, existing, max) ==>
              s.time in times && s.availableSlots == max - CountAt(existing, s.time) >= 1
  {
    if times != [] {
      var init := times[..|times| - 1];
      OfferRoom(init, existing, max);
      assert times == init + [times[|times| - 1]];
    }
  }

  /** A kept time is offered exactly when fewer than max are booked at it. */
  lemma {:induction false} OfferComplete(times: seq<string>, existing: seq<Appointment>, max: int)
    ensures forall x :: x in times ==>
              (CountAt(existing, x) < max <==> BotSlot(x, max - CountAt(existing, x)) in Offer(times, existing, max))
  {
    if times != [] {
      var init := times[..|times| - 1];
      var last := times[|times| - 1];
      OfferComplete(init, existing, max);
      OfferRoom(init, existing, max);
      assert times == init + [last];
    }
  }

  /** The break check of the bot's loop at t minutes after midnight: the raw time against
      the breaks, start included and end excluded. */
  function BotBreakCheck(breaks: seq<Entry>): nat -> Result<bool>
  {
    (u: nat) => BreakScan(HalfOpen, ReadBreaks(breaks), u)
  }

  /** The slots of the loop from start to end, or Thrown when a break cannot be read. */
  function OfferFrom(check: nat -> Result<bool>, existing: seq<Appointment>, start: nat, end: nat, interval: int, max: int): Result<seq<BotSlot>>
    requires interval > 0
  {
    match KeptTimes(check, start, end, interval)
    case Thrown => Thrown
    case Ok(ts) => Ok(Offer(Clock(ts), existing, max))
  }

  /** The free times of the work hours for the given bookings: the times outside the breaks
      with fewer than max_appointments_per_slot of those bookings counted at them. An
      unreadable start or end time throws. */
  function SlotsFor(stored: Value, existing: seq<Appointment>): Result<seq<BotSlot>>
    requires GetCalendarSettings(stored).interval > 0
  {
    var s := GetCalendarSettings(stored);
    match WorkTime(s.workStartTime)
    case None => Thrown
    case Some(start) =>
      match WorkTime(s.workEndTime)
      case None => Thrown
      case Some(end) =>
        OfferFrom(BotBreakCheck(BreakList(stored)), existing, start, end, s.interval, s.maxPerSlot)
  }

  /** What getAvailableTimeSlots($date) returns: the free times with the bookings counted
      after keyBy. */
  function AvailableSlots(stored: Value, apps: seq<Appointment>, companyId: nat, date: string): Result<seq<BotSlot>>
    requires GetCalendarSettings(stored).interval > 0
  {
    SlotsFor(stored, KeyBy(Booked(apps, companyId, date)))
  }

  /** getAvailableTimeSlots as written: the bookings of the date, keyed by their time. */
  method GetAvailableTimeSlots(stored: Value, apps: seq<Appointment>, companyId: nat, date: string)
    returns (r: Result<seq<BotSlot>>)
    requires GetCalendarSettings(stored).interval > 0
    ensures r == AvailableSlots(stored, apps, companyId, date)
  {
    var existingAppointments := KeyBy(Booked(apps, companyId, date));
    r := FreeSlots(stored, existingAppointments);
  }

  /** The body of getAvailableTimeSlots after the bookings are fetched: the work hours are
      read, then the loop runs over them. */
  method FreeSlots(stored: Value, existingAppointments: seq<Appointment>) returns (r: Result<seq<BotSlot>>)
    requires GetCalendarSettings(stored).interval > 0
    ensures r == SlotsFor(stored, existingAppointments)
  {
    var settings := GetCalendarSettings(stored);
    var startTime := WorkTime(settings.workStartTime);
    if startTime.None? {
      return Thrown;
    }
    var endTime := WorkTime(settings.workEndTime);
    if endTime.None? {
      return Thrown;
    }
    var interval := settings.interval;
    var maxPerSlot := settings.maxPerSlot;
    r := OfferLoop(BotBreakCheck(settings.breakTimes.entries), existingAppointments, startTime.value, endTime.value, interval, maxPerSlot);
  }

  /** The foreach over the breaks for the time t: stops at the first break holding it and
      throws at the first it cannot read. */
  method BotBreakCheckAt(breaks: seq<Entry>, t: nat) returns (r: Result<bool>)
    ensures r == BotBreakCheck(breaks)(t)
  {
    ghost var spans := ReadBreaks(breaks);
    var isBreak := false;
    var i := 0;
    while i < |breaks|
      invariant 0 <= i <= |breaks|
      invariant BreakScan(HalfOpen, spans[i..], t) == BreakScan(HalfOpen, spans, t)
    {
      var breakStart := BreakBound(breaks[i].value, "start");
      if breakStart.None? {
        return Thrown;
      }
      var breakEnd := BreakBound(breaks[i].value, "end");
      if breakEnd.None? {
        return Thrown;
      }
      if t >= breakStart.value && t < breakEnd.value {
        isBreak := true;
        break;
      }
      assert spans[i..][1..] == spans[i + 1..];
      i := i + 1;
    }
    return Ok(isBreak);
  }

  /** The `if (!$isBreak)` block of the loop: counts the bookings at the time written 'H:i'
      and adds its slot, with the places left, when fewer than max are booked. */
  method AddSlot(slots: seq<BotSlot>, ghost kept: seq<nat>, currentTime: nat, existing: seq<Appointment>, maxPerSlot: int)
    returns (r: seq<BotSlot>)
    requires slots == Offer(Clock(kept), existing, maxPerSlot)
    ensures r == Offer(Clock(kept + [currentTime]), existing, maxPerSlot)
  {
    var timeString := FormatHM(currentTime);
    var appointmentsCount := CountAt(existing, timeString);
    OfferStep(kept, currentTime, existing, maxPerSlot);
    r := slots;
    if appointmentsCount < maxPerSlot {
      r := slots + [BotSlot(timeString, maxPerSlot - appointmentsCount)];
    }
  }

  /** One pass of the while loop at a time the break check reads as `isBreak`: a time outside
      the breaks is kept, and its slot is added when it has room. */
  method VisitTime(check: nat -> Result<bool>, existing: seq<Appointment>, start: nat, end: nat, interval: int,
                   maxPerSlot: int, slots: seq<BotSlot>, ghost kept: seq<nat>, currentTime: nat, isBreak: bool)
    returns (slots': seq<BotSlot>, ghost kept': seq<nat>)
    requires interval > 0 && currentTime < end && check(currentTime) == Ok(isBreak)
    requires slots == Offer(Clock(kept), existing, maxPerSlot)
    requires Visited(check, start, end, interval, kept, currentTime)
    ensures slots' == Offer(Clock(kept'), existing, maxPerSlot)
    ensures Visited(check, start, end, interval, kept', currentTime + interval)
  {
    VisitedStep(check, start, end, interval, kept, currentTime, isBreak);
    slots', kept' := slots, kept;
    if !isBreak {
      slots' := AddSlot(slots, kept, currentTime, existing, maxPerSlot);
      kept' := kept + [currentTime];
    }
  }

  /** The while loop of getAvailableTimeSlots, for any break check `check` (the service
      passes BotBreakCheck of its breaks, which BotBreakCheckAt computes step by step). */
  method OfferLoop(check: nat -> Result<bool>, existing: seq<Appointment>, start: nat, end: nat, interval: int, maxPerSlot: int)
    returns (r: Result<seq<BotSlot>>)
    requires interval > 0
    ensures r == OfferFrom(check, existing, start, end, interval, maxPerSlot)
  {
    var currentTime := start;
    var slots: seq<BotSlot> := [];
    ghost var kept: seq<nat> := [];
    VisitedStart(check, start, end, interval);
    while currentTime < end
      invariant slots == Offer(Clock(kept), existing, maxPerSlot)
      invariant Visited(check, start, end, interval, kept, currentTime)
      decreases end - currentTime
    {
      var isBreak := check(currentTime);
      if isBreak.Thrown? {
        VisitedThrown(check, start, end, interval, kept, currentTime);
        return Thrown;
      }
      slots, kept := VisitTime(check, existing, start, end, interval, maxPerSlot, slots, kept, currentTime, isBreak.value);
      currentTime := currentTime + interval;
    }
    VisitedDone(check, start, end, interval, kept, currentTime);
    return Ok(slots);
  }

  // ----- keyBy and the capacity of a slot -----

  /** As written, keyBy leaves at most one booking per time, so with a capacity of two or more
      every kept time is offered, with max minus at most one places, however many clients are
      booked at it. */
  lemma KeyByOffersEveryTime(times: seq<string>, xs: seq<Appointment>, max: int)
    requires max >= 2
    ensures forall x :: x in times ==>
              BotSlot(x, max - (if CountAt(xs, x) > 0 then 1 else 0)) in Offer(times, KeyBy(xs), max)
  {
    forall x | x in times
      ensures CountAt(KeyBy(xs), x) == if CountAt(xs, x) > 0 then 1 else 0
    {
      KeyByCount(xs, x);
    }
    OfferComplete(times, KeyBy(xs), max);
  }

  /** Two clients booked at 10:00 fill a slot of capacity two, yet 10:00 is still offered
      with one place. */
  lemma KeyByOverbooks()
    ensures var a := Appointment(1, 1, 1, "Anna", "1", "", "2025-01-06", "10:00", 60, Pending, "");
            var b := a.(id := 2, clientName := "Boris");
            CountAt([a, b], "10:00") == 2
            && Offer(["10:00"], KeyBy([a, b]), 2) == [BotSlot("10:00", 1)]
  {
    var a := Appointment(1, 1, 1, "Anna", "1", "", "2025-01-06", "10:00", 60, Pending, "");
    var b := a.(id := 2, clientName := "Boris");
    assert KeyBy([a]) == [a] by { assert [a][..0] == []; }
    assert [a, b][..1] == [a];
    assert KeyBy([a, b]) == [b];
    assert ["10:00"][..0] == [];
    assert [a, b][1..] == [b] && [b][1..] == [];
    assert CountAt([b], "10:00") == 1;
  }

  /** The free times with every booking counted: the lookup the loop evidently intends, with
      the date's bookings left as they are. */
  function CountedSlots(stored: Value, apps: seq<Appointment>, companyId: nat, date: string): Result<seq<BotSlot>>
    requires GetCalendarSettings(stored).interval > 0
  {
    SlotsFor(stored, Booked(apps, companyId, date))
  }

  /** getAvailableTimeSlots with every booking counted: the version the bot uses. */
  method GetCountedTimeSlots(stored: Value, apps: seq<Appointment>, companyId: nat, date: string)
    returns (r: Result<seq<BotSlot>>)
    requires GetCalendarSettings(stored).interval > 0
    ensures r == CountedSlots(stored, apps, companyId, date)
  {
    var existingAppointments := Booked(apps, companyId, date);
    r := FreeSlots(stored, existingAppointments);
  }

  /** With every booking counted, a slot is offered only with room left: its places are the
      capacity minus the company's bookings on that date at that time that are not
      cancelled (OfferComplete adds that a kept time is offered exactly when that count is
      below the capacity). */
  lemma CountedSlotsRespectCapacity(stored: Value, apps: seq<Appointment>, companyId: nat, date: string)
    requires GetCalendarSettings(stored).interval > 0
    ensures var s := GetCalendarSettings(stored);
            var booked := Booked(apps, companyId, date);
            CountedSlots(stored, apps, companyId, date).Ok? ==>
              forall slot :: slot in CountedSlots(stored, apps, companyId, date).value ==>
                1 <= slot.availableSlots == s.maxPerSlot - CountAt(booked, slot.time)
  {
    var s := GetCalendarSettings(stored);
    var booked := Booked(apps, companyId, date);
    var start := WorkTime(s.workStartTime);
    var end := WorkTime(s.workEndTime);
    if start.Some? && end.Some? {
      var kept := KeptTimes(BotBreakCheck(BreakList(stored)), start.value, end.value, s.interval);
      if kept.Ok? {
        OfferRoom(Clock(kept.value), booked, s.maxPerSlot);
      }
    }
  }
}
