/** The payloads of the bot's inline buttons and how the webhook reads them back. */
module Callbacks {
  import opened Wrappers
  import opened Text
  import opened Dates
  import opened Models
  import opened BotService

  /** What a button press asks for, with its arguments as the webhook reads them. */
  datatype Callback =
    | SelectDate(date: string)
    | SelectTime(date: string, time: string)
    | SelectService(date: string, time: string, serviceId: string)
    | ConfirmBooking
    | CancelBooking
    | Other(action: string)

  predicate KnownAction(action: string)
  {
    action in {"select_date", "select_time", "select_service", "confirm_booking", "cancel_booking"}
  }

  /** handleCallbackQuery's reading of the callback data: explode on ':', the action is
      part 0 and the arguments are parts 1, 2 and 3 by position. An argument the action
      needs and the data lacks is an undefined array key, which throws; parts beyond
      those it needs are ignored. */
  function ParseCallback(data: string): (r: Result<Callback>)
    ensures r.Thrown? ==> KnownAction(Explode(':', data)[0])
    ensures r.Ok? && r.value.Other? ==> r.value.action == Explode(':', data)[0] && !KnownAction(r.value.action)
  {
    var parts := Explode(':', data);
    var action := parts[0];
    if action == "select_date" then
      if |parts| < 2 then Thrown else Ok(SelectDate(parts[1]))
    else if action == "select_time" then
      if |parts| < 3 then Thrown else Ok(SelectTime(parts[1], parts[2]))
    else if action == "select_service" then
      if |parts| < 4 then Thrown else Ok(SelectService(parts[1], parts[2], parts[3]))
    else if action == "confirm_booking" then Ok(ConfirmBooking)
    else if action == "cancel_booking" then Ok(CancelBooking)
    else Ok(Other(action))
  }

  /** The action is the text before the first ':': a press is read as a confirmation
      exactly when its data is "confirm_booking" or starts with "confirm_booking:". */
  lemma ConfirmIsPrefix(data: string)
    ensures ParseCallback(data) == Ok(ConfirmBooking)
            <==> data == "confirm_booking" || "confirm_booking:" <= data
  {
    ExplodeHeadIs(':', "confirm_booking", data);
    assert "confirm_booking" + [':'] == "confirm_booking:";
  }

  lemma SelectDateRoundTrip(date: string)
    requires ':' !in date
    ensures ParseCallback("select_date:" + date) == Ok(SelectDate(date))
  {
    assert "select_date:" + date == "select_date" + [':'] + date;
    ExplodeCons(':', "select_date", date);
    ExplodeSnoc(':', "", date);
    assert "" + [':'] + date == [':'] + date;
    ExplodeJoin(':', [date]);
  }

  /** The date buttons and the back button of the service keyboard are read back as the
      date they carry. */
  lemma DateButtonRoundTrip(d: Date)
    requires Valid(d)
    ensures ParseCallback(DateButton(d).callbackData) == Ok(SelectDate(FormatYmd(d)))
  {
    SelectDateRoundTrip(FormatYmd(d));
  }

  lemma BackToTimesRoundTrip(date: string)
    requires ':' !in date
    ensures ParseCallback(BackToTimes(date).callbackData) == Ok(SelectDate(date))
  {
    SelectDateRoundTrip(date);
  }

  /** The back button of the time keyboard sends an action the switch does not know, so a
      press on it is only answered and the dates are not shown again. */
  lemma BackToDatesIgnored()
    ensures ParseCallback(BackToDates().callbackData) == Ok(Other("select_date_back"))
    ensures ParseCallbackJoined(BackToDates().callbackData) == Ok(Other("select_date_back"))
  {
    UnknownAction("select_date_back");
  }

  /** Data without a ':' that names no known action is passed on as that action. */
  lemma UnknownAction(a: string)
    requires ':' !in a && !KnownAction(a)
    ensures ParseCallback(a) == Ok(Other(a)) && ParseCallbackJoined(a) == Ok(Other(a))
  {
    ExplodeSingle(a);
  }

  /** The pieces of "action:date:rest": the action, the date, then the pieces of rest. */
  lemma PayloadPieces(action: string, date: string, rest: string)
    requires ':' !in action && ':' !in date
    ensures Explode(':', action + ":" + date + ":" + rest) == [action, date] + Explode(':', rest)
  {
    assert action + ":" + date + ":" + rest == action + [':'] + (date + [':'] + rest);
    ExplodeCons(':', action, date + [':'] + rest);
    ExplodeCons(':', date, rest);
  }

  /** A decimal service id holds no ':'. */
  lemma IdHasNoColon(n: nat)
    ensures ':' !in NatToString(n)
  {
    var id := NatToString(n);
    assert forall i :: 0 <= i < |id| ==> IsDigit(id[i]);
  }

  /** The pieces of a service button's payload: the time's pieces sit between the date and
      the service id. */
  lemma ServicePieces(date: string, time: string, s: Service)
    requires ':' !in date
    ensures Explode(':', ServiceButton(date, time, s).callbackData)
            == ["select_service", date] + Explode(':', time) + [NatToString(s.id)]
  {
    var id := NatToString(s.id);
    IdHasNoColon(s.id);
    assert ServiceButton(date, time, s).callbackData == "select_service" + ":" + date + ":" + (time + [':'] + id);
    PayloadPieces("select_service", date, time + [':'] + id);
    ExplodeSnoc(':', time, id);
  }

  /** A separator-free piece explodes to itself. */
  lemma ExplodeSingle(a: string)
    requires ':' !in a
    ensures Explode(':', a) == [a]
  {
    ExplodeJoin(':', [a]);
  }

  /** A service button is read back as its date, time and service id when the time holds
      no ':'. */
  lemma ServiceButtonRoundTrip(date: string, time: string, s: Service)
    requires ':' !in date && ':' !in time
    ensures ParseCallback(ServiceButton(date, time, s).callbackData)
            == Ok(SelectService(date, time, NatToString(s.id)))
  {
    ServicePieces(date, time, s);
    ExplodeSingle(time);
  }

  /** As written, a time button whose time is "HH:MM" is read back with the time cut at its
      ':' -- the hour alone. */
  lemma TimeButtonLosesMinutes(date: string, slot: BotSlot, hour: string, minute: string)
    requires ':' !in date && ':' !in hour && ':' !in minute
    requires slot.time == hour + ":" + minute
    ensures ParseCallback(TimeButton(date, slot).callbackData) == Ok(SelectTime(date, hour))
  {
    assert TimeButton(date, slot).callbackData == "select_time" + ":" + date + ":" + slot.time;
    PayloadPieces("select_time", date, slot.time);
    assert slot.time == hour + [':'] + minute;
    ExplodeCons(':', hour, minute);
    ExplodeSingle(minute);
  }

  /** Every time the bot offers is written 'H:i', so pressing its button selects the hour
      alone: the 10:30 slot comes back as "10". */
  lemma OfferedTimeTruncated(date: string, t: nat, places: int)
    requires ':' !in date
    ensures var slot := BotSlot(FormatHM(t), places);
            ParseCallback(TimeButton(date, slot).callbackData)
            == Ok(SelectTime(date, FormatHM(t)[..2]))
            && FormatHM(t)[..2] != FormatHM(t)
  {
    var s := FormatHM(t);
    var hour := s[..2];
    var minute := s[3..];
    assert s == hour + ":" + minute;
    assert ':' !in hour && ':' !in minute by {
      var m := t % 1440;
      assert hour == Pad2(m / 60) && minute == Pad2(m % 60);
      assert forall i :: 0 <= i < 2 ==> IsDigit(hour[i]) && IsDigit(minute[i]);
    }
    TimeButtonLosesMinutes(date, BotSlot(s, places), hour, minute);
  }

  lemma TenThirtyBecomesTen()
    ensures ParseCallback(TimeButton("2025-01-06", BotSlot("10:30", 1)).callbackData)
            == Ok(SelectTime("2025-01-06", "10"))
  {
    TimeButtonLosesMinutes("2025-01-06", BotSlot("10:30", 1), "10", "30");
  }

  /** The reading the buttons evidently intend: the date is part 1, the service id the last
      part, and the time everything between them joined back with ':'. */
  function ParseCallbackJoined(data: string): (r: Result<Callback>)
  {
    var parts := Explode(':', data);
    var action := parts[0];
    if action == "select_date" then
      if |parts| < 2 then Thrown else Ok(SelectDate(parts[1]))
    else if action == "select_time" then
      if |parts| < 3 then Thrown else Ok(SelectTime(parts[1], Join(':', parts[2..])))
    else if action == "select_service" then
      if |parts| < 4 then Thrown
      else Ok(SelectService(parts[1], Join(':', parts[2..|parts| - 1]), parts[|parts| - 1]))
    else if action == "confirm_booking" then Ok(ConfirmBooking)
    else if action == "cancel_booking" then Ok(CancelBooking)
    else Ok(Other(action))
  }

  /** With the joined reading every time button selects its time, whatever ':' it holds. */
  lemma TimeButtonRoundTripJoined(date: string, slot: BotSlot)
    requires ':' !in date
    ensures ParseCallbackJoined(TimeButton(date, slot).callbackData) == Ok(SelectTime(date, slot.time))
  {
    var parts := Explode(':', TimeButton(date, slot).callbackData);
    assert TimeButton(date, slot).callbackData == "select_time" + ":" + date + ":" + slot.time;
    PayloadPieces("select_time", date, slot.time);
    assert parts[2..] == Explode(':', slot.time);
    JoinExplode(':', slot.time);
  }

  /** ... and every service button its date, time and service id. */
  lemma ServiceButtonRoundTripJoined(date: string, time: string, s: Service)
    requires ':' !in date
    ensures ParseCallbackJoined(ServiceButton(date, time, s).callbackData)
            == Ok(SelectService(date, time, NatToString(s.id)))
  {
    var parts := Explode(':', ServiceButton(date, time, s).callbackData);
    ServicePieces(date, time, s);
    assert parts[2..|parts| - 1] == Explode(':', time);
    JoinExplode(':', time);
  }

  /** Where no argument holds a ':' the two readings agree. */
  lemma ReadingsAgreeWithoutColons(data: string)
    requires |Explode(':', data)| <= 4
    requires Explode(':', data)[0] == "select_time" ==> |Explode(':', data)| <= 3
    ensures ParseCallbackJoined(data) == ParseCallback(data)
  {
    var parts := Explode(':', data);
    if |parts| >= 3 {
      assert parts[2..|parts| - 1] == if |parts| == 4 then [parts[2]] else [];
      assert |parts| == 3 ==> parts[2..] == [parts[2]];
    }
  }
}
