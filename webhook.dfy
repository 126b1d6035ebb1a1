/** The Telegram booking dialogue of TelegramWebhookController: a per-chat session in a cache
    with a lifetime, the appointment table it books into and the messages it sends. */
module Webhook {
  import opened Wrappers
  import opened Text
  import opened Dates
  import opened PhpValues
  import opened CalendarSettings
  import opened Models
  import opened BotService
  import opened Callbacks

  /** How long a session lives after each write, in seconds. */
  const SessionLifetime := 1800

  /** The note every booking made by the bot carries. */
  const BotNote := "Запись через Telegram-бот"

  datatype Step = WaitingContact | Confirm

  datatype Contact = Contact(name: string, phone: string, email: string)

  /** The cached booking_data of a chat: what was selected, the step of the dialogue and,
      once given, the client's contact. */
  datatype BookingData = BookingData(date: string, time: string, serviceId: string, step: Step, contact: Option<Contact>)

  /** A cache entry: the data and the second at which it expires. */
  datatype Session = Session(data: BookingData, expiresAt: int)

  /** The contact is present exactly from the 'confirm' step on. */
  predicate WellFormed(d: BookingData)
  {
    d.step == Confirm <==> d.contact.Some?
  }

  /** What the bot says, as the kind of message with the data it shows. */
  datatype Reply =
    | Welcome(companyName: string)
    | Help
    | CancelOptions
    | NoFreeTime(date: string)
    | ChooseTime(date: string)
    | ChooseService(date: string, time: string)
    | ContactForm(date: string, time: string, serviceName: string, price: string)
    | ContactFormatError
    | ConfirmPrompt(contact: Contact, date: string, time: string, serviceName: string, price: string)
    | Outdated
    | BookingCreated(appointmentId: nat, date: string, time: string)
    | BookingFailed
    | OwnerNotice(appointmentId: nat)
    | BookingCancelled

  /** The calls the controller makes to the Telegram API, in order. */
  datatype Outgoing =
    | Send(chatId: int, reply: Reply, keyboard: Keyboard)
    | Edit(chatId: int, messageId: int, reply: Reply, keyboard: Keyboard)
    | Notify(ownerChatId: string, reply: Reply)
    | Answer(callbackId: string)

  /** An update from Telegram, with the fields the controller reads; a field Telegram may
      leave out is an Option. */
  datatype CallbackQuery = CallbackQuery(id: string, fromId: int, messageId: Option<int>, data: Option<string>)
  datatype Message = Message(fromId: int, text: Option<string>)
  datatype Update = Update(callbackQuery: Option<CallbackQuery>, message: Option<Message>)

  /** Whether a handler returned, or threw to handle(), which answers 500. */
  datatype Outcome = Handled | Raised

  // ----- the session cache -----

  /** cache()->get: the data of the chat's entry while it has not expired. */
  function LiveData(sessions: map<int, Session>, chatId: int, clock: int): Option<BookingData>
  {
    if chatId in sessions && clock < sessions[chatId].expiresAt then Some(sessions[chatId].data) else None
  }

  /** An entry put at clock is read back until its lifetime has passed, and not after. */
  lemma PutThenGet(sessions: map<int, Session>, chatId: int, d: BookingData, clock: int, later: int)
    ensures LiveData(sessions[chatId := Session(d, clock + SessionLifetime)], chatId, later)
            == if later < clock + SessionLifetime then Some(d) else None
  {
  }

  /** Writing or forgetting one chat's entry leaves every other chat's as it was. */
  lemma OtherChatsKept(sessions: map<int, Session>, chatId: int, other: int, s: Session, clock: int)
    requires other != chatId
    ensures LiveData(sessions[chatId := s], other, clock) == LiveData(sessions, other, clock)
    ensures LiveData(sessions - {chatId}, other, clock) == LiveData(sessions, other, clock)
  {
  }

  // ----- the records the dialogue reads -----

  /** $company->services()->find($id): the company's service whose id the text names,
      active or not. */
  function FindService(services: seq<Service>, companyId: nat, id: string): (r: Option<Service>)
    ensures r.Some? ==> r.value in services && r.value.companyId == companyId && ParseNat(id) == Some(r.value.id)
    ensures r.None? ==> forall s :: s in services && s.companyId == companyId ==> ParseNat(id) != Some(s.id)
  {
    if services == [] then None
    else if services[0].companyId == companyId && ParseNat(id) == Some(services[0].id) then Some(services[0])
    else FindService(services[1..], companyId, id)
  }

  /** $company->services()->where('is_active', true)->get(), in table order. */
  function ActiveServices(services: seq<Service>, companyId: nat): (r: seq<Service>)
    ensures forall s :: s in r <==> s in services && s.companyId == companyId && s.isActive
  {
    if services == [] then []
    else
      (if services[0].companyId == companyId && services[0].isActive then [services[0]] else [])
      + ActiveServices(services[1..], companyId)
  }

  /** name, phone and email of a contact reply: the trimmed text split on "\n", lines 0, 1
      and 2, '' where the reply has fewer lines. */
  function ContactLines(text: string): (c: Contact)
    ensures '\n' !in c.name && '\n' !in c.phone && '\n' !in c.email
  {
    var lines := Explode('\n', PhpTrim(text));
    ExplodePartsHaveNoSeparator('\n', PhpTrim(text));
    Contact(lines[0], if |lines| > 1 then lines[1] else "", if |lines| > 2 then lines[2] else "")
  }

  /** A contact is accepted unless its name or phone is empty() (which "0" also is). */
  predicate Accepted(c: Contact)
  {
    !PhpEmpty(c.name) && !PhpEmpty(c.phone)
  }

  /** Whether the switch of handleCallbackQuery throws on an action: the free times of a
      date cannot be computed, or the chosen service is not one of the company's. */
  predicate DispatchRaises(company: Company, services: seq<Service>, cb: Callback, apps: seq<Appointment>)
  {
    match cb
    case SelectDate(date) =>
      GetCalendarSettings(company.settings).interval > 0
      && CountedSlots(company.settings, apps, company.id, date).Thrown?
    case SelectService(_, _, id) => FindService(services, company.id, id).None?
    case _ => false
  }

  /** A press whose payload reads as a select_date action: the only one that computes free
      times. */
  predicate SelectsDate(q: CallbackQuery)
  {
    q.messageId.Some? && q.data.Some? && ParseCallbackJoined(q.data.value).Ok?
    && ParseCallbackJoined(q.data.value).value.SelectDate?
  }

  /** Whether handleCallbackQuery throws: a missing field or part, or a throwing action. */
  predicate CallbackRaises(company: Company, services: seq<Service>, q: CallbackQuery, apps: seq<Appointment>)
  {
    q.messageId.None? || q.data.None? || ParseCallbackJoined(q.data.value).Thrown?
    || DispatchRaises(company, services, ParseCallbackJoined(q.data.value).value, apps)
  }

  /** The reply the contact form asks for -- the name, the phone and, optionally, the email,
      one per line -- is read back as those three. */
  lemma ContactRoundTrip(name: string, phone: string, email: string)
    requires '\n' !in name && '\n' !in phone && '\n' !in email
    requires name != "" && !IsPhpSpace(name[0])
    requires var last := if email == "" then phone else email;
             last != "" && !IsPhpSpace(last[|last| - 1])
    ensures var lines := [name, phone] + (if email == "" then [] else [email]);
            ContactLines(Join('\n', lines)) == Contact(name, phone, email)
  {
    var lines := [name, phone] + (if email == "" then [] else [email]);
    var text := Join('\n', lines);
    if email == "" {
      assert lines[1..] == [phone];
      assert text == name + "\n" + phone;
    } else {
      assert lines[1..] == [phone, email] && lines[1..][1..] == [email];
      assert Join('\n', lines[1..]) == phone + "\n" + email;
      assert text == name + "\n" + phone + "\n" + email;
    }
    TrimKeeps(IsPhpSpace, text);
    ExplodeJoin('\n', lines);
  }

  /** A reply on one line is never accepted: it has no phone. */
  lemma OneLineRejected(text: string)
    requires '\n' !in PhpTrim(text)
    ensures !Accepted(ContactLines(text))
  {
    ExplodeJoin('\n', [PhpTrim(text)]);
  }

  /** The confirmation keyboard of showBookingConfirmation. */
  function ConfirmKeyboard(): Keyboard
  {
    [[Button("✅ Подтвердить", "confirm_booking"), Button("❌ Отменить", "cancel_booking")]]
  }

  /** The appointment processBooking creates from the chat's session, or None when creating
      it throws (and the error is caught): no live session reaches here as None too, but the
      caller tells the two apart. The session must hold a contact (else 'name' is an undefined
      key) and name a service of the company (else reading its duration fails). Nothing is
      checked about the time or the slot's capacity. */
  function NewAppointment(company: Company, services: seq<Service>, data: BookingData, id: nat): (r: Option<Appointment>)
    ensures r.Some? <==> data.contact.Some? && FindService(services, company.id, data.serviceId).Some?
    ensures r.Some? ==>
              var s := FindService(services, company.id, data.serviceId).value;
              r.value == Appointment(id, company.id, s.id, data.contact.value.name, data.contact.value.phone,
                                     data.contact.value.email, data.date, data.time, s.durationMinutes,
                                     Pending, BotNote)
  {
    match data.contact
    case None => None
    case Some(c) =>
      match FindService(services, company.id, data.serviceId)
      case None => None
      case Some(s) =>
        Some(Appointment(id, company.id, s.id, c.name, c.phone, c.email, data.date, data.time,
                         s.durationMinutes, Pending, BotNote))
  }

  /** `$company->telegram_notifications_enabled && $company->telegram_chat_id`. */
  predicate NotifiesOwner(company: Company)
  {
    company.notificationsEnabled && company.ownerChatId.Some? && !PhpEmpty(company.ownerChatId.value)
  }

  /** The messages a successful booking sends: the edited confirmation and, when enabled,
      the owner's notice. */
  function BookedMessages(company: Company, chatId: int, messageId: int, a: Appointment): seq<Outgoing>
  {
    [Edit(chatId, messageId, BookingCreated(a.id, a.date, a.time), [])]
    + (if NotifiesOwner(company) then [Notify(company.ownerChatId.value, OwnerNotice(a.id))] else [])
  }

  /** The keyboards the dialogue shows. */
  function DateMenu(stored: Value, today: Date): Keyboard
    requires Dates.Valid(today)
  {
    Chunk(DateButtons(today, DateOffsets(OfferedDay(stored, today), DaysAhead(stored, None))), 2)
  }

  /** The texts handleMessage answers as commands. */
  predicate IsCommand(text: string)
  {
    text == "/start" || text == "/book" || text == "/help" || text == "/cancel"
  }

  /** The answer to a command: the welcome with the date keyboard for /start and /book, the
      help for /help, how to cancel for /cancel. */
  function CommandReply(company: Company, chatId: int, text: string, today: Date): Outgoing
    requires Dates.Valid(today) && IsCommand(text)
  {
    if text == "/start" || text == "/book" then Send(chatId, Welcome(company.name), DateMenu(company.settings, today))
    else if text == "/help" then Send(chatId, Help, [])
    else Send(chatId, CancelOptions, [])
  }

  function TimeMenu(date: string, slots: seq<BotSlot>): Keyboard
  {
    Chunk(TimeButtons(date, slots), 3) + [[BackToDates()]]
  }

  function ServiceMenu(date: string, time: string, services: seq<Service>): Keyboard
  {
    seq(|services|, i requires 0 <= i < |services| => [ServiceButton(date, time, services[i])])
    + [[BackToTimes(date)]]
  }

  /** The controller's state: the session cache, the appointment table with its next id, the
      service table (read only here) and the messages sent so far. */
  class TelegramWebhook {
    var sessions: map<int, Session>
    var appointments: seq<Appointment>
    var nextId: nat
    var outbox: seq<Outgoing>
    const services: seq<Service>

    /** Every session is well formed, and appointment ids ascend and stay below nextId. */
    ghost predicate Valid()
      reads this`sessions, this`appointments, this`nextId
    {
      (forall c :: c in sessions ==> WellFormed(sessions[c].data))
      && (forall i, j :: 0 <= i < j < |appointments| ==> appointments[i].id < appointments[j].id)
      && (forall i :: 0 <= i < |appointments| ==> appointments[i].id < nextId)
    }

    constructor(services: seq<Service>)
      ensures Valid()
      ensures this.services == services
      ensures sessions == map[] && appointments == [] && nextId == 1 && outbox == []
    {
      this.services := services;
      sessions := map[];
      appointments := [];
      nextId := 1;
      outbox := [];
    }

    /** The live session of a chat. */
    function Live(chatId: int, clock: int): Option<BookingData>
      reads this
    {
      LiveData(sessions, chatId, clock)
    }

    /** showTimeSlots: the free times of the date, or the dates again when there are none.
        Throws when the work hours or a break cannot be read. */
    method ShowTimeSlots(company: Company, chatId: int, messageId: int, date: string, today: Date)
      returns (r: Outcome)
      requires Dates.Valid(today) && GetCalendarSettings(company.settings).interval > 0
      modifies this
      ensures var slots := CountedSlots(company.settings, old(appointments), company.id, date);
              match slots
              case Thrown => r == Raised && outbox == old(outbox)
              case Ok(ss) =>
                r == Handled
                && outbox == old(outbox)
                   + [if ss == [] then Edit(chatId, messageId, NoFreeTime(date), DateMenu(company.settings, today))
                      else Edit(chatId, messageId, ChooseTime(date), TimeMenu(date, ss))]
      ensures sessions == old(sessions) && appointments == old(appointments) && nextId == old(nextId)
    {
      var slots := GetCountedTimeSlots(company.settings, appointments, company.id, date);
      if slots.Thrown? {
        return Raised;
      }
      var keyboard;
      if |slots.value| == 0 {
        keyboard := CreateDateKeyboard(company.settings, today, None);
        outbox := outbox + [Edit(chatId, messageId, NoFreeTime(date), keyboard)];
      } else {
        keyboard := CreateTimeKeyboard(date, slots.value);
        outbox := outbox + [Edit(chatId, messageId, ChooseTime(date), keyboard)];
      }
      return Handled;
    }

    /** showServiceSelection: the company's active services for the date and time. */
    method ShowServiceSelection(company: Company, chatId: int, messageId: int, date: string, time: string)
      modifies this
      ensures outbox == old(outbox)
              + [Edit(chatId, messageId, ChooseService(date, time),
                      ServiceMenu(date, time, ActiveServices(services, company.id)))]
      ensures sessions == old(sessions) && appointments == old(appointments) && nextId == old(nextId)
    {
      var active := ActiveServices(services, company.id);
      var keyboard := CreateServiceKeyboard(date, time, active);
      assert keyboard == ServiceMenu(date, time, active);
      outbox := outbox + [Edit(chatId, messageId, ChooseService(date, time), keyboard)];
    }

    /** showContactForm: stores the selection as a session waiting for the contact, for
        1800 seconds, and asks for it. Throws, before storing anything, when the service is
        not one of the company's. */
    method ShowContactForm(company: Company, chatId: int, messageId: int, date: string, time: string,
                           serviceId: string, clock: int)
      returns (r: Outcome)
      requires Valid()
      modifies this
      ensures Valid()
      ensures appointments == old(appointments) && nextId == old(nextId)
      ensures r == Raised <==> FindService(services, company.id, serviceId).None?
      ensures r == Raised ==> sessions == old(sessions) && outbox == old(outbox)
      ensures r == Handled ==>
                var s := FindService(services, company.id, serviceId).value;
                var d := BookingData(date, time, serviceId, WaitingContact, None);
                sessions == old(sessions)[chatId := Session(d, clock + SessionLifetime)]
                && outbox == old(outbox) + [Edit(chatId, messageId, ContactForm(date, time, s.name, s.formattedPrice), [])]
    {
      var service := FindService(services, company.id, serviceId);
      if service.None? {
        return Raised;
      }
      var bookingData := BookingData(date, time, serviceId, WaitingContact, None);
      sessions := sessions[chatId := Session(bookingData, clock + SessionLifetime)];
      outbox := outbox + [Edit(chatId, messageId, ContactForm(date, time, service.value.name, service.value.formattedPrice), [])];
      return Handled;
    }

    /** handleContactInput: ignored unless the chat's live session waits for the contact.
        A reply without a name or a phone is asked for again; otherwise the contact is
        stored and the confirmation shown (StoreContact). */
    method HandleContactInput(company: Company, chatId: int, text: string, clock: int)
      returns (r: Outcome)
      requires Valid()
      modifies this
      ensures Valid()
      ensures appointments == old(appointments) && nextId == old(nextId)
      ensures old(outbox) <= outbox
      ensures ContactHandled(company, chatId, text, clock, r)
    {
      var bookingData := Live(chatId, clock);
      if bookingData.None? || bookingData.value.step != WaitingContact {
        return Handled;
      }
      var contact := ContactLines(text);
      if PhpEmpty(contact.name) || PhpEmpty(contact.phone) {
        outbox := outbox + [Send(chatId, ContactFormatError, [])];
        return Handled;
      }
      r := StoreContact(company, chatId, bookingData.value, contact, clock);
    }

    /** The three outcomes of a contact reply: without a live session waiting for the
        contact nothing happens; a reply without name or phone is asked for again, the
        session kept; an accepted reply is stored (ContactStored). */
    twostate predicate ContactHandled(company: Company, chatId: int, text: string, clock: int, r: Outcome)
      reads this
    {
      var live := LiveData(old(sessions), chatId, clock);
      if live.None? || live.value.step != WaitingContact then
        r == Handled && sessions == old(sessions) && outbox == old(outbox)
      else if !Accepted(ContactLines(text)) then
        r == Handled && sessions == old(sessions) && outbox == old(outbox) + [Send(chatId, ContactFormatError, [])]
      else
        ContactStored(company, chatId, live.value, ContactLines(text), clock, r)
    }

    /** The new state once an accepted contact is stored: the session holds the contact at
        the 'confirm' step for another 1800 seconds, and the confirmation is sent -- or, when
        the service is no longer the company's, the call throws after the write. */
    twostate predicate ContactStored(company: Company, chatId: int, d: BookingData, c: Contact, clock: int, r: Outcome)
      reads this
    {
      var d' := d.(contact := Some(c), step := Confirm);
      var s := FindService(services, company.id, d.serviceId);
      sessions == old(sessions)[chatId := Session(d', clock + SessionLifetime)]
      && (s.None? ==> r == Raised && outbox == old(outbox))
      && (s.Some? ==>
            r == Handled
            && outbox == old(outbox) + [Send(chatId, ConfirmPrompt(c, d.date, d.time, s.value.name, s.value.formattedPrice), ConfirmKeyboard())])
    }

    /** The end of handleContactInput and showBookingConfirmation. */
    method StoreContact(company: Company, chatId: int, d: BookingData, c: Contact, clock: int)
      returns (r: Outcome)
      requires Valid()
      modifies this
      ensures Valid()
      ensures appointments == old(appointments) && nextId == old(nextId)
      ensures old(outbox) <= outbox
      ensures ContactStored(company, chatId, d, c, clock, r)
    {
      var data := d.(contact := Some(c), step := Confirm);
      sessions := sessions[chatId := Session(data, clock + SessionLifetime)];
      var service := FindService(services, company.id, data.serviceId);
      if service.None? {
        return Raised;
      }
      outbox := outbox + [Send(chatId, ConfirmPrompt(c, data.date, data.time, service.value.name, service.value.formattedPrice), ConfirmKeyboard())];
      return Handled;
    }

    /** processBooking: with no live session, says the data is out of date. Otherwise
        creates the pending appointment of the session under the next id and forgets the
        session; when that fails the error is caught, the client is told and the session is
        kept. Checks neither the time nor the capacity of the slot. */
    method ProcessBooking(company: Company, chatId: int, messageId: int, clock: int)
      requires Valid()
      modifies this
      ensures Valid()
      ensures var live := LiveData(old(sessions), chatId, clock);
              match live
              case None =>
                sessions == old(sessions) && appointments == old(appointments) && nextId == old(nextId)
                && outbox == old(outbox) + [Send(chatId, Outdated, [])]
              case Some(d) =>
                match NewAppointment(company, services, d, old(nextId))
                case None =>
                  sessions == old(sessions) && appointments == old(appointments) && nextId == old(nextId)
                  && outbox == old(outbox) + [Send(chatId, BookingFailed, [])]
                case Some(a) =>
                  appointments == old(appointments) + [a] && nextId == old(nextId) + 1
                  && (forall b :: b in old(appointments) ==> b.id < a.id)
                  && sessions == old(sessions) - {chatId}
                  && outbox == old(outbox) + BookedMessages(company, chatId, messageId, a)
    {
      var bookingData := Live(chatId, clock);
      if bookingData.None? {
        outbox := outbox + [Send(chatId, Outdated, [])];
        return;
      }
      var appointment := NewAppointment(company, services, bookingData.value, nextId);
      if appointment.None? {
        outbox := outbox + [Send(chatId, BookingFailed, [])];
        return;
      }
      appointments := appointments + [appointment.value];
      nextId := nextId + 1;
      sessions := sessions - {chatId};
      outbox := outbox + [Edit(chatId, messageId, BookingCreated(appointment.value.id, appointment.value.date, appointment.value.time), [])];
      if company.notificationsEnabled && company.ownerChatId.Some? && !PhpEmpty(company.ownerChatId.value) {
        outbox := outbox + [Notify(company.ownerChatId.value, OwnerNotice(appointment.value.id))];
      }
    }

    /** cancelBooking: forgets the chat's session, whatever it held. */
    method CancelBooking(chatId: int, messageId: int)
      requires Valid()
      modifies this
      ensures Valid()
      ensures sessions == old(sessions) - {chatId}
      ensures appointments == old(appointments) && nextId == old(nextId)
      ensures outbox == old(outbox) + [Edit(chatId, messageId, BookingCancelled, [])]
    {
      sessions := sessions - {chatId};
      outbox := outbox + [Edit(chatId, messageId, BookingCancelled, [])];
    }

    /** What a button press does to the session and the appointment table: the dates and
        the times only show things; choosing a service starts the session (unless it throws);
        confirming books the session's appointment when it can be made; cancelling forgets
        the session; an unknown action does nothing. */
    twostate predicate Dispatched(company: Company, chatId: int, cb: Callback, clock: int, r: Outcome)
      reads this`sessions, this`appointments, this`nextId
    {
      match cb
      case SelectDate(_) => sessions == old(sessions) && appointments == old(appointments) && nextId == old(nextId)
      case SelectTime(_, _) =>
        r == Handled && sessions == old(sessions) && appointments == old(appointments) && nextId == old(nextId)
      case SelectService(date, time, id) =>
        appointments == old(appointments) && nextId == old(nextId)
        && (r == Handled <==> FindService(services, company.id, id).Some?)
        && (r == Handled ==>
              sessions == old(sessions)[chatId := Session(BookingData(date, time, id, WaitingContact, None), clock + SessionLifetime)])
        && (r == Raised ==> sessions == old(sessions))
      case ConfirmBooking =>
        r == Handled
        && (match LiveData(old(sessions), chatId, clock)
            case None => appointments == old(appointments) && sessions == old(sessions) && nextId == old(nextId)
            case Some(d) =>
              (match NewAppointment(company, services, d, old(nextId))
               case None => appointments == old(appointments) && sessions == old(sessions) && nextId == old(nextId)
               case Some(a) =>
                 appointments == old(appointments) + [a] && nextId == old(nextId) + 1
                 && sessions == old(sessions) - {chatId}))
      case CancelBooking =>
        r == Handled && sessions == old(sessions) - {chatId} && appointments == old(appointments) && nextId == old(nextId)
      case Other(_) =>
        r == Handled && sessions == old(sessions) && appointments == old(appointments) && nextId == old(nextId)
    }

    /** The switch of handleCallbackQuery. */
    method Dispatch(company: Company, chatId: int, messageId: int, cb: Callback, today: Date, clock: int)
      returns (r: Outcome)
      requires Valid() && Dates.Valid(today)
      requires cb.SelectDate? ==> GetCalendarSettings(company.settings).interval > 0
      modifies this
      ensures Valid()
      ensures old(outbox) <= outbox
      ensures r == Raised <==> DispatchRaises(company, services, cb, old(appointments))
      ensures r == Raised || cb.Other? ==> outbox == old(outbox)
      ensures Dispatched(company, chatId, cb, clock, r)
    {
      r := Handled;
      match cb {
        case SelectDate(date) =>
          r := ShowTimeSlots(company, chatId, messageId, date, today);
        case SelectTime(date, time) =>
          ShowServiceSelection(company, chatId, messageId, date, time);
        case SelectService(date, time, serviceId) =>
          r := ShowContactForm(company, chatId, messageId, date, time, serviceId, clock);
        case ConfirmBooking =>
          ProcessBooking(company, chatId, messageId, clock);
        case CancelBooking =>
          CancelBooking(chatId, messageId);
        case Other(_) =>
      }
    }

    /** handleCallbackQuery: reads the sender, the message and the data (a missing one
        throws), dispatches on the action and, unless something threw, answers the query.
        An action it does not know changes nothing but is answered too. */
    method HandleCallbackQuery(company: Company, q: CallbackQuery, today: Date, clock: int)
      returns (r: Outcome)
      requires Valid() && Dates.Valid(today)
      requires SelectsDate(q) ==> GetCalendarSettings(company.settings).interval > 0
      modifies this
      ensures Valid()
      ensures old(outbox) <= outbox
      ensures r == Raised <==> CallbackRaises(company, services, q, old(appointments))
      ensures q.messageId.None? || q.data.None? || ParseCallbackJoined(q.data.value).Thrown? ==>
                r == Raised && unchanged(this)
      ensures r == Raised ==>
                outbox == old(outbox) && sessions == old(sessions) && appointments == old(appointments)
                && nextId == old(nextId)
      ensures r == Handled ==> |outbox| > |old(outbox)| && outbox[|outbox| - 1] == Answer(q.id)
      ensures q.messageId.Some? && q.data.Some? && ParseCallbackJoined(q.data.value).Ok? ==>
                var cb := ParseCallbackJoined(q.data.value).value;
                Dispatched(company, q.fromId, cb, clock, r)
                && (cb.Other? ==> outbox == old(outbox) + [Answer(q.id)])
    {
      var chatId := q.fromId;
      if q.messageId.None? || q.data.None? {
        return Raised;
      }
      var messageId := q.messageId.value;
      var callback := ParseCallbackJoined(q.data.value);
      if callback.Thrown? {
        return Raised;
      }
      r := Dispatch(company, chatId, messageId, callback.value, today, clock);
      if r == Handled {
        outbox := outbox + [Answer(q.id)];
      }
    }

    /** What handleMessage does: /start and /book show the dates, /help and /cancel their
        texts, the session untouched; any other text is a contact reply, with the three
        outcomes of handleContactInput. No appointment is made. */
    twostate predicate MessageHandled(company: Company, m: Message, today: Date, clock: int, r: Outcome)
      requires Dates.Valid(today)
      reads this
    {
      var text := if m.text.Some? then m.text.value else "";
      appointments == old(appointments) && nextId == old(nextId)
      && if IsCommand(text) then
        r == Handled && sessions == old(sessions)
        && outbox == old(outbox) + [CommandReply(company, m.fromId, text, today)]
      else
        ContactHandled(company, m.fromId, text, clock, r)
    }

    /** The commands of handleMessage: /start and /book show the dates, /help the help and
        /cancel how to cancel; each sends one message and leaves the session as it is. */
    method ReplyToCommand(company: Company, chatId: int, text: string, today: Date)
      requires Valid() && Dates.Valid(today) && IsCommand(text)
      modifies this
      ensures Valid()
      ensures sessions == old(sessions) && appointments == old(appointments) && nextId == old(nextId)
      ensures outbox == old(outbox) + [CommandReply(company, chatId, text, today)]
    {
      if text == "/start" || text == "/book" {
        var keyboard := CreateDateKeyboard(company.settings, today, None);
        outbox := outbox + [Send(chatId, Welcome(company.name), keyboard)];
      } else if text == "/help" {
        outbox := outbox + [Send(chatId, Help, [])];
      } else {
        outbox := outbox + [Send(chatId, CancelOptions, [])];
      }
    }

    /** handleMessage: /start and /book show the dates, /help the help, /cancel how to
        cancel, without touching the session; any other text, or none, is a contact reply. */
    method HandleMessage(company: Company, m: Message, today: Date, clock: int)
      returns (r: Outcome)
      requires Valid() && Dates.Valid(today)
      modifies this
      ensures Valid()
      ensures old(outbox) <= outbox
      ensures MessageHandled(company, m, today, clock, r)
    {
      var chatId := m.fromId;
      var text := if m.text.Some? then m.text.value else "";
      if IsCommand(text) {
        ReplyToCommand(company, chatId, text, today);
        r := Handled;
      } else {
        r := HandleContactInput(company, chatId, text, clock);
      }
    }

    /** The dialogue of one chat from the choice of a service to the confirmation: each step
        comes within 1800 seconds of the last write, the contact reply is accepted and the
        service exists. It books the one pending appointment made of the choice and the
        contact, under the next id, and ends the session; a later confirmation of the same
        chat finds no session. */
    method BookingDialogue(company: Company, chatId: int, messageId: int, date: string, time: string,
                           serviceId: string, text: string, chosenAt: int, repliedAt: int, confirmedAt: int)
      requires Valid()
      requires FindService(services, company.id, serviceId).Some?
      requires Accepted(ContactLines(text))
      requires chosenAt <= repliedAt < chosenAt + SessionLifetime
      requires repliedAt <= confirmedAt < repliedAt + SessionLifetime
      modifies this
      ensures Valid()
      ensures var s := FindService(services, company.id, serviceId).value;
              var c := ContactLines(text);
              appointments == old(appointments)
                + [Appointment(old(nextId), company.id, s.id, c.name, c.phone, c.email, date, time,
                               s.durationMinutes, Pending, BotNote)]
      ensures LiveData(sessions, chatId, confirmedAt) == None
    {
      var chosen := ShowContactForm(company, chatId, messageId, date, time, serviceId, chosenAt);
      assert Live(chatId, repliedAt) == Some(BookingData(date, time, serviceId, WaitingContact, None));
      var replied := HandleContactInput(company, chatId, text, repliedAt);
      ProcessBooking(company, chatId, messageId, confirmedAt);
    }

    /** handle(): for a company found by its bot token, the callback query and then the
        message of the update; 500 when either throws (the message is then not handled),
        else 200. An unknown bot gets 200 and nothing happens. */
    method Handle(company: Option<Company>, update: Update, today: Date, clock: int)
      returns (status: int)
      requires Valid() && Dates.Valid(today)
      requires company.Some? && update.callbackQuery.Some? && SelectsDate(update.callbackQuery.value) ==>
                 GetCalendarSettings(company.value.settings).interval > 0
      modifies this
      ensures Valid()
      ensures status == 200 || status == 500
      ensures company.None? ==> status == 200 && outbox == old(outbox) && sessions == old(sessions)
                                && appointments == old(appointments)
      ensures old(outbox) <= outbox
      ensures company.Some? && update.callbackQuery.Some?
              && CallbackRaises(company.value, services, update.callbackQuery.value, old(appointments)) ==>
                status == 500 && outbox == old(outbox) && sessions == old(sessions)
                && appointments == old(appointments) && nextId == old(nextId)
      ensures company.Some? && update.callbackQuery.Some? && update.message.None?
              && !CallbackRaises(company.value, services, update.callbackQuery.value, old(appointments)) ==>
                var q := update.callbackQuery.value;
                status == 200 && |outbox| > |old(outbox)| && outbox[|outbox| - 1] == Answer(q.id)
                && Dispatched(company.value, q.fromId, ParseCallbackJoined(q.data.value).value, clock, Handled)
      ensures company.Some? && update.callbackQuery.None? && update.message.Some? ==>
                MessageHandled(company.value, update.message.value, today, clock, if status == 500 then Raised else Handled)
    {
      if company.None? {
        return 200;
      }
      if update.callbackQuery.Some? {
        var r := HandleCallbackQuery(company.value, update.callbackQuery.value, today, clock);
        if r == Raised {
          return 500;
        }
      }
      if update.message.Some? {
        var r := HandleMessage(company.value, update.message.value, today, clock);
        if r == Raised {
          return 500;
        }
      }
      return 200;
    }
  }
}
