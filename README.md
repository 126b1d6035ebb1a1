# Booking calendar and Telegram booking bot — a Dafny model

This project models the core of a small appointment-booking system. Each company publishes a
booking calendar on the web. Clients can also book through the company's Telegram bot. The
model covers:

- **Calendar settings** (`HasCalendarSettings`): the company's stored settings merged over
  the defaults; holidays, work days and breaks; and the time slots of a day.
- **The bot's keyboards and free times** (`TelegramBotService`): the date keyboard, two
  buttons to a row; the time keyboard, three to a row; the service keyboard; the free times
  of a date found by counting bookings; and the Russian weekday abbreviations.
- **The webhook dialogue** (`TelegramWebhookController`): the update handler, the reading of
  button payloads with `explode(':')`, and the chat session kept in the cache for 1800
  seconds. The dialogue runs through the date, time, service and contact steps, then ends
  with confirmation or cancellation.
- **The calendar page script** (`show_script.blade.php`): the `CalendarUtils` helper, the
  month grid and its day cells, time-slot display, the booking form's "not in the past"
  check, the edit-form diff, the date converters and the status maps.
- **The service controller** (`ServiceController`): store, update and destroy, each with
  the owner check, Laravel's validation rules and the not-found paths. A service that has
  appointments is deactivated instead of deleted.

Modules, one per file:

| file | module | what it holds |
|---|---|---|
| `text.dfy` | `Wrappers`, `Text` | Option/Result, `explode`/`implode`, trimming, decimal digits |
| `dates.dfy` | `Dates` | proleptic Gregorian dates, day numbers, weekdays, Carbon's `format` and `createFromFormat('H:i')` |
| `php_values.dfy` | `PhpValues` | PHP values of the settings JSON, `??`, `(int)`, `(bool)`, loose `in_array` |
| `models.dfy` | `Models` | appointments, services, companies |
| `calendar_settings.dfy` | `CalendarSettings` | the settings trait |
| `bot_service.dfy` | `BotService` | the bot service's keyboards and free times |
| `callbacks.dfy` | `Callbacks` | button payloads and how the webhook reads them |
| `webhook.dfy` | `Webhook` | the webhook controller as the class `TelegramWebhook` (sessions, appointments, outbox) |
| `calendar_utils.dfy` | `CalendarUtils` | the page script; the month grid as the class `CalendarPage` |
| `service_controller.dfy` | `ServiceController` | the validator and the class `ServiceTable` |

Code that changes state is modelled by classes whose methods say what they change:

- `TelegramWebhook`, whose fields are the cache of sessions, the appointment table and the
  messages sent;
- `CalendarPage`, whose field is the calendar body;
- `ServiceTable`, whose fields are the service table and its next id.

Loops are methods with loop invariants, proved equal to a function that states what the loop
computes: the slot loop of `generateTimeSlots`, the loops of `getAvailableTimeSlots` and
`createDateKeyboard`, and the three loops of `renderCalendar`. Separate lemmas then prove
what those functions promise.

Clocks become parameters:

- the current date (`today`);
- the time of day in seconds (`now`) for the server;
- the time of day in milliseconds (`nowMs`) for the browser;
- the cache's clock in seconds (`clock`).

The authenticated user's id is a parameter too.

## Model

| member | source | states |
|---|---|---|
| PhpValues.Coalesce | app/Traits/HasCalendarSettings.php:20-29 | `$v[$key] ?? $default` is the default exactly when the key is missing or null, else the stored non-null value |
| PhpValues.List | app/Traits/HasCalendarSettings.php:24 | a list literal is an array holding its elements in order |
| CalendarSettings.StoredSetting | app/Traits/HasCalendarSettings.php:20-21 | a setting kept as stored is the default when unset, else the stored value |
| CalendarSettings.IntSetting | app/Traits/HasCalendarSettings.php:22-23 | `(int)(… ?? default)`: the default when unset, else PHP's integer cast of the stored value |
| CalendarSettings.BoolSetting | app/Traits/HasCalendarSettings.php:25-26 | `(bool)(… ?? default)`: the default when unset, else PHP's truthiness of the stored value |
| CalendarSettings.ListSetting | app/Traits/HasCalendarSettings.php:33-43 | a list setting that fails its validation falls back to the default; the result always passes |
| CalendarSettings.GetCalendarSettings | app/Traits/HasCalendarSettings.php:14-46 | the resolved work days are a non-empty array; holidays and breaks are arrays |
| CalendarSettings.DefaultSettings | app/Traits/HasCalendarSettings.php:19-30 | with nothing stored: 09:00-18:00, 30-minute slots, 14 days ahead, Monday-Friday, e-mail on, no confirmation, no holidays, no breaks, one booking per slot |
| CalendarSettings.DefaultWorkWeek | app/Traits/HasCalendarSettings.php:33-35 | without a usable work-day list, a date is a work day exactly when it is Monday-Friday and not a holiday |
| CalendarSettings.DefaultDayNames | app/Traits/HasCalendarSettings.php:24 | the default list names exactly Monday to Friday |
| CalendarSettings.BreakList | app/Traits/HasCalendarSettings.php:40-42 | the breaks isBreakTime scans are those of the resolved settings |
| CalendarSettings.IsBreakTime | app/Traits/HasCalendarSettings.php:82-97 | the foreach computes the break-scan result: throws on an unparseable time, else scans the breaks |
| CalendarSettings.BreakScanMeaning | app/Traits/HasCalendarSettings.php:87-96 | with readable breaks, a time is a break time exactly when some break holds it, both ends included |
| CalendarSettings.ScanReachesUnreadable | app/Traits/HasCalendarSettings.php:87-90 | reaching an unreadable break, past readable breaks that miss the time, throws |
| CalendarSettings.ScanThrowWitness | app/Traits/HasCalendarSettings.php:87-90 | a throwing scan names the unreadable break it reached |
| CalendarSettings.BreakScanThrows | app/Traits/HasCalendarSettings.php:87-96 | the scan throws exactly when an unreadable break comes before any break holding the time |
| CalendarSettings.MakeSlot | app/Traits/HasCalendarSettings.php:129-140 | a slot's time is its 'H:i' reading; it is available exactly when not past, and past exactly when the date is today and its start in seconds is before the current time of day |
| CalendarSettings.StepsAt | app/Traits/HasCalendarSettings.php:128-144 | the loop visits exactly start + k * interval for every k with that sum below the end |
| CalendarSettings.StepsFrom | app/Traits/HasCalendarSettings.php:128 | every visited time lies between the start and the end |
| CalendarSettings.KeptTimesThrows | app/Traits/HasCalendarSettings.php:128-132 | the loop throws exactly when the break check of some visited time throws |
| CalendarSettings.KeptTimesContents | app/Traits/HasCalendarSettings.php:128-144 | a loop that does not throw keeps exactly the visited times outside the breaks, in increasing order |
| CalendarSettings.GenerateTimeSlots | app/Traits/HasCalendarSettings.php:105-148 | returns the time-slots function of the settings, date and clock; a date that is not a work day has no slots |
| CalendarSettings.BreakCheckAt | app/Traits/HasCalendarSettings.php:129-132 | `isBreakTime($currentTime->format('H:i'))` equals the break check the loop is proved against |
| CalendarSettings.AddTimeSlot | app/Traits/HasCalendarSettings.php:132-140 | the loop body adds exactly the slot of the current time to the slots of the times kept so far |
| CalendarSettings.VisitSlot | app/Traits/HasCalendarSettings.php:129-143 | one pass of the loop: a time outside the breaks is kept with its slot, and the loop's progress holds at the next time |
| CalendarSettings.SlotLoop | app/Traits/HasCalendarSettings.php:128-144 | the while loop yields one slot per kept time, in order, or throws, as the loop's specification function says |
| CalendarSettings.IsHoliday | app/Traits/HasCalendarSettings.php:54-60 | isHoliday: the date written Y-m-d is in the merged holiday list; CalendarSettings.ListedHoliday and CalendarSettings.NoHolidays prove what that means for a listed date and for an empty list |
| CalendarSettings.IsWorkDay | app/Traits/HasCalendarSettings.php:68-74 | isWorkDay: the lower-case English weekday name is in the merged work-day list and the date is no holiday; CalendarSettings.ListedWorkDay and CalendarSettings.DefaultWorkWeek prove its meaning |
| CalendarSettings.ListedHoliday | app/Traits/HasCalendarSettings.php:54-74 | a date whose Y-m-d is in the stored holiday list is a holiday and not a work day |
| CalendarSettings.NoHolidays | app/Traits/HasCalendarSettings.php:54-60 | without a stored holiday list no date is a holiday |
| CalendarSettings.ListedWorkDay | app/Traits/HasCalendarSettings.php:68-74 | a date whose lower-case English day name is in the stored work-day list is a work day exactly when it is not a holiday |
| Dates.DaysInMonth | app/Services/TelegramBotService.php:120 | month lengths of the Gregorian calendar, 28 to 31 |
| Dates.DaysBeforeYear | app/Services/TelegramBotService.php:120 | the days before a year are never negative |
| Dates.NextDay | app/Services/TelegramBotService.php:120 | the next day of a valid date is a valid date |
| Dates.AddDays | app/Services/TelegramBotService.php:120 | `addDays(n)` of a valid date is a valid date |
| Dates.NextDayNumber | app/Services/TelegramBotService.php:120 | the next day's day number is one more |
| Dates.AddDaysNumber | app/Services/TelegramBotService.php:120 | adding n days adds n to the day number |
| Dates.DayNumberInjective | app/Services/TelegramBotService.php:119-147 | distinct dates have distinct day numbers, so day numbers order dates |
| Dates.YearsApart | app/Services/TelegramBotService.php:120 | a later year starts after the whole of an earlier one |
| Dates.DayNumberNonNegative | app/Services/TelegramBotService.php:120 | day numbers count from 0001-01-01 and are never negative |
| Dates.IsoIndex | app/Services/TelegramBotService.php:123 | the Monday-first index of a weekday is below 7 and names that weekday |
| Dates.IndexOfWeekday | app/Services/TelegramBotService.php:123 | indices and weekdays correspond one to one |
| Dates.WeekdayAfter | app/Services/TelegramBotService.php:120-123 | n days on, the weekday has moved n places round the week |
| Dates.EnglishNameInjective | app/Traits/HasCalendarSettings.php:71 | the English weekday names are distinct |
| Dates.NatToStringShort | app/Traits/HasCalendarSettings.php:57 | a number below 10^k is written with at most k digits |
| Dates.YearDigitsLength | app/Traits/HasCalendarSettings.php:57 | `format('Y')` writes years up to 9999 with four digits |
| Dates.FormatYmd | app/Traits/HasCalendarSettings.php:57 | `format('Y-m-d')` holds no ':' and has ten characters for four-digit years |
| Dates.FormatDayMonth | app/Services/TelegramBotService.php:134 | `format('d.m')` is five characters with a '.' in the middle |
| Dates.ParseHM | app/Traits/HasCalendarSettings.php:116-117 | `createFromFormat('H:i')` accepts only strings of four or five characters, with values past the clock rolling over |
| Dates.FormatHM | app/Traits/HasCalendarSettings.php:129 | `format('H:i')` is five characters with ':' in the middle |
| Dates.ParseFormatHM | app/Traits/HasCalendarSettings.php:85 | parsing a formatted time gives back its clock reading |
| Dates.FormatHMInjective | app/Traits/HasCalendarSettings.php:129 | `format('H:i')` is one-to-one on the minutes of a day |
| Dates.ClockReading | app/Traits/HasCalendarSettings.php:129 | the halves of `format('H:i')` are the two-digit hour and minute |
| Text.Explode | app/Http/Controllers/TelegramWebhookController.php:72 | `explode` always yields at least one piece |
| Text.ExplodePartsHaveNoSeparator | app/Http/Controllers/TelegramWebhookController.php:72 | no piece holds the separator |
| Text.ExplodeLength | app/Http/Controllers/TelegramWebhookController.php:72 | there is one more piece than there are separators |
| Text.JoinExplode | app/Http/Controllers/TelegramWebhookController.php:72 | gluing the pieces back with the separator gives the string |
| Text.ExplodeJoin | app/Http/Controllers/TelegramWebhookController.php:72 | exploding a join of separator-free pieces gives the pieces |
| Text.ExplodePrefix | app/Http/Controllers/TelegramWebhookController.php:72 | a separator-free prefix is glued onto the first piece |
| Text.ExplodeHead | app/Http/Controllers/TelegramWebhookController.php:73 | the first piece is the text before the first separator |
| Text.ExplodeCons | app/Http/Controllers/TelegramWebhookController.php:72 | a separator-free piece and a separator come off as the first piece |
| Text.ExplodeSnoc | app/Http/Controllers/TelegramWebhookController.php:72 | a separator and a final separator-free piece come off as the last piece |
| Text.ExplodeHeadIs | app/Http/Controllers/TelegramWebhookController.php:73 | the first piece is a given text exactly when the string is that text or starts with it and the separator |
| Text.TrimStart | app/Http/Controllers/TelegramWebhookController.php:221 | trimming the front drops a prefix of spaces and leaves no space first |
| Text.TrimEnd | app/Http/Controllers/TelegramWebhookController.php:221 | trimming the end drops a suffix of spaces and leaves no space last |
| Text.Trim | app/Http/Controllers/TelegramWebhookController.php:221 | `trim` leaves no space at either end |
| Text.TrimKeeps | app/Http/Controllers/TelegramWebhookController.php:221 | a string with no space at either end is left as it is |
| Text.DigitChar | app/Traits/HasCalendarSettings.php:129 | a digit character has the value it is made from |
| Text.Pad2 | app/Traits/HasCalendarSettings.php:129 | two-digit padding spells its number |
| Text.Pad2Injective | app/Traits/HasCalendarSettings.php:129 | different numbers below 100 are padded differently |
| Text.NatToString | app/Services/TelegramBotService.php:207 | a decimal id is digits without a leading zero |
| Text.NatToStringRoundTrip | app/Services/TelegramBotService.php:207 | reading back the decimal form of a number gives the number |
| Text.PadStart | resources/views/company/show_script.blade.php:19-21 | `padStart` pads on the left with the fill up to the width and keeps the string at the end |
| BotService.GetDayName | app/Services/TelegramBotService.php:368-380 | each weekday's abbreviation has two letters |
| BotService.DayNamesDistinct | app/Services/TelegramBotService.php:371-377 | the seven abbreviations are distinct |
| BotService.Chunk | app/Services/TelegramBotService.php:143-152 | the buttons in rows of n, the last row holding the rest; BotService.ChunkFlatten, BotService.ChunkSizes and BotService.ChunkCount prove that order, row sizes and row count are kept |
| BotService.ChunkFlatten | app/Services/TelegramBotService.php:143-152 | rows of n keep the buttons in order |
| BotService.ChunkSizes | app/Services/TelegramBotService.php:143-152 | every row but the last is full, and no row is empty or too long |
| BotService.ChunkCount | app/Services/TelegramBotService.php:143-152 | the number of rows is the ceiling of the buttons over n |
| BotService.ChunkRows | app/Services/TelegramBotService.php:143-152 | full rows plus the left-over row, which is added only when non-empty |
| BotService.DateOffsets | app/Services/TelegramBotService.php:119-131 | the offsets below the number of days whose date passes the day test, in increasing order, as BotService.DateOffsetsMeaning proves |
| BotService.DateOffsetsMeaning | app/Services/TelegramBotService.php:119-147 | an offset is listed exactly when it is below the number of days and passes the day test, in increasing order |
| BotService.OfferedDates | app/Services/TelegramBotService.php:119-131 | a date is offered exactly when it lies fewer than daysAhead days from today and is a work day; later buttons carry later dates |
| BotService.DateButton | app/Services/TelegramBotService.php:129-140 | label "d.m (abbreviation)", payload "select_date:Y-m-d" |
| BotService.CreateDateKeyboard | app/Services/TelegramBotService.php:110-155 | the buttons of the offered dates, two to a row |
| BotService.AddDate | app/Services/TelegramBotService.php:136-146 | the loop body extends the laid-out buttons by this date's button, closing full rows of two |
| BotService.VisitDay | app/Services/TelegramBotService.php:119-147 | one pass of the for loop: the button of an offered day is laid out and the offsets are those up to the next day |
| BotService.DateRows | app/Services/TelegramBotService.php:119-152 | the loop and the last row give the chunked buttons of the offered offsets |
| BotService.TimeButton | app/Services/TelegramBotService.php:166-169 | a time button shows the time and sends "select_time:{date}:{time}" |
| BotService.CreateTimeKeyboard | app/Services/TelegramBotService.php:160-189 | the times three to a row and then the back row; row sizes and the row count are bounded as for chunking |
| BotService.ServiceLabel | app/Services/TelegramBotService.php:199-202 | the label is the name, plus " - " and the formatted price exactly when the price is positive |
| BotService.ServiceButton | app/Services/TelegramBotService.php:199-208 | the service button: its label, and a payload "select_service:{date}:{time}:{id}"; Callbacks.ServiceButtonRoundTripJoined proves that, for a date without a colon, the payload reads back as that date, time and id |
| BotService.CreateServiceKeyboard | app/Services/TelegramBotService.php:194-218 | one row per service in the given order, then the back row to the date |
| BotService.Booked | app/Services/TelegramBotService.php:226-230 | the bookings counted are the company's on the date that are not cancelled |
| BotService.PutCount | app/Services/TelegramBotService.php:230 | a keyed put adds a time only when it is new |
| BotService.KeyBy | app/Services/TelegramBotService.php:230 | keyBy: one entry per time, the last one winning; BotService.KeyByCount proves that every booked time then counts once |
| BotService.KeyByCount | app/Services/TelegramBotService.php:230 | after `keyBy('appointment_time')` every booked time counts once and no other time counts |
| BotService.OfferRoom | app/Services/TelegramBotService.php:257-266 | every offered slot is at a kept time and has capacity minus count places, at least one |
| BotService.OfferComplete | app/Services/TelegramBotService.php:257-266 | a kept time is offered exactly when fewer than the capacity are counted at it |
| BotService.AvailableSlots | app/Services/TelegramBotService.php:223-273 | the free times getAvailableTimeSlots returns as written, with the bookings keyed by time; BotService.KeyByOverbooks proves that a slot can then be offered past its capacity |
| BotService.GetAvailableTimeSlots | app/Services/TelegramBotService.php:223-273 | as written: the free times with the bookings keyed by time |
| BotService.FreeSlots | app/Services/TelegramBotService.php:232-272 | throws when the hours cannot be read, else the times the loop keeps that have room beside the given bookings |
| BotService.GetCountedTimeSlots | app/Services/TelegramBotService.php:223-273 | corrected: the free times with every booking of the company on the date counted |
| BotService.BotBreakCheckAt | app/Services/TelegramBotService.php:244-253 | the break foreach, start included and end excluded, equals the break check the loop is proved against |
| BotService.VisitTime | app/Services/TelegramBotService.php:240-269 | one pass of the while loop: a time outside the breaks is kept, its slot added when it has room, and the loop's progress holds at the next time |
| BotService.AddSlot | app/Services/TelegramBotService.php:255-267 | the loop body adds the current time's slot exactly when it has room |
| BotService.OfferLoop | app/Services/TelegramBotService.php:240-270 | the while loop yields the offered slots of the kept times, or throws |
| BotService.KeyByOffersEveryTime | app/Services/TelegramBotService.php:226-264 | as written, with a capacity of two or more, every kept time is offered however many are booked at it |
| BotService.KeyByOverbooks | app/Services/TelegramBotService.php:226-264 | two bookings at 10:00 with capacity two still leave 10:00 offered with one place |
| BotService.CountedSlots | app/Services/TelegramBotService.php:223-273 | the free times with every booking counted; BotService.CountedSlotsRespectCapacity proves that an offered slot has room left |
| BotService.CountedSlotsRespectCapacity | app/Services/TelegramBotService.php:257-264 | with every booking counted, an offered slot's places are the capacity minus the real bookings, at least one |
| Callbacks.ParseCallback | app/Http/Controllers/TelegramWebhookController.php:72-101 | only a known action can throw (a missing part); an unknown action is passed on as itself |
| Callbacks.ConfirmIsPrefix | app/Http/Controllers/TelegramWebhookController.php:72-92 | a press confirms exactly when its data is "confirm_booking" or starts with "confirm_booking:" |
| Callbacks.SelectDateRoundTrip | app/Http/Controllers/TelegramWebhookController.php:76-79 | "select_date:{date}" is read back as that date |
| Callbacks.DateButtonRoundTrip | app/Services/TelegramBotService.php:136-139 | every date button is read back as the Y-m-d it carries |
| Callbacks.BackToTimesRoundTrip | app/Services/TelegramBotService.php:213-215 | the service keyboard's back row is read back as its date |
| Callbacks.UnknownAction | app/Http/Controllers/TelegramWebhookController.php:72-101 | an action with no ':' that the switch does not know is passed on unchanged by both readings |
| Callbacks.BackToDatesIgnored | app/Services/TelegramBotService.php:184-186 | the time keyboard's back row sends an action the switch does not know |
| Callbacks.ServicePieces | app/Services/TelegramBotService.php:207 | the pieces of a service payload are the action, the date, the time's pieces and the id |
| Callbacks.ServiceButtonRoundTrip | app/Http/Controllers/TelegramWebhookController.php:86-91 | a service button whose time has no ':' is read back as its date, time and id |
| Callbacks.TimeButtonLosesMinutes | app/Http/Controllers/TelegramWebhookController.php:81-84 | as written, a time "HH:MM" comes back as the hour alone |
| Callbacks.OfferedTimeTruncated | app/Http/Controllers/TelegramWebhookController.php:81-84 | every offered time comes back as its first two characters, which differ from the time |
| Callbacks.TenThirtyBecomesTen | app/Http/Controllers/TelegramWebhookController.php:81-84 | the 10:30 button selects "10" |
| Callbacks.ParseCallbackJoined | app/Http/Controllers/TelegramWebhookController.php:72-91 | the payload read with the date as part 1, the id as the last part and the time joined back with ':' between them; Callbacks.TimeButtonRoundTripJoined and Callbacks.ServiceButtonRoundTripJoined prove that every button reads back as what it encodes, and Callbacks.ReadingsAgreeWithoutColons that it agrees with the code's reading when no argument holds a ':' |
| Callbacks.TimeButtonRoundTripJoined | app/Http/Controllers/TelegramWebhookController.php:81-84 | with the joined reading every time button selects its time |
| Callbacks.ServiceButtonRoundTripJoined | app/Http/Controllers/TelegramWebhookController.php:86-91 | with the joined reading every service button selects its date, time and id |
| Callbacks.ReadingsAgreeWithoutColons | app/Http/Controllers/TelegramWebhookController.php:72-101 | where no argument holds a ':', the joined reading and the code's reading agree |
| Webhook.LiveData | app/Http/Controllers/TelegramWebhookController.php:214 | cache()->get: the chat's session data while it has not expired; Webhook.PutThenGet proves that a put session reads back for 1800 seconds and not after, and Webhook.OtherChatsKept that other chats are not affected |
| Webhook.PutThenGet | app/Http/Controllers/TelegramWebhookController.php:199-214 | a session put at time c is read back before c + 1800 and not from then on |
| Webhook.OtherChatsKept | app/Http/Controllers/TelegramWebhookController.php:199-204 | writing or forgetting one chat's session leaves every other chat's unchanged |
| Webhook.FindService | app/Http/Controllers/TelegramWebhookController.php:188-189 | the service found is the company's service with the id the text names; none when there is no such service |
| Webhook.ActiveServices | app/Http/Controllers/TelegramWebhookController.php:173-175 | exactly the company's active services |
| Webhook.ContactLines | app/Http/Controllers/TelegramWebhookController.php:221-224 | the name, phone and e-mail read from the reply hold no line break |
| Webhook.ContactRoundTrip | app/Http/Controllers/TelegramWebhookController.php:221-224 | a reply of name, phone and optional e-mail on separate lines is read back as those three |
| Webhook.Accepted | app/Http/Controllers/TelegramWebhookController.php:227-231 | a contact is accepted unless empty() holds of its name or its phone; Webhook.OneLineRejected proves that a one-line reply is refused |
| Webhook.OneLineRejected | app/Http/Controllers/TelegramWebhookController.php:227-231 | a reply on one line is refused: it has no phone |
| Webhook.NewAppointment | app/Http/Controllers/TelegramWebhookController.php:291-302 | an appointment is made exactly when the session holds a contact and names a company service; it is pending, with the service's duration and the bot's note |
| Webhook.TelegramWebhook.constructor | app/Http/Controllers/TelegramWebhookController.php:24-60 | the bot starts with no sessions, no appointments and nothing sent |
| Webhook.TelegramWebhook.ShowTimeSlots | app/Http/Controllers/TelegramWebhookController.php:151-166 | shows the free times, counting every booking, or the dates again when none; throws when the hours or a break cannot be read; the session is untouched |
| Webhook.TelegramWebhook.ShowServiceSelection | app/Http/Controllers/TelegramWebhookController.php:171-181 | shows the company's active services for the date and time; nothing else changes |
| Webhook.TelegramWebhook.ShowContactForm | app/Http/Controllers/TelegramWebhookController.php:186-207 | throws exactly when the service is unknown; otherwise stores the choice, waiting for the contact, for 1800 seconds, and asks for it |
| Webhook.TelegramWebhook.HandleContactInput | app/Http/Controllers/TelegramWebhookController.php:212-243 | ignored without a live waiting session; a reply without name or phone is asked for again; else the contact is stored |
| Webhook.TelegramWebhook.StoreContact | app/Http/Controllers/TelegramWebhookController.php:234-273 | stores the contact for 1800 seconds, moves to the confirm step and shows the confirmation |
| Webhook.TelegramWebhook.ProcessBooking | app/Http/Controllers/TelegramWebhookController.php:278-337 | no live session: "out of date"; otherwise the pending appointment is added under the next id, above every id already stored, and the session forgotten; a failure is caught, reported, and changes nothing |
| Webhook.TelegramWebhook.CancelBooking | app/Http/Controllers/TelegramWebhookController.php:342-349 | forgets the chat's session and says so; nothing else changes |
| Webhook.TelegramWebhook.Dispatch | app/Http/Controllers/TelegramWebhookController.php:75-101 | each action runs its step (Dispatched states the new state per action); it raises exactly when select_date's free times throw (the working hours or a break cannot be read) or select_service names no service of the company; an unknown action or a raise sends nothing; only select_date needs an interval above zero |
| Webhook.TelegramWebhook.HandleCallbackQuery | app/Http/Controllers/TelegramWebhookController.php:65-105 | the payload is read with the joined reading; it raises exactly when the message or data is missing, the payload has too few parts, or the action raises, and a raise changes nothing; otherwise the action is dispatched and the query answered last; only a select_date payload needs an interval above zero |
| Webhook.TelegramWebhook.ReplyToCommand | app/Http/Controllers/TelegramWebhookController.php:121-127 | /start and /book send the welcome with the date keyboard, /help the help, /cancel how to cancel: one message each, with sessions and bookings unchanged |
| Webhook.TelegramWebhook.HandleMessage | app/Http/Controllers/TelegramWebhookController.php:110-131 | /start and /book show the dates, /help and /cancel their texts, the session untouched; other text is a contact reply: without a live session waiting for a contact nothing happens, a reply without name or phone is asked for again, an accepted one is stored and confirmation asked; bookings never change |
| Webhook.TelegramWebhook.BookingDialogue | app/Http/Controllers/TelegramWebhookController.php:186-337 | a service choice, an accepted reply and a confirmation, each within 1800 seconds, book exactly the one appointment made of them and end the session |
| Webhook.TelegramWebhook.Handle | app/Http/Controllers/TelegramWebhookController.php:24-60 | answers 200 or 500; an unknown bot gets 200 and changes nothing; a callback that raises gets 500 and changes nothing; a callback alone that does not raise gets 200, is dispatched and answered last; a message alone is handled as handleMessage handles it, 500 exactly when it raises; messages are only ever added |
| CalendarUtils.GetDay | resources/views/company/show_script.blade.php:25 | `getDay()` is below 7 |
| CalendarUtils.WeekdayNameIsEnglish | resources/views/company/show_script.blade.php:24-27 | the page's day-name table names the same day as the server's English names |
| CalendarUtils.FormatDateForServer | resources/views/company/show_script.blade.php:17-22 | the result ends in "-MM-DD" |
| CalendarUtils.ServerFormatIsYmd | resources/views/company/show_script.blade.php:17-22 | for four-digit years the page writes dates exactly as the server's 'Y-m-d' |
| CalendarUtils.Configure | resources/views/company/show_script.blade.php:5-15 | the constructor: the given settings over the defaults, key by key; CalendarUtils.DefaultCalendar proves what it gives with nothing configured |
| CalendarUtils.IsWorkDay | resources/views/company/show_script.blade.php:24-27 | isWorkDay: work_days is an array holding the weekday's English name; CalendarUtils.WeekdayNameIsEnglish fixes that name and CalendarUtils.AvailableWindow uses it |
| CalendarUtils.IsHoliday | resources/views/company/show_script.blade.php:29-34 | isHoliday: some entry of ten characters equals the date's Y-m-d, or a shorter entry its m-d; CalendarUtils.FullDateHoliday and CalendarUtils.YearlyHoliday prove that meaning |
| CalendarUtils.IsDateAvailable | resources/views/company/show_script.blade.php:36-47 | isDateAvailable: not before today, within days_ahead when that is positive, a work day, not a holiday; CalendarUtils.AvailableWindow proves that meaning |
| CalendarUtils.AvailableWindow | resources/views/company/show_script.blade.php:36-47 | a date is available exactly when it is n days from today, with n at most days_ahead when positive, a work day and not a holiday |
| CalendarUtils.JsTrimStart | resources/views/company/show_script.blade.php:51-54 | `parseInt` skips a prefix of white space and leaves none in front |
| CalendarUtils.ToMinutes | resources/views/company/show_script.blade.php:51-54 | toMinutes: parseInt of the hours times 60 plus parseInt of the minutes, a missing minute part read as 0; CalendarUtils.ClockMinutes proves that an 'H:i' time reads as its minutes after midnight |
| CalendarUtils.IsBreakTime | resources/views/company/show_script.blade.php:49-58 | isBreakTime: a non-empty time with some break where start <= t < end; CalendarUtils.OneBreak and CalendarUtils.BreakIsHalfOpen prove that meaning |
| CalendarUtils.ClockMinutes | resources/views/company/show_script.blade.php:51-54 | the page reads a time written 'H:i' as its minutes after midnight |
| CalendarUtils.OneBreak | resources/views/company/show_script.blade.php:49-58 | with one readable break, a time is a break exactly when start <= t < end |
| CalendarUtils.BreakIsHalfOpen | resources/views/company/show_script.blade.php:49-58 | with one break written 'H:i', a clock time is a break exactly when it lies in [start, end) |
| CalendarUtils.DefaultCalendar | resources/views/company/show_script.blade.php:4-15 | with nothing configured: Monday-Friday, up to 14 days ahead, no holidays, no breaks |
| CalendarUtils.ServerFormatPieces | resources/views/company/show_script.blade.php:17-22 | the year, month and day sit at their fixed places in a server-format date |
| CalendarUtils.ParseDateInput | resources/views/company/show_script.blade.php:590 | a date the browser accepts is a real date |
| CalendarUtils.DateInputRoundTrip | resources/views/company/show_script.blade.php:590 | a date the page writes reads back as itself |
| CalendarUtils.ServerFormatInjective | resources/views/company/show_script.blade.php:17-22 | different dates are written differently |
| CalendarUtils.FullDateHoliday | resources/views/company/show_script.blade.php:29-34 | a full-date holiday entry marks that one date and no other |
| CalendarUtils.YearlyHoliday | resources/views/company/show_script.blade.php:29-34 | an 'MM-DD' entry marks that month and day in every year |
| CalendarUtils.ParseTimeInput | resources/views/company/show_script.blade.php:590 | a time the browser accepts is a minute of the day |
| CalendarUtils.TimeInputRoundTrip | resources/views/company/show_script.blade.php:590 | a time written 'H:i' reads back as its clock reading |
| CalendarUtils.FormAccepted | resources/views/company/show_script.blade.php:586-599 | validateAppointmentForm's check: the chosen moment is not before now, an unreadable value never being before anything; CalendarUtils.AcceptedWhenRead and CalendarUtils.FormAcceptsFuture prove that meaning |
| CalendarUtils.FormAcceptsFuture | resources/views/company/show_script.blade.php:586-599 | the form goes through exactly for a later day, or for today at a minute not yet begun |
| CalendarUtils.AcceptedWhenRead | resources/views/company/show_script.blade.php:586-599 | a form whose fields read as a date and a time goes through exactly for a later day, or for today from now on |
| CalendarUtils.MomentOrder | resources/views/company/show_script.blade.php:593 | comparing day-and-minute moments is comparing days, then times |
| CalendarUtils.PastSlotRefused | resources/views/company/show_script.blade.php:586-599 | a slot the server marks past is refused by the form |
| CalendarUtils.MonthWrap | resources/views/company/show_script.blade.php:235-244 | a month index one past either end becomes the right month of the neighbouring year |
| CalendarUtils.Run | resources/views/company/show_script.blade.php:202-223 | a run of cells numbered consecutively |
| CalendarUtils.LayoutAt | resources/views/company/show_script.blade.php:202-223 | cell i of a layout, segment by segment |
| CalendarUtils.GridAt | resources/views/company/show_script.blade.php:191-224 | cell i of the month grid, segment by segment |
| CalendarUtils.GridLength | resources/views/company/show_script.blade.php:216-223 | the grid holds the leading cells, the month and the padding |
| CalendarUtils.TrailingCell | resources/views/company/show_script.blade.php:216-223 | the trailing cells are the first days of the next month |
| CalendarUtils.LayoutShape | resources/views/company/show_script.blade.php:202-223 | whole weeks, less than one week of padding, the month's days in order after the leading cells |
| CalendarUtils.LeadingIsWeekday | resources/views/company/show_script.blade.php:195-196 | the number of leading cells is the first's weekday, Monday first |
| CalendarUtils.GridShape | resources/views/company/show_script.blade.php:191-224 | the grid's shape, with the first's weekday setting the leading cells |
| CalendarUtils.MonthEnd | resources/views/company/show_script.blade.php:199-223 | the last day of a month is followed by the first of the next |
| CalendarUtils.LeadingDay | resources/views/company/show_script.blade.php:202-206 | the leading cells are the days just before the first |
| CalendarUtils.TrailingDay | resources/views/company/show_script.blade.php:216-223 | the trailing cells are the days just after the last |
| CalendarUtils.CellDay | resources/views/company/show_script.blade.php:191-244 | cell i stands for the date i days after the grid's first Monday |
| CalendarUtils.GridDays | resources/views/company/show_script.blade.php:191-244 | the cells are consecutive days |
| CalendarUtils.GridStartsMonday | resources/views/company/show_script.blade.php:195-196 | the grid starts on a Monday |
| CalendarUtils.CellColumn | resources/views/company/show_script.blade.php:191-244 | cell i falls on weekday i % 7, Monday first |
| CalendarUtils.GridColumns | resources/views/company/show_script.blade.php:191-244 | every column of the grid is one weekday |
| CalendarUtils.DayElement | resources/views/company/show_script.blade.php:226-299 | a day of the month is clickable exactly when its date is available; neighbouring-month cells get no classes, badge or handler; a badge is positive |
| CalendarUtils.CalendarPage.constructor | resources/views/company/show_script.blade.php:72-80 | the page opens on the current month with no counts and an empty body |
| CalendarUtils.CalendarPage.RenderCalendar | resources/views/company/show_script.blade.php:191-224 | the body holds exactly one day element per grid cell, in order |
| CalendarUtils.CalendarPage.PreviousMonthDays | resources/views/company/show_script.blade.php:202-206 | the first loop shows the leading cells |
| CalendarUtils.CalendarPage.MonthDays | resources/views/company/show_script.blade.php:209-213 | the second loop shows the days of the month after them |
| CalendarUtils.CalendarPage.NextMonthDays | resources/views/company/show_script.blade.php:216-223 | the third loop completes the last row |
| CalendarUtils.CalendarPage.AppendCell | resources/views/company/show_script.blade.php:226-299 | appending the next cell's element shows one cell more |
| CalendarUtils.GridInMonthValid | resources/views/company/show_script.blade.php:246 | every day of the month on show is a real date |
| CalendarUtils.ClickableDays | resources/views/company/show_script.blade.php:251-296 | a rendered element is clickable exactly when it is a day of the month on show whose date is available |
| CalendarUtils.GridCell | resources/views/company/show_script.blade.php:209-213 | a cell belongs to the month exactly when it lies within the month's run, and then it is that day |
| CalendarUtils.CreateTimeSlot | resources/views/company/show_script.blade.php:385-403 | the owner sees a slot's appointments; otherwise bookable, past, break or occupied, each only under its condition |
| CalendarUtils.GeneratedSlotsShown | resources/views/company/show_script.blade.php:385-403 | server-made slots show as bookable until their time passes and as past after it, never as a break or occupied |
| CalendarUtils.JsTrimEnd | resources/views/company/show_script.blade.php:730 | `trimEnd` drops a suffix of white space and leaves none last |
| CalendarUtils.JsTrim | resources/views/company/show_script.blade.php:730 | `trim` leaves no white space at either end |
| CalendarUtils.HandleAppointmentUpdate | resources/views/company/show_script.blade.php:720-765 | sends the fields that changed, or nothing (a warning) when none did |
| CalendarUtils.Changes | resources/views/company/show_script.blade.php:728-760 | what handleAppointmentUpdate puts into updateData; CalendarUtils.ChangesAreDifferences proves that exactly the differences are sent, and CalendarUtils.UntouchedFormSendsNothing what an untouched form sends |
| CalendarUtils.ChangesAreDifferences | resources/views/company/show_script.blade.php:728-760 | everything sent is the form's value and differs from the appointment's; everything that differs is sent, except an empty name and a date or time without the other |
| CalendarUtils.UntouchedFormSendsNothing | resources/views/company/show_script.blade.php:658-760 | the form as opened sends nothing exactly when the appointment has a phone |
| CalendarUtils.DotPieces | resources/views/company/show_script.blade.php:850-851 | three dot-free pieces joined with '.' split back into them |
| CalendarUtils.ConvertDate | resources/views/company/show_script.blade.php:848-874 | convertDateToInputFormat and convertDateToServerFormat; CalendarUtils.ConvertPieces, CalendarUtils.ConvertIdempotent and CalendarUtils.DisplayRoundTrip prove what they turn a dotted date into |
| CalendarUtils.FormatDateForDisplay | resources/views/company/show_script.blade.php:841-846 | formatDateForDisplay: dd.mm.yyyy of the date; CalendarUtils.DisplayRoundTrip proves that converting it back gives the server format of the same date |
| CalendarUtils.ConvertPieces | resources/views/company/show_script.blade.php:848-874 | "dd.mm.yyyy" becomes "yyyy-mm-dd" |
| CalendarUtils.DisplayRoundTrip | resources/views/company/show_script.blade.php:841-874 | a displayed date converts to the date the page sends to the server |
| CalendarUtils.PadKeepsNoDot | resources/views/company/show_script.blade.php:852-853 | padding adds no '.' |
| CalendarUtils.ConvertIdempotent | resources/views/company/show_script.blade.php:848-874 | converting twice is converting once |
| CalendarUtils.GetStatusText | resources/views/company/show_script.blade.php:876-884 | getStatusText: the Russian label of a known status, else the status itself; CalendarUtils.StatusMaps and CalendarUtils.UnknownStatus prove its meaning |
| CalendarUtils.GetStatusColor | resources/views/company/show_script.blade.php:886-894 | getStatusColor: the badge colour of a known status, else 'secondary'; CalendarUtils.StatusMaps and CalendarUtils.UnknownStatus prove its meaning |
| CalendarUtils.StatusMaps | resources/views/company/show_script.blade.php:876-894 | the four statuses get four distinct labels and four distinct colours, none of them the fallback |
| CalendarUtils.UnknownStatus | resources/views/company/show_script.blade.php:876-894 | any other value is shown as it is and is the only kind shown in 'secondary' |
| ServiceController.BlankIsTrimmedEmpty | app/Http/Controllers/ServiceController.php:75 | `required` counts a string as missing exactly when `trim` leaves it empty |
| ServiceController.IntegerValue | app/Http/Controllers/ServiceController.php:78 | an integer the validator reads begins with a sign or digit and ends with a digit |
| ServiceController.IntegerIsSigned | app/Http/Controllers/ServiceController.php:78 | an integer read by `filter_var` is the same number `is_numeric` reads |
| ServiceController.IntegerIsNumeric | app/Http/Controllers/ServiceController.php:78 | so `min` and `max` compare the integer itself |
| ServiceController.Read | app/Http/Controllers/ServiceController.php:74-81 | what the validator sees of a field keeps the field |
| ServiceController.Failing | app/Http/Controllers/ServiceController.php:74-83 | at most one error per rule entry |
| ServiceController.Errors | app/Http/Controllers/ServiceController.php:74-83 | at most one error per field |
| ServiceController.NameRule | app/Http/Controllers/ServiceController.php:75 | name passes exactly when it is a non-blank string of at most 255 characters |
| ServiceController.OptionalTextRule | app/Http/Controllers/ServiceController.php:76-80 | an optional text passes exactly when missing, null, blank or within its bound |
| ServiceController.PriceRule | app/Http/Controllers/ServiceController.php:77 | price passes exactly when, if sent and not blank, it is a number not below 0 |
| ServiceController.DurationRule | app/Http/Controllers/ServiceController.php:78 | the duration passes exactly when it reads as an integer from 5 to 480 |
| ServiceController.IsActiveRule | app/Http/Controllers/ServiceController.php:80 | is_active passes exactly when it is not null and, if sent and not blank, is "0" or "1" |
| ServiceController.RuleCondition | app/Http/Controllers/ServiceController.php:74-81 | each field's rules pass exactly when its condition holds |
| ServiceController.FailingMember | app/Http/Controllers/ServiceController.php:83 | a field is among the failures exactly when one of its entries fails |
| ServiceController.ErrorsAreFailingFields | app/Http/Controllers/ServiceController.php:74-87 | the fields in the errors are exactly those whose condition fails |
| ServiceController.ValidationBounds | app/Http/Controllers/ServiceController.php:74-87 | a request passes exactly when every field meets its condition |
| ServiceController.DecimalIsInteger | app/Http/Controllers/ServiceController.php:78 | digits without a leading zero read as their value |
| ServiceController.DigitsInteger | app/Http/Controllers/ServiceController.php:78 | such digits are an integer without a leading zero |
| ServiceController.LeadingZeroInteger | app/Http/Controllers/ServiceController.php:78 | two or more characters starting with '0' are not an integer |
| ServiceController.LeadingZeroRefused | app/Http/Controllers/ServiceController.php:78 | a duration such as "05" is refused |
| ServiceController.DurationRoundTrip | app/Http/Controllers/ServiceController.php:78-95 | every duration from 5 to 480 written in decimal passes and is stored as that number |
| ServiceController.PriceRoundTrip | app/Http/Controllers/ServiceController.php:77-94 | every whole price written in decimal passes and is stored as that number |
| ServiceController.NegativeRefused | app/Http/Controllers/ServiceController.php:77 | a negative number is refused as a price |
| ServiceController.NegativePriceRefused | app/Http/Controllers/ServiceController.php:77 | every whole price below zero is refused |
| ServiceController.Filled | app/Http/Controllers/ServiceController.php:90-98 | the stored service has the given id and company, the type 'default' when none is sent, and is active exactly when is_active is present |
| ServiceController.IsActiveIsPresence | app/Http/Controllers/ServiceController.php:80-97 | sending "0" passes and still activates the service; leaving it out deactivates it |
| ServiceController.FindCompany | app/Http/Controllers/ServiceController.php:66 | the company found has the slug; none exactly when no company has it |
| ServiceController.FindService | app/Http/Controllers/ServiceController.php:146-148 | the service found matches id and company; none exactly when no service matches both |
| ServiceController.Overwritten | app/Http/Controllers/ServiceController.php:166-172 | an update keeps the service's id and company |
| ServiceController.DeletedIsGone | app/Http/Controllers/ServiceController.php:212 | with distinct ids, a deleted service is found no more and the ids stay distinct |
| ServiceController.AppendedIsUnique | app/Http/Controllers/ServiceController.php:90-98 | a service under the next id keeps the ids distinct |
| ServiceController.ReplacedIsUnique | app/Http/Controllers/ServiceController.php:166-172 | a service written over in place under its own id keeps the ids distinct |
| ServiceController.ServiceTable.constructor | app/Http/Controllers/ServiceController.php:64-102 | the table starts with the given companies, services and appointments |
| ServiceController.ServiceTable.Store | app/Http/Controllers/ServiceController.php:64-102 | not found, not the owner, or invalid with its errors, changing nothing; else the filled service is added under the next id |
| ServiceController.ServiceTable.Update | app/Http/Controllers/ServiceController.php:136-176 | not found, not the owner, no such service of the company, or invalid, changing nothing; else that service alone is overwritten |
| ServiceController.ServiceTable.Destroy | app/Http/Controllers/ServiceController.php:185-216 | not found or not the owner changes nothing; a service with appointments is deactivated; one without is removed and found no more |

## Left out

- Telegram's HTTP API: sending, editing and answering become entries appended to an outbox. The texts of the welcome, help, cancel and owner notices are opaque values. setWebhook, deleteWebhook and getWebhookInfo are not modelled.
- The owner-notification builders and logging have no effect on the model.
- Persistence, routing, authentication and the view-rendering actions (index, create, edit) are not modelled. The authenticated user's id is a parameter. The company controller is not part of this model.
- In the page script, markup, the DOM, fetch, input masks, timers and alerts are not modelled. A day cell is a record of its classes, badge and clickability. A time slot is its classification.
- The wall clock is a parameter: the date, the time of day in seconds and in milliseconds, and the cache clock. Daylight-saving transitions and time zones are not modelled: a day has 1440 minutes.
- The browser's `Date` is not modelled in general. The page's dates are proleptic Gregorian dates. JavaScript's treatment of years 0-99 and the lenient parsing of other formats are not modelled. An unreadable date or time is an Invalid Date.
- The status maps are modelled for string statuses only. Keys of `Object.prototype` (such as "constructor") are not modelled.
- Laravel's TrimStrings and ConvertEmptyStringsToNull middleware are not modelled. A blank string reaches the validator as it was sent, so a blank optional price passes and is stored as no price.
- ServiceController.IntegerValue: does not model the PHP_INT_MIN..PHP_INT_MAX range of FILTER_VALIDATE_INT, because the duration bounds 5..480 lie far inside it.
- ServiceController.Filled: the formatted price is an accessor outside the core and is kept as an opaque string.
- The route's service id is a natural number: Laravel's route binding of non-numeric ids is not modelled.
- CalendarSettings.GenerateTimeSlots, CalendarSettings.SlotLoop, BotService.OfferLoop, BotService.FreeSlots, BotService.GetAvailableTimeSlots, BotService.GetCountedTimeSlots and Webhook.TelegramWebhook.ShowTimeSlots: they require an interval above zero. With an interval of zero or less the source loops forever, and that non-termination is not modelled.
- Webhook.TelegramWebhook.Dispatch, Webhook.TelegramWebhook.HandleCallbackQuery and Webhook.TelegramWebhook.Handle: they require an interval above zero only when the update is a select_date button, the one path that computes free times; every other update is modelled for any settings.
- Webhook.TelegramWebhook.ShowTimeSlots, Webhook.TelegramWebhook.Dispatch, Webhook.TelegramWebhook.HandleCallbackQuery and Webhook.TelegramWebhook.Handle: they model the corrected program, not the code as written. Payloads are read with Callbacks.ParseCallbackJoined and free times are counted with BotService.CountedSlots. The code as written is Callbacks.ParseCallback (a positional `explode`) and BotService.AvailableSlots (`keyBy`), and the Findings below are proved about those.
- CalendarSettings.SlotLoop and BotService.OfferLoop: they take the break check as a function parameter. CalendarSettings.BreakCheckAt and BotService.BotBreakCheckAt prove that the foreach computes that function.
- CalendarSettings.AddTimeSlot, CalendarSettings.VisitSlot, BotService.AddSlot, BotService.VisitTime, BotService.AddDate and BotService.VisitDay: they carry the loop bodies as methods of their own.
- Webhook.TelegramWebhook.ReplyToCommand: it carries handleMessage's three command branches as a method of its own. Webhook.TelegramWebhook.HandleMessage calls it for exactly those texts.
- Carbon is modelled as strict: a string that does not parse with `createFromFormat('H:i')` throws. Values such as "24:00" roll over into the next day.
- Async ordering of the page's requests and the capacity check at booking time are not modelled. processBooking checks neither the slot's time nor its capacity, and neither does the model.
- The page's `isDateAvailable` accepts a date exactly days_ahead days away (`diff <= days_ahead`). The bot's date keyboard offers offsets 0 to days_ahead - 1. Both are modelled as written.
- CalendarUtils.UntouchedFormSendsNothing: an appointment without a phone is prefilled with '' and then counts as changed. That is the code's behaviour, stated as such.

## Findings

| source | as written | input that shows it | evidently intended | confidence | as-written member | corrected member |
|---|---|---|---|---|---|---|
| app/Http/Controllers/TelegramWebhookController.php:72-91 | `explode(':', $data)` splits the time "10:30" inside "select_time:{date}:{time}" and "select_service:{date}:{time}:{id}" (app/Services/TelegramBotService.php:168, 207) | pressing the 10:30 button sends "select_time:2025-01-06:10:30", which selects the time "10" | the time between the date and the id, joined back with ':' | not executed | Callbacks.TenThirtyBecomesTen | Callbacks.TimeButtonRoundTripJoined |
| app/Services/TelegramBotService.php:226-264 | `keyBy('appointment_time')` keeps one booking per time, so the count at a time is at most 1 | two clients booked at 10:00 with max_appointments_per_slot = 2: 10:00 is still offered, with one place | count every booking of the company on the date that is not cancelled | not executed | BotService.KeyByOverbooks | BotService.CountedSlotsRespectCapacity |

`Callbacks.ParseCallback` and `BotService.AvailableSlots` (with `BotService.GetAvailableTimeSlots`) model the code as written, and the as-written members above are proved about them. The webhook model uses the corrected definitions. It reads payloads with `Callbacks.ParseCallbackJoined`, which joins the pieces after the date back with ':'. It offers times with `BotService.CountedSlots` (through `BotService.GetCountedTimeSlots`), which counts every booking. `Callbacks.ReadingsAgreeWithoutColons` shows that the two readings differ only on arguments that hold a ':'.
