# Appointment scheduling core of the AKB detailing backend, in Dafny

This project models the part of the detailing business's backend that has
real logic: booking appointments without double-booking. It covers the
half-open overlap test, the available-slots scan for a day, the admin
order composer (service resolution, price and duration totals, end time,
conflict check, insert), the public booking flow (client by phone, car,
service, conflict check, insert), the stock-movement ledger rule, and the
category slug loop and delete guards.

Times are whole minutes since the epoch, in UTC. The day with index `d`
starts at minute `d * 1440`. The store compares ISO-8601 strings. The model
compares minutes instead, which agrees for the uniform `isoformat()` output
the handlers write.

Layout:

- `wrappers.dfy`: `Option` and `Result`.
- `records.dfy`: the stored documents (service, order, client, car, movement, category).
- `intervals.dfy`: the overlap predicate, the conflict query as a function, and the no-overlap invariant.
- `slots.dfy`: the slot scan as a function, its properties, and the corrected end-of-day test.
- `composer.dfy`: the admin order composer as a function, plus its aggregation loop.
- `booking.dfy`: client resolution by phone and the public order decision.
- `inventory.dfy`: the stock-movement rule on a ledger value.
- `categories.dfy`: slug candidates and the delete guards.
- `store.dfy`: class `Db`, which holds the collections. Its handler methods
  update them in place, and each is proved against the functions above.

Each handler runs atomically over a snapshot of the store.

Behaviour of the code worth noting:

- An empty day with a 60-minute duration yields 21 slots, 09:00 to 19:00, because 19:30 would end at 20:30.
- Every stored order blocks its interval, whatever its status. Cancelled and completed orders are not filtered out.
- The admin flow does not check that the client or the car exists.
- The public flow answers an unknown service with 404 (not 400), and it has no positivity check on the duration.
- The slots query accepts any integer duration.

## Model

| member | source | states |
|---|---|---|
| Intervals.OverlapsSymmetric | akb_detailing_project/api/views.py:1088 | swapping the two intervals never changes whether they overlap |
| Intervals.OverlapsIffSharedMinute | akb_detailing_project/api/views.py:1088 | for non-empty intervals, overlapping is equivalent to sharing a minute (half-open semantics, both directions) |
| Intervals.TouchingIntervalsDoNotOverlap | akb_detailing_project/api/views.py:652-655 | an interval ending where another begins does not overlap it, in either order |
| Intervals.FirstConflict | akb_detailing_project/api/views.py:652-656 | the conflict query returns nothing iff no stored order overlaps [start, end); otherwise the first overlapping order in store order |
| Intervals.EveryStatusBlocks | akb_detailing_project/api/views.py:652-656 | any stored order whose interval overlaps is reported, whatever its status |
| Intervals.AppendKeepsDisjoint | akb_detailing_project/api/views.py:651-675 | inserting an order that the conflict query let through keeps all stored orders pairwise non-overlapping |
| Slots.BusyOn | akb_detailing_project/api/views.py:1062-1072 | the busy intervals are exactly those of the orders whose start lies in [day 00:00, next day 00:00) |
| Slots.EndsAfterClosing | akb_detailing_project/api/views.py:1082 | the hour/minute test is true iff the end time of day is after 20:00 |
| Slots.SlotsWellFormed | akb_detailing_project/api/views.py:1076-1095 | every slot is 09:00 + 30k before 20:00, its end time of day is at or before 20:00, it overlaps no busy interval, and slots strictly increase |
| Slots.SlotsMembership | akb_detailing_project/api/views.py:1062-1093 | a candidate is offered iff no candidate up to it stops the scan and it overlaps no busy interval |
| Slots.EmptyDaySlots | akb_detailing_project/api/views.py:1075-1095 | for a duration from -540 to 899 minutes (so that the end-of-day test cannot wrap past midnight), on a day without bookings every candidate up to the last one ending by 20:00 is offered |
| Slots.EmptyDaySixtyMinutes | akb_detailing_project/api/views.py:1054-1095 | with no bookings and 60 minutes the slots are 09:00, 09:30, ..., 19:00 (21 slots) |
| Slots.NinetyMinutesLastSlot | akb_detailing_project/api/views.py:1054-1095 | with 90 minutes the last slot is 18:30 and 19:00 is not offered |
| Slots.TouchingOrderDoesNotBlock | akb_detailing_project/api/views.py:1086-1093 | an order [10:00, 10:30) leaves the 10:30 slot of a 30-minute job free and blocks 10:00 |
| Slots.PreviousDayOrderIgnored | akb_detailing_project/api/views.py:1059-1064 | an order from 23:00 the day before to 11:00 does not block the 09:00 slot, although it overlaps it |
| Slots.WrappedEndIsOffered | akb_detailing_project/api/views.py:1079-1083 | as written, a 900-minute job is offered at 09:00 although it ends after 20:00 |
| Slots.SlotsCorrectedWithinHours | akb_detailing_project/api/views.py:1081-1083 | with the end compared on the absolute clock, every slot ends by 20:00 of the requested day |
| Slots.SlotsAgreeWithoutWrap | akb_detailing_project/api/views.py:1078-1095 | the code and the corrected test give the same slots whenever a job starting at 09:00 ends before midnight |
| Composer.Trunc | akb_detailing_project/api/views.py:629 | integer conversion of a price truncates toward zero |
| Composer.FoundAllIff | akb_detailing_project/api/views.py:619-623 | the query finds as many services as ids iff the ids are pairwise distinct and all stored |
| Composer.Aggregate | akb_detailing_project/api/views.py:625-630 | the loop fails iff some service lacks a price or a duration; otherwise it returns the sum of truncated prices and the sum of durations |
| Composer.ComposeOrderRejects | akb_detailing_project/api/views.py:611-633 | each 400 outcome (missing field, services not all found once, incomplete service, total duration <= 0) happens exactly in its case, in the handler's order |
| Composer.ComposeOrderSuccess | akb_detailing_project/api/views.py:616-675 | a composed order has the requested client, car and services, the summed price, status Scheduled, and end = start + total duration > start, and it overlaps no stored order |
| Composer.ComposeOrderConflict | akb_detailing_project/api/views.py:651-662 | after validation, the outcome is 409 iff some stored order overlaps, and it names the client of the first such order |
| Composer.ComposeOrderKeepsDisjoint | akb_detailing_project/api/views.py:651-675 | an admin insert keeps stored orders pairwise non-overlapping |
| Composer.AggregationExample | akb_detailing_project/api/views.py:616-646 | services of 30 and 45 minutes priced 500 and 750 give end = start + 75 and price 1250 |
| Composer.TruncationExample | akb_detailing_project/api/views.py:629 | 499.99 counts as 499 and -2.5 as -2 |
| Composer.OverlapRejected | akb_detailing_project/api/views.py:651-662 | an order [10:00, 11:00) makes a 45-minute request at 10:30 fail with a conflict naming its client |
| Composer.DuplicateOrUnknownIdRejected | akb_detailing_project/api/views.py:619-623 | a repeated service id, or an unknown one, is rejected as services not found |
| Booking.FirstWithPhone | akb_detailing_project/api/views.py:1126 | the client lookup returns nothing iff no client has the phone, else the first client with it |
| Booking.ResolveClient | akb_detailing_project/api/views.py:1125-1135 | the booking attaches to a client with the phone, the first one when several have it; the client table grows by one new client only when none had the phone |
| Booking.RepeatedBookingsOneClient | akb_detailing_project/api/views.py:1125-1135 | when at most one client had the phone beforehand (the admin client handler at views.py:385-387 does not check phones, so more is possible), two bookings with that phone leave exactly one client with it, and both attach to that client |
| Booking.PlanBookingOutcome | akb_detailing_project/api/views.py:1146-1171 | 404 iff the service is unknown; for a known service, 409 iff a stored order overlaps [start, start + duration), and success whenever none does; a success is a one-service order over [start, start + duration) awaiting confirmation, with no employee and the service's price |
| Booking.PlanBookingKeepsDisjoint | akb_detailing_project/api/views.py:1155-1171 | a public insert keeps stored orders pairwise non-overlapping |
| Booking.MissingDurationBooksEmptyInterval | akb_detailing_project/api/views.py:1151-1153 | a service without a duration books the empty interval [start, start), since nothing checks that the duration is positive |
| Inventory.MoveRefusals | akb_detailing_project/api/views.py:874-893 | 400 iff a field is missing or the change is zero; otherwise 400 iff the item id, the employee id or a non-empty order id is not 24 hexadecimal digits; otherwise 404 iff the item is unknown; otherwise 409 iff a withdrawal exceeds the stock on hand |
| Inventory.MalformedItemIdRejected | akb_detailing_project/api/views.py:880-885 | an item id "i1" is refused as malformed (400) before any lookup, even when stock is filed under that string |
| Inventory.MoveEffect | akb_detailing_project/api/views.py:892-910 | an accepted movement changes only that item, by -change for a withdrawal and +change otherwise, and appends exactly one log entry with that signed change and the order reference (none for an absent or empty order id) |
| Inventory.MoveKeepsBalance | akb_detailing_project/api/views.py:895-910 | for every item, quantity minus the net change logged for it is unchanged by a movement |
| Inventory.WithdrawalNeverOverdraws | akb_detailing_project/api/views.py:892-900 | an accepted withdrawal leaves a non-negative quantity |
| Categories.DeleteKeepsResolved | akb_detailing_project/api/views.py:186-195 | on any store, a delete succeeds iff no service uses the category, none has it as parent, and it is stored, and it removes only that category and leaves every other category as it was; on a store whose references all resolve (which the code does not maintain: views.py:118 and :252 store references unchecked) it leaves no dangling reference |
| Store.Db.FindConflict | akb_detailing_project/api/views.py:652-656 | the loop returns the first stored order overlapping [start, end), or nothing iff none does |
| Store.Db.FindClientByPhone | akb_detailing_project/api/views.py:1126 | the loop returns the first client with the phone, or nothing |
| Store.Db.AvailableSlots | akb_detailing_project/api/views.py:1033-1097 | the loop with its early break returns exactly the slots of the scan over the busy intervals of the day |
| Store.Db.CreateOrder | akb_detailing_project/api/views.py:605-677 | inserts exactly the composed order and returns its id, or returns the error and writes nothing; keeps orders pairwise non-overlapping |
| Store.Db.CreatePublicBooking | akb_detailing_project/api/views.py:1106-1177 | with all fields present, it resolves the client by phone and always inserts one car, even on 404 or 409; it inserts the planned order or returns the error; the phone's client count becomes 1 only if it was 0 |
| Store.Db.MoveStock | akb_detailing_project/api/views.py:864-912 | inventory and movement log become exactly the result of the stock-movement rule, or stay unchanged on refusal |
| Store.Db.UniqueSlug | akb_detailing_project/api/views.py:111-113 | the chosen slug is not taken and is the first untaken of base, base-suffix1, ...; nothing is returned iff all are taken |
| Store.Db.CreateCategory | akb_detailing_project/api/views.py:95-123 | a blank name or an empty base slug is refused; `SlugUnavailable` is returned iff the name and base slug pass and every candidate slug is taken; otherwise the category is stored under the first untaken of base, base-suffix1, ..., which no stored category used |
| Store.Db.DeleteCategory | akb_detailing_project/api/views.py:184-195 | the categories become exactly the result of the delete guards, or stay unchanged on refusal |
| Store.CandidateIsFree | akb_detailing_project/api/views.py:1085-1091 | the inner loop with its early break reports a candidate free exactly when it overlaps none of the busy intervals |
| Store.TwoBookingsOnePhone | akb_detailing_project/api/views.py:1125-1144 | two public bookings with one new phone leave one client and two new cars |

## Findings

| source | as written | input that shows it | evidently intended | confidence | as-written member | corrected member |
|---|---|---|---|---|---|---|
| akb_detailing_project/api/views.py:1082 | the end-of-day test reads only the end's hour and minute, so an end past midnight looks early | empty day, duration 900: 09:00 is offered and ends at 00:00 the next day | skip a candidate that ends after 20:00 of the requested day | high (not executed) | Slots.WrappedEndIsOffered | Slots.SlotsCorrectedWithinHours |

`Store.Db.AvailableSlots` keeps the code's behaviour as written. The corrected scan is `Slots.SlotsCorrected`. `Slots.SlotsAgreeWithoutWrap` shows that the two give the same slots for every duration from -540 to 899 minutes.

## Left out

- HTTP plumbing is not modelled: the request method check, JSON decoding, response messages, and the status codes as numbers. Outcomes are `Result` values.
- Exceptions that become 500 are not modelled: malformed ObjectIds outside the stock-movement handler, a price that `int()` cannot convert, a non-numeric stock change, an `OverflowError` from datetime arithmetic with a huge duration (views.py:646, 1079, 1153), and store failures.
- Inventory.IsObjectId: an id is well-formed iff it is 24 hexadecimal digits; the ASCII whitespace that `bytes.fromhex` skips inside such a string is not modelled, and ids are compared as strings, so upper- and lower-case spellings of one id are different keys.
- The 400 for missing or malformed `date` and `duration` query parameters is not modelled. The slot handler takes a parsed day index and an integer duration.
- Parsing and formatting datetimes are not modelled, including the stripping of a trailing `Z`. Times have minute precision, and slots are minutes of the day, not `HH:MM` strings.
- Service durations are integers, so fractional-minute durations are not modelled. Prices and stock quantities are exact reals, not floats.
- Composer.Aggregate: the error does not carry the incomplete service's name. The code loops over the services in the order the store returns them; the model loops in request order, which yields the same sums and the same error.
- The store's choice among several matches of `find_one` is modelled as the first match in insertion order.
- The race between the conflict query and the insert is not modelled, since each handler call is atomic over the store.
- `slugify` is a foreign library and is not part of this model; the base slug is a parameter.
- Store.Db.UniqueSlug: the random 4-hex suffixes are a finite parameter list. When all of them are taken, the model returns `SlugUnavailable`, while the code would keep drawing.
- Store.Db.CreateCategory: the fresh ObjectId is a parameter, and `main_image_url` and `description` are not stored.
- Categories.IsBlank: it recognises the ten ASCII characters `str.strip` removes (including the separators U+001C to U+001F), but not non-ASCII whitespace such as U+00A0, which `str.strip` also removes.
- Inventory.MoveRefusals: the change is taken after its conversion to a number, so the truthiness test at views.py:874 on the raw JSON value is not modelled; a change sent as the string "0" passes that test in the code and is applied as a zero movement, while the model refuses every zero change as a missing field.
- The timestamp of a movement log entry comes from a clock and is not modelled.
- Authentication, the login and registration views, reports, the portfolio, blog and page handlers, and the other CRUD handlers are outside this core. This includes `update_order`, which changes orders without re-checking conflicts.
