# Coaching scheduler: a verified model of the API handlers

The coaching scheduler is a Next.js application. Coaches publish two-hour call slots. Students book them. After a call, the coach records a 1-to-5 satisfaction rating and notes, and can revise them later. This project models the server side of that workflow in Dafny:

- `/api/slots` lists and publishes slots.
- `/coach/slots` is the older slot-creation route.
- `/api/bookings` books a slot.
- `/api/calls` records feedback and lists a coach's feedback history.
- `/api/submit-feedback` revises recorded feedback.

The database is modelled as a value and as an object:

- `Db.Tables` is the database as a value. It holds four tables keyed by integer id (User, Slot, Booking, Call) and the next id of each auto-increment column.
- `Db.Store` is the database connection. It is a class holding the same tables, and the handlers update them in place.

`Db.Consistent` is the invariant the handlers keep. It says:

- every row refers to rows that exist;
- every slot lasts exactly two hours;
- a slot's `isBooked` flag is true exactly when a booking refers to it;
- each slot has at most one booking, and each booking at most one call;
- every call was recorded by the coach who owns the booking's slot, rates it from 1 to 5, and has notes.

Each handler is modelled as a function of the database before the request, giving an `Http.Outcome` (the database after it and the response), with lemmas about it covering check order, the success conditions, what a success changes and what a refusal leaves alone. The handlers that write (every POST, and the update of /api/submit-feedback) also have a method that works on a `Store` step by step, with the checks and writes in the source's order, proved to end in exactly that outcome. The two GET handlers only read, and are modelled by their functions alone. Each route's `Handler` method dispatches on the request method and also promises that the store stays consistent.

`Js` models the JavaScript conversions the handlers rely on:

- truthiness (`!v`);
- `parseInt(v, 10)`, which skips leading white space, reads an optional sign, and reads digits up to the first non-digit (so `"12abc"` is 12 and `"abc"` is NaN);
- `Number(v)`, the conversion behind `v < 1`;
- `String(n)`, which `parseInt` applies to a number first: from 10^21 on it is written in exponent form (`1e+21`), so `parseInt` reads only the leading digit.

Error responses use `Http.Error`, one constructor per error text. `Http.Message` spells each one out.

Two details of the code are easy to misread:

- `handleCreateCall` checks in this order: duplicate call for the booking, then booking missing (404), then wrong coach (403).
- Notes count as present when they are truthy. They are not trimmed.

## Model

| member | source | states |
|---|---|---|
| Js.QueryValue | src/pages/api/slots.ts:27-28 | a query parameter given as an array stands for its first element; the result is text exactly when some value was given |
| Js.DigitsRoundTrip | src/pages/api/calls.ts:90-92 | the decimal digits of every natural number read back as that number |
| Js.ParseIntStopsAtNonDigit | src/pages/api/bookings.ts:34-35 | `parseInt` reads a text that starts with digits as those digits, whatever follows them |
| Js.Truthy | src/pages/api/submit-feedback.ts:22-28 | `!v` is true for undefined and null (both are falsy); a number or boolean is truthy exactly when it is not 0 as a number; text exactly when it is not empty |
| Js.ParseInt | src/pages/api/bookings.ts:34-35 | `parseInt(v, 10)` of the text of `v`; undefined, null and booleans are NaN |
| Js.ToNumber | src/pages/api/submit-feedback.ts:25-26 | `Number(v)` as a comparison applies it: the empty text is 0, undefined is NaN |
| Js.ParseIntOfNumber | src/pages/api/calls.ts:90-92 | `parseInt(n, 10) === n` for every integer below 10^21 in magnitude sent as a JSON number |
| Js.ParseIntOfLargeNumber | src/pages/api/calls.ts:90-92 | in the model's integer numbers, from 10^21 in magnitude on, `parseInt(n, 10)` is the leading digit of `n`, with its sign |
| Js.ParseIntOfPowerOfTen | src/pages/api/bookings.ts:34-35 | in the model's integer numbers, `parseInt(1e21, 10)` is 1, and so is `parseInt` of every larger power of ten |
| Js.NumberOfDecimal | src/pages/api/submit-feedback.ts:25-26 | `Number` reads the decimal text of every integer back exactly |
| Js.BlankTextConversions | src/pages/api/submit-feedback.ts:25-26 | blank text is NaN for `parseInt` but 0 for `Number` |
| Db.Consistent | src/pages/api/calls.ts:104-150 | the invariant; in a consistent database every call rates 1 to 5, has notes and was recorded by the owner of its booking's slot, and every booking's slot exists and is flagged booked |
| Db.BookedIffExactlyOneBooking | src/pages/api/bookings.ts:52-54 | in a consistent database a slot is flagged booked exactly when exactly one booking refers to it |
| Db.AddSlotKeepsConsistent | src/pages/api/slots.ts:94-102 | inserting a well-formed unbooked slot keeps every part of the invariant |
| Db.BookKeepsConsistent | src/pages/api/bookings.ts:66-97 | the booking transaction on a free slot keeps the invariant: the new booking is that slot's only booking and its flag becomes true |
| Db.AddCallKeepsConsistent | src/pages/api/calls.ts:141-148 | inserting a well-formed call for a booking without one keeps one call per booking |
| Db.SetFeedbackKeepsConsistent | src/pages/api/submit-feedback.ts:41-47 | overwriting a call's rating (1 to 5) and notes (non-empty) keeps the invariant |
| Db.Store.constructor | prisma/seed.ts:6-30 | a new database holds the given users, no other rows, and every counter at 1; it is consistent |
| Db.Store.InsertSlot | src/pages/api/slots.ts:96-102 | `slot.create` adds the row under the next slot id and returns that id |
| Db.Store.InsertBooking | src/pages/api/bookings.ts:67-92 | `booking.create` adds the row under the next booking id and returns that id |
| Db.Store.SetBooked | src/pages/api/bookings.ts:93-96 | `slot.update` sets that slot's `isBooked` and changes nothing else |
| Db.Store.InsertCall | src/pages/api/calls.ts:141-148 | `call.create` adds the row under the next call id and returns that id |
| Db.Store.UpdateFeedback | src/pages/api/submit-feedback.ts:41-47 | `call.update` overwrites that call's satisfaction and notes |
| SlotsApi.GetSlots | src/pages/api/slots.ts:23-54 | GET answers 200 or 400 "Invalid coachId", never with an `Allow` header; a 200 lists only stored slots; the query filters are read by the helper `SlotsApi.DecodeFilter` (slots.ts:24-36) |
| SlotsApi.CreateSlot | src/pages/api/slots.ts:61-109 | POST answers 201, 400, 404 or 500; a refusal changes nothing; a 201 inserts exactly the returned slot under the returned id, the next slot id |
| SlotsApi.Route | src/pages/api/slots.ts:6-21 | only POST can change the database |
| SlotsApi.HandleCreateSlot | src/pages/api/slots.ts:61-109 | the step-by-step handler ends in the database and response `CreateSlot` prescribes |
| SlotsApi.Handler | src/pages/api/slots.ts:6-21 | dispatch on the method, with the result `Route` prescribes; the store stays consistent |
| SlotsApi.GetSlotsRejectsNonNumericCoach | src/pages/api/slots.ts:30-36 | a present coachId that `parseInt` cannot read is 400 "Invalid coachId" |
| SlotsApi.GetSlotsReturnsExactlyMatching | src/pages/api/slots.ts:30-54 | otherwise GET answers 200 with exactly the slots of that coach (when given) whose flag matches `isBooked === "true"` (when given), each as stored |
| SlotsApi.BookedListingsPartition | src/pages/api/slots.ts:31-43 | for one coach filter, `isBooked=true` and any other isBooked value split the unfiltered listing between them |
| SlotsApi.BookedListingHasOneBooking | src/pages/api/slots.ts:39-52 | every slot listed with `isBooked=true` has exactly one booking in a consistent database |
| SlotsApi.CreateSlotValidationOrder | src/pages/api/slots.ts:64-82 | startTime missing, coachId missing, unreadable date and unreadable coachId are each 400, in that order, before the database is read |
| SlotsApi.CreateSlotNeedsCoach | src/pages/api/slots.ts:86-92 | a coachId naming no user, or a user who is not a coach, is 404 and creates nothing |
| SlotsApi.CreateSlotSucceedsIff | src/pages/api/slots.ts:84-104 | POST is 201 exactly when the input is valid, names a coach and the end is a valid date; the one new slot is unbooked, owned by that coach, ends 7200000 ms after it starts and is returned |
| SlotsApi.CreateSlotIgnoresExistingSlots | src/pages/api/slots.ts:84-104 | whether POST succeeds does not depend on the slots already stored: there is no overlap check |
| SlotsApi.RouteChangesOnlyOnCreate | src/pages/api/slots.ts:12-20 | only a successful POST changes the database; other methods get 405 with `Allow: GET, POST` |
| SlotsApi.RouteKeepsConsistent | src/pages/api/slots.ts:6-21 | every request keeps the database consistent, and every slot still lasts two hours |
| CoachSlotsRoute.CreateSlot | src/pages/coach/slots.ts:11-28 | POST answers 201 or 400; a 400 changes nothing; a 201 inserts exactly the returned slot under the next slot id |
| CoachSlotsRoute.Route | src/pages/coach/slots.ts:7-33 | any method but POST is 405 and changes nothing |
| CoachSlotsRoute.Handler | src/pages/coach/slots.ts:7-33 | the step-by-step handler ends in the outcome `Route` prescribes, and the store stays consistent |
| CoachSlotsRoute.OnlyPostIsServed | src/pages/coach/slots.ts:29-32 | any method but POST is 405 with `Allow: POST` and changes nothing |
| CoachSlotsRoute.CreateSlotSucceedsIff | src/pages/coach/slots.ts:11-28 | POST is 201 exactly when the date is valid, its end is too, and coachId is the integer id of an existing user; the new slot lasts two hours and is returned; any failure is 400 and changes nothing |
| CoachSlotsRoute.SkipsCoachCheck | src/pages/coach/slots.ts:17-23 | for a user who is not a coach, /api/slots answers 404 but this route stores a slot owned by that user |
| CoachSlotsRoute.RouteKeepsConsistent | src/pages/coach/slots.ts:11-28 | the route keeps the database consistent |
| BookingsApi.CreateBooking | src/pages/api/bookings.ts:27-116 | POST answers 201, 400, 404 or 500; a refusal changes nothing; a 201 returns the new booking under the next booking id |
| BookingsApi.BookSlot | src/pages/api/bookings.ts:41-111 | with the ids read, the answer is 201, 400, 404 or 500; a refusal changes nothing; a 201 is the booking transaction on that slot for that student, returning the next booking id |
| BookingsApi.Route | src/pages/api/bookings.ts:6-21 | only POST can change the database |
| BookingsApi.HandleCreateBooking | src/pages/api/bookings.ts:27-116 | the step-by-step handler, with its two-write transaction, ends in the outcome `CreateBooking` prescribes |
| BookingsApi.Handler | src/pages/api/bookings.ts:6-25 | dispatch on the method (GET never answers), with the result `Route` prescribes; the store stays consistent |
| BookingsApi.CreateBookingValidation | src/pages/api/bookings.ts:30-39 | a missing id is 400, then an id `parseInt` cannot read is 400; readable ids go on to the lookups |
| BookingsApi.NumericIdsAreRead | src/pages/api/bookings.ts:34-39 | ids sent as non-zero JSON numbers below 10^21 in magnitude are looked up as themselves |
| BookingsApi.LargeSlotIdReadAsLeadingDigit | src/pages/api/bookings.ts:34-39 | in the model's integer numbers, a slot id sent as a JSON number of 10^21 or more is looked up as its leading digit |
| BookingsApi.PowerOfTenBooksSlotOne | src/pages/api/bookings.ts:34-97 | in the model's integer numbers, `{ slotId: 1e21 }`, or any larger power of ten, is a request for slot 1 |
| BookingsApi.LeadingDigitsAreRead | src/pages/api/bookings.ts:34-35 | an id sent as text such as "12abc" books slot 12 |
| BookingsApi.BookSlotLookupOrder | src/pages/api/bookings.ts:43-63 | a missing slot is 404, then a booked slot is 400 even for a missing student, then a missing student is 404; otherwise any user, coach or not, books it |
| BookingsApi.BookSlotSucceedsIff | src/pages/api/bookings.ts:41-97 | in a consistent database booking succeeds exactly when the slot exists and is free and the user exists; it then adds exactly one booking for them and flags that slot, and nothing else changes; every refusal leaves the database as it was |
| BookingsApi.CreatedViewDescribesBooking | src/pages/api/bookings.ts:100-111 | the 201 body names the new booking and gives the slot's coach, the student and the slot itself |
| BookingsApi.BookedSlotHasOneBooking | src/pages/api/bookings.ts:66-97 | after a successful booking its slot is flagged booked and has exactly one booking |
| BookingsApi.NoDoubleBooking | src/pages/api/bookings.ts:52-54 | after one booking of a slot succeeds, a second booking of it by anyone is 400 and changes nothing |
| BookingsApi.RouteKeepsConsistent | src/pages/api/bookings.ts:6-21 | every request keeps the database consistent; only POST can change it; other methods get 405 with `Allow: GET, POST` |
| CallsApi.CoachCallIds | src/pages/api/calls.ts:39-40 | the ids found are exactly the calls of that coach within the scanned range, each once |
| CallsApi.InsertNewest | src/pages/api/calls.ts:55-57 | insertion adds exactly that id to the list |
| CallsApi.InsertKeepsNewestFirst | src/pages/api/calls.ts:55-57 | inserting into a newest-first list keeps it newest first |
| CallsApi.SortNewestFirst | src/pages/api/calls.ts:55-57 | the sort returns the same ids, newest `createdAt` first |
| CallsApi.Views | src/pages/api/calls.ts:61-72 | the listing maps each call id to its entry, in order, and fails exactly when some entry cannot be built; each entry is built by the helper `CallsApi.ViewOf` (calls.ts:61-72) |
| CallsApi.CreateCall | src/pages/api/calls.ts:81-155 | POST answers 201, 400, 403, 404 or 500; a refusal changes nothing; a 201 inserts exactly the returned call under the returned id, the next call id |
| CallsApi.RecordCall | src/pages/api/calls.ts:104-155 | with the numbers read, the answer is 201, 400, 403, 404 or 500; a refusal changes nothing; a 201 inserts a call with exactly the given booking, coach, rating, notes and time |
| CallsApi.GetCalls | src/pages/api/calls.ts:23-79 | GET (with the corrected `phone` select) answers 200, 400 or 500 and never changes the database |
| CallsApi.GetCallsWith | src/pages/api/calls.ts:23-79 | GET with either student select answers 200, 400 or 500 and never changes the database |
| CallsApi.ListCallsSelecting | src/pages/api/calls.ts:38-79 | the listing query never changes the database; a select naming a column User lacks is 500 |
| CallsApi.ListCalls | src/pages/api/calls.ts:38-79 | the corrected listing never changes the database and answers 200 with a list of entries or 500 |
| CallsApi.ListCallsAsWritten | src/pages/api/calls.ts:38-79 | the listing as written is always 500 "Error fetching calls" and changes nothing |
| CallsApi.Route | src/pages/api/calls.ts:6-21 | only POST can change the database |
| CallsApi.HandleCreateCall | src/pages/api/calls.ts:81-102 | the step-by-step handler ends in the outcome `CreateCall` prescribes |
| CallsApi.HandleRecordCall | src/pages/api/calls.ts:104-155 | the step-by-step range check, lookups and insert end in the outcome `RecordCall` prescribes |
| CallsApi.Handler | src/pages/api/calls.ts:6-21 | dispatch on the method, with the result `Route` prescribes; the store stays consistent |
| CallsApi.CreateCallValidation | src/pages/api/calls.ts:84-102 | a falsy bookingId, coachId or notes, or an undefined satisfaction, is 400; then a number `parseInt` cannot read is 400; neither reads or changes the database |
| CallsApi.NumericFieldsAreRead | src/pages/api/calls.ts:90-102 | numbers sent as JSON numbers below 10^21 in magnitude are read as themselves |
| CallsApi.BlankSatisfactionRejected | src/pages/api/calls.ts:84-102 | an empty or blank satisfaction is present but NaN for `parseInt`: 400 "Invalid bookingId, coachId, or satisfaction" before the range check |
| CallsApi.OutOfRangeSatisfactionRejected | src/pages/api/calls.ts:84-108 | a satisfaction of 0 passes the presence check and is refused by the range check, like 6 |
| CallsApi.SatisfactionInRange | src/pages/api/calls.ts:104-150 | 1 and 5 pass the range check and are recorded when the booking has no call and the coach owns it |
| CallsApi.RecordCallCheckOrder | src/pages/api/calls.ts:104-138 | out of range is 400 first; an existing call for the booking is 400 before the 404 and the 403; then a missing booking is 404; then a coach who does not own the slot is 403 |
| CallsApi.RecordCallSucceedsIff | src/pages/api/calls.ts:110-150 | recording succeeds exactly when the rating is 1 to 5, the booking has no call, exists and belongs to the coach, and the notes are text; it then adds exactly one call with those values under a fresh id, returned with 201; every refusal changes nothing |
| CallsApi.SecondCallRejected | src/pages/api/calls.ts:112-120 | after a call is recorded for a booking, a second one for it is 400 and changes nothing |
| CallsApi.GetCallsValidation | src/pages/api/calls.ts:24-36 | a missing coachId is 400, then one `parseInt` cannot read is 400; GET never changes the database |
| CallsApi.ViewOfConsistent | src/pages/api/calls.ts:61-72 | every call of a consistent database has an entry |
| CallsApi.CoachCallsFoundOnce | src/pages/api/calls.ts:39-58 | the query finds each call of the coach exactly once and no other call |
| CallsApi.ListCallsAnswers | src/pages/api/calls.ts:38-74 | in a consistent database the corrected listing answers 200 with one entry per found id, in the same order |
| CallsApi.ListCallsShowsCoachCallsNewestFirst | src/pages/api/calls.ts:38-74 | the corrected listing shows each call of that coach exactly once, no other call, newest first, each with its own rating, notes, time, student and slot times |
| CallsApi.ListingAsWrittenAlwaysFails | src/pages/api/calls.ts:44-50 | selecting `phoneNumber` makes every listing 500, while selecting `phone` answers 200 on any consistent database |
| CallsApi.ViewsOfOne | src/pages/api/calls.ts:61-72 | the listing of a single call is that call's entry |
| CallsApi.ListingCounterexample | src/pages/api/calls.ts:44-77 | on a one-call database `?coachId=1` is 500 as written, while the corrected query lists that call |
| CallsApi.RecordCallKeepsConsistent | src/pages/api/calls.ts:104-150 | recording a call with non-empty notes keeps the database consistent |
| CallsApi.CreateCallKeepsConsistent | src/pages/api/calls.ts:81-155 | POST keeps the database consistent |
| CallsApi.RouteKeepsConsistent | src/pages/api/calls.ts:6-21 | every request keeps the database consistent; only POST can change it; other methods get 405 with `Allow: GET, POST` |
| SubmitFeedbackApi.Submit | src/pages/api/submit-feedback.ts:5-56 | the handler answers 200, 400, 403, 405 or 500, and anything but 200 changes nothing; the 400 input check is the helper predicate `SubmitFeedbackApi.InputAccepted` (submit-feedback.ts:22-28) |
| SubmitFeedbackApi.UpdateCall | src/pages/api/submit-feedback.ts:32-55 | the update answers 200, 403 or 500; a 200 means the call exists, belongs to the session user, and its rating and notes were overwritten with the given number and text; anything else changes nothing |
| SubmitFeedbackApi.HandleUpdateCall | src/pages/api/submit-feedback.ts:32-55 | the step-by-step lookup, ownership check and update end in the outcome `UpdateCall` prescribes |
| SubmitFeedbackApi.Handler | src/pages/api/submit-feedback.ts:5-56 | the method, session and input checks, then the update, with the result `Submit` prescribes; the store stays consistent |
| SubmitFeedbackApi.SubmitCheckOrder | src/pages/api/submit-feedback.ts:9-30 | non-POST is 405 without `Allow`; then a request without a coach session is 403 whatever its body; then a body failing the input check is 400; none changes the database |
| SubmitFeedbackApi.NumericSatisfactionRange | src/pages/api/submit-feedback.ts:22-28 | a numeric satisfaction passes the input check exactly when it is 1 to 5 |
| SubmitFeedbackApi.DecimalTextSatisfaction | src/pages/api/submit-feedback.ts:22-47 | a satisfaction sent as decimal text such as "3" passes the input check exactly when its number is 1 to 5, and the update then refuses it |
| SubmitFeedbackApi.BlankSatisfactionRejected | src/pages/api/submit-feedback.ts:22-30 | a blank satisfaction such as " " is truthy but `Number` reads it as 0: 400 |
| SubmitFeedbackApi.UnreadableSatisfactionReachesUpdate | src/pages/api/submit-feedback.ts:22-54 | a satisfaction `Number` cannot read passes the input check (NaN compares false) and the update then fails with 500 |
| SubmitFeedbackApi.UpdateCallSucceedsIff | src/pages/api/submit-feedback.ts:32-49 | the update succeeds exactly when the call exists, belongs to the session user, and the rating and notes have the right types; it overwrites only that call's rating and notes, keeps its booking, coach and time and every other row; every refusal changes nothing |
| SubmitFeedbackApi.MissingAndForeignCallsLookAlike | src/pages/api/submit-feedback.ts:33-39 | a missing call and another coach's call both get 403, not 404, and change nothing |
| SubmitFeedbackApi.SubmitIdempotent | src/pages/api/submit-feedback.ts:41-49 | submitting the same feedback twice leaves the database as once, and answers 200 both times |
| SubmitFeedbackApi.SubmitKeepsConsistent | src/pages/api/submit-feedback.ts:22-47 | every request keeps the database consistent, because the input check admits only ratings 1 to 5 and non-empty notes |

## Left out

- The database engine is not modelled: SQL, Prisma's `include` and `select` projections beyond the fields each response returns, and the schema file. Each table is a map from id to row.
- Concurrency is not modelled. Each request is one atomic step, so racing double bookings and transaction isolation are out.
- Date parsing is not modelled. `new Date(startTime)` and `` new Date(`${date}T${time}`) `` reach the model as `startMillis`, the time value or None for an invalid date. Time zones are out.
- `Number` and `parseInt` are modelled on ASCII text and integer numbers only. Fractions, hex literals, `Infinity` and Unicode white space are out. So is exponent text: `Number("1e1")` is 10, so /api/submit-feedback answers 400 for a satisfaction of "1e1", while the model reads it as NaN, lets it through the input check and answers 500 from the update.
- JSON numbers are integers in the model, not doubles: the rounding of integers above 2^53 is out, the exponent form of a number from 10^21 on keeps all of its significant digits, and numbers from about 1.8e308 on, which `JSON.parse` turns into `Infinity` and `parseInt` into NaN (so /api/bookings answers 400 for such an id), are read as the integers they spell.
- Prisma's 32-bit `Int` range is not modelled. An id outside the 32-bit range and below 10^21 in magnitude would make Prisma throw: 500 on every route except /coach/slots, whose catch answers 400. The model looks such an id up like any other. From 10^21 on, `parseInt` reads the leading digit, which is modelled.
- Request bodies holding arrays or objects are not modelled: a value is undefined, null, a boolean, a number or text. In JavaScript `{ slotId: [5] }` is truthy and `parseInt` reads `String([5])`, which is "5", and notes of `{}` are truthy and reach Prisma.
- SlotsApi.GetSlots: the listing returns each slot as stored, without the `coach` and `booking.student` rows that the query's `include` adds to it.
- `getSession` is a call into next-auth. The session is a parameter of the request. A session without a `user` throws outside the `try` block, and that case is out.
- `handleGetBookings` has an empty body. The model answers nothing for it (`NoResponse`).
- Logging (`console.log`, `console.error`) and JSON encoding are out. Responses keep the status, the `Allow` header and the fields of the body.
- The `catch` branch of `handleGetSlots` ("Error fetching slots") is out. On the model's database the listing query cannot fail.
- The `email` column of User is not modelled.
- Ties in `createdAt` are out: calls created at the same instant may be listed in either order, and the model fixes one.
- SlotsApi.Handler: requires the decoded start time to lie within the `Date` range, as every JavaScript `Date` does.
- CoachSlotsRoute.Handler: requires the decoded start time to lie within the `Date` range, as every JavaScript `Date` does.
- CallsApi.Handler: GET uses the corrected query, which selects the student's `phone`; the query as written selects `phoneNumber` and is modelled separately by CallsApi.ListCallsAsWritten (see Findings).
- CallsApi.Route: GET uses the corrected query, as CallsApi.Handler does.
- CallsApi.RecordCallKeepsConsistent: requires truthy notes, because its caller `handleCreateCall` has already refused falsy notes.

## Findings

| source | as written | input that shows it | evidently intended | confidence | as-written member | corrected member |
|---|---|---|---|---|---|---|
| src/pages/api/calls.ts:44-50 | the student is selected with `phoneNumber: true`, but the User model's column is `phone` (prisma/seed.ts:15, src/pages/api/bookings.ts:79-88, src/pages/api/user/[id].ts:24-35), so Prisma refuses the query and every GET that passes validation answers 500 "Error fetching calls" | GET /api/calls?coachId=1 on a database holding one call by coach 1 | select `phone`, so the coach's calls are listed newest first with the student's phone | not executed | CallsApi.ListCallsAsWritten (with CallsApi.ListingAsWrittenAlwaysFails, CallsApi.ListingCounterexample) | CallsApi.ListCalls (with CallsApi.ListCallsShowsCoachCallsNewestFirst) |
