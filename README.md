# Railway reservation backend: booking and cancellation

This project models the booking and cancellation state machine of a train
reservation backend. It also models the smaller "simple-lambda" variants of
the same handlers and the mock train search, and proves properties about
all of them.

## The canonical handlers

Two handlers share three stores:

- the seat inventory of the relational store, one row per (train, travel date) schedule;
- the relational `bookings` table, which is canonical;
- a mirror item per PNR in the key-value table, a denormalised copy.

The booking handler does the following (`backend/src/handlers/booking/index.js`):

1. Validates the request.
2. Draws a PNR.
3. Inside one transaction, checks that the schedule row exists and has a seat.
4. Takes the payment outcome.
5. Decrements the seat.
6. Inserts a CONFIRMED row.
7. Commits.
8. Writes the mirror item.
9. Writes the session item, after the notifications.

The cancel handler does the following (`backend/src/handlers/cancelBooking/index.js`):

1. Checks existence, ownership and status on the mirror item.
2. Inside one transaction, requires a CONFIRMED canonical row.
3. Flips the row to CANCELLED.
4. Gives its seat back.
5. Commits.
6. Updates the mirror item.

The model is split into specification functions and a class:

- `CreateFlow.Create` and `CancelFlow.Cancel` state each handler as a function of the three stores before the call and of what the outside world answers. That includes the random bytes, the payment, the clock and the success of each write after the commit.
- `Backend.ReservationBackend` holds the three stores as fields. Its two methods follow the source step by step. A transaction works on local copies of the relational tables, and only the commit assigns them back, so returning early is the rollback. Each method is proved equal to its specification function and to preserve the consistency invariant `Store.Valid`.
- `Store.SeatsConserved` says every seat of a schedule is either still available or held by exactly one CONFIRMED booking. It is preserved by both handlers. `WorkflowProperties.RunKeepsInvariants` proves it for any sequence of calls, whatever the outside world answers, so no schedule is ever oversold.

## The simple handlers

- `SimpleCreate.InMemoryBookings` is the in-memory create handler. Its module-level dictionary is a `map` field, and an accepted request assigns it one entry.
- `SimpleTable.BookingsTable` is the table-backed pair: create derives the status, payment status and transaction id, then puts one item; cancel flips an item's status in place.
- `TrainSearch.Search` is the case-insensitive substring filter over the constant table of thirteen trains. It is `TrainSearch.SearchIn` applied to that table, and the general lemmas are stated for any table.

Outside inputs are parameters:

- the PNR's random bytes (`randomBytes`) or random base-36 digits (`fraction`);
- the clock (`now`, `nowMillis`, `nowIso`, `today`);
- the payment result;
- the success flag of each write that happens after a commit, or of a table put or update.

## Model

| member | source | states |
|---|---|---|
| Text.ContainsIffOccurs | backend/simple-lambda/searchTrains.js:204-205 | `includes` as used by the filter holds exactly when the query occurs at some position of the text |
| Text.LowerOfUpper | backend/simple-lambda/searchTrains.js:204-205 | lower-casing after upper-casing gives the same as lower-casing, so the filter does not see the query's letter case |
| Text.DecimalRoundTrip | backend/simple-lambda/createBooking.js:69 | the decimal digits written for the clock reading read back as that reading |
| Pnr.GeneratePnr | backend/src/handlers/booking/index.js:30-32 | the PNR drawn from five random bytes is ten upper-case hexadecimal characters |
| Pnr.PnrRoundTrip | backend/src/handlers/booking/index.js:30-32 | decoding a PNR gives back the five bytes it was made from, so different draws give different PNRs |
| Pnr.PnrOnto | backend/src/handlers/booking/index.js:30-32 | every string of ten upper-case hexadecimal characters is the PNR of exactly the five bytes it decodes to |
| Requests.EmptyBodyIsMissingDetails | backend/simple-lambda/createBooking.js:27-49 | an absent body is read as `{}`, which lacks every required field of both validations |
| Store.NeverOversold | backend/src/handlers/booking/index.js:34-52 | while every seat is accounted for, a schedule holds no more CONFIRMED bookings than its capacity, and its available count is capacity minus those bookings |
| Store.TakeSeatConserves | backend/src/handlers/booking/index.js:47-52 | taking one seat of a schedule for a new CONFIRMED row keeps every seat accounted for |
| Store.ReleaseSeatConserves | backend/src/handlers/cancelBooking/index.js:27-47 | flipping a CONFIRMED row to CANCELLED and adding its seat back to its schedule row, if that row exists, keeps every seat accounted for |
| CreateFlow.UserIdDefaultsToGuest | backend/src/handlers/booking/index.js:192 | the booking's user id is the authorizer's subject when it is non-empty and 'guest' otherwise |
| CreateFlow.CreateStatusCodes | backend/src/handlers/booking/index.js:197-343 | every answer is 201, 400, 402, 409 or 500, and it is 201 exactly when the transaction commits and both writes after it succeed |
| CreateFlow.CreateRejectsMissingDetails | backend/src/handlers/booking/index.js:202-208 | a request lacking trainId, travelDate, passengerName, passengerAge or fare answers 400 and leaves all three stores as they were |
| CreateFlow.CreateRejectsMalformedBody | backend/src/handlers/booking/index.js:198-199 | a body that is absent, not JSON or `null` makes the handler throw before the transaction: 500, nothing changed |
| CreateFlow.CreateScheduleNotFound | backend/src/handlers/booking/index.js:34-42 | with no schedule row the transaction rolls back: 500, nothing changed |
| CreateFlow.CreateSoldOut | backend/src/handlers/booking/index.js:219-227 | a schedule with no seat left answers 409 and changes nothing |
| CreateFlow.CreatePaymentRolledBack | backend/src/handlers/booking/index.js:236-243 | a payment whose status is not SUCCESS answers 402 with the gateway's details, with no seat taken and no row inserted |
| CreateFlow.CreateInsertRejected | backend/src/handlers/booking/index.js:88-106 | an INSERT whose gender, seat preference or gateway transaction id is undefined is refused by the driver inside the transaction: the seat update rolls back with it, 500, nothing changed |
| CreateFlow.CreateFailuresChangeNothing | backend/src/handlers/booking/index.js:197-343 | a call that does not reach the commit changes no store, and a call that changes a store had a successful payment |
| CreateFlow.CreateCommitted | backend/src/handlers/booking/index.js:246-263 | a commit takes exactly one seat of the requested schedule and leaves the other rows alone; it adds exactly one row, under a fresh well-formed PNR, CONFIRMED, with the caller's user id, that schedule and the payment's transaction id; a 201 echoes that PNR, status and transaction id |
| CreateFlow.CreateMirrored | backend/src/handlers/booking/index.js:109-130 | after the commit the mirror gains an item under the new PNR with the row's user id, the passenger fields, the fare and status CONFIRMED; other items are kept; if that write fails, the answer is 500 and the mirror is unchanged |
| CreateFlow.CreateLateFailureIsCommitted | backend/src/handlers/booking/index.js:263-337 | a failed write after the commit answers 500 although the booking row exists |
| CreateFlow.CreatePreservesValid | backend/src/handlers/booking/index.js:246-281 | the handler keeps every mirror item a copy of its canonical row |
| CreateFlow.CreatePreservesSeats | backend/src/handlers/booking/index.js:219-263 | the handler keeps every seat accounted for |
| CancelFlow.CancelRejectsMissingInput | backend/src/handlers/cancelBooking/index.js:58-72 | a missing PNR answers 400 and a missing subject 401, changing nothing |
| CancelFlow.CancelMirrorChecks | backend/src/handlers/cancelBooking/index.js:78-105 | no mirror item answers 404, an item of another user 403, an item already CANCELLED 409; none of them changes anything |
| CancelFlow.CancelNeedsConfirmedRow | backend/src/handlers/cancelBooking/index.js:34-42 | without a CONFIRMED canonical row (none, PENDING or CANCELLED) the transaction rolls back: 500, nothing changed |
| CancelFlow.CancelFailuresChangeNothing | backend/src/handlers/cancelBooking/index.js:58-178 | only a committed cancellation changes a store; every answer is 200, 400, 401, 403, 404, 409 or 500; it is 200 exactly when the commit and the mirror update both happen |
| CancelFlow.CancelCommitted | backend/src/handlers/cancelBooking/index.js:44-47 | a commit makes the row CANCELLED with its cancellation time, changes no other row, and adds exactly one seat to that booking's own schedule row, leaving the other rows alone |
| CancelFlow.CancelMirrored | backend/src/handlers/cancelBooking/index.js:122-163 | after the commit the mirror item becomes CANCELLED and the answer is 200 with status CANCELLED; if the update fails the answer is 500 and the mirror keeps its item |
| CancelFlow.CancelOfCancelledIsNoOp | backend/src/handlers/cancelBooking/index.js:36-42 | once the canonical row is CANCELLED, a cancel of that PNR changes nothing, whoever asks |
| CancelFlow.CancelRequiresSubject | backend/src/handlers/cancelBooking/index.js:56-72 | a caller without a subject claim changes nothing and is answered 401 |
| CancelFlow.CancelPreservesValid | backend/src/handlers/cancelBooking/index.js:113-133 | the handler keeps the mirror a copy of the canonical rows whose status lags at most from CONFIRMED to CANCELLED |
| CancelFlow.CancelPreservesSeats | backend/src/handlers/cancelBooking/index.js:113-119 | the handler keeps every seat accounted for |
| Backend.ReservationBackend.constructor | backend/src/handlers/booking/index.js:34-45 | a backend over pre-seeded schedule rows with no bookings is consistent, and all its seats are available |
| Backend.ReservationBackend.CreateBooking | backend/src/handlers/booking/index.js:188-343 | the handler's answer and new stores are those of `CreateFlow.Create`, and it keeps `Store.Valid` |
| Backend.ReservationBackend.CancelBooking | backend/src/handlers/cancelBooking/index.js:52-184 | the handler's answer and new stores are those of `CancelFlow.Cancel`, and it keeps `Store.Valid` |
| WorkflowProperties.RunKeepsInvariants | backend/src/handlers/booking/index.js:44 | after any sequence of calls of either handler the stores stay consistent, every seat stays accounted for, and no schedule holds more CONFIRMED bookings than its capacity |
| WorkflowProperties.CancelTwice | backend/src/handlers/cancelBooking/index.js:99-116 | a second cancel of the same PNR gives back no seat; after a 200 it answers 409 and changes nothing |
| WorkflowProperties.CreateThenCancelRestoresInventory | backend/src/handlers/cancelBooking/index.js:116 | a booking by a signed-in user, cancelled by that user, leaves the inventory exactly as before the booking |
| WorkflowProperties.CapacityOneScenario | backend/src/handlers/booking/index.js:219-263 | with one seat and a request carrying every field the booking form sends: a booking takes it, a second booking answers 409 and changes nothing, the owner's cancel gives it back, and a new booking then succeeds |
| SimpleIds.RandomPnr | backend/simple-lambda/createBooking.js:3-5 | the PNR has the first ten base-36 digits of the random fraction (fewer if the expansion is shorter), all digits or capital letters |
| SimpleIds.TransactionId | backend/simple-lambda/createBooking.js:69 | the transaction id is 'TXN' followed by the decimal digits of the clock reading |
| SimpleIds.TransactionIdInjective | backend/simple-lambda/createBookingWithDB.js:70 | different clock readings give different transaction ids |
| SimpleIds.ShortPnr | backend/simple-lambda/createBooking.js:3-5 | the random fraction 0.5 gives the one-character PNR 'I' |
| SimpleCreate.NewRecord | backend/simple-lambda/createBooking.js:55-71 | the stored record carries its PNR, status CONFIRMED and a 'TXN' transaction id made from the clock |
| SimpleCreate.InMemoryBookings.constructor | backend/simple-lambda/createBooking.js:1 | a cold start begins with an empty dictionary |
| SimpleCreate.InMemoryBookings.Handle | backend/simple-lambda/createBooking.js:18-97 | OPTIONS answers 200; a body that does not parse answers 500; a request missing a required field answers 400; none of these changes the dictionary; a parsed request with every required field answers 201, which stores the new record under the drawn PNR, overwriting any entry there, keeps every other entry, and echoes that PNR, CONFIRMED and the record's transaction id; every stored record stays well formed |
| SimpleTable.NewItem | backend/simple-lambda/createBookingWithDB.js:52-72 | the item belongs to 'guest'; it is PENDING exactly when the request's paymentStatus is 'PENDING', otherwise CONFIRMED; its transaction id is null exactly when it is PENDING, and otherwise 'TXN' with the clock; its paymentStatus is the request's when truthy and 'CONFIRMED' otherwise |
| SimpleTable.BookingsTable.CreateBooking | backend/simple-lambda/createBookingWithDB.js:22-101 | OPTIONS answers 200; a body that does not parse answers 500; a missing required field answers 400; a validated request is stored exactly when the item has no undefined attribute and the put succeeds, and otherwise answers 500; a failure changes nothing; success puts the item under the drawn PNR and answers with its PNR, status, transaction id and the message for that status; every item stays well formed |
| SimpleTable.BookingsTable.CancelBooking | backend/simple-lambda/cancelBooking.js:18-88 | OPTIONS answers 200; a missing PNR answers 400, an unknown one 404, a CANCELLED item 409; a failed update of a live item answers 500; none of these changes the table; success makes that item CANCELLED with its cancellation time, changes no other field or item, and answers with the same PNR and CANCELLED |
| SimpleTable.FailedPaymentIsConfirmed | backend/simple-lambda/createBookingWithDB.js:52-70 | a paymentStatus of 'FAILED' is booked as CONFIRMED with a transaction id, and 'FAILED' is stored beside it |
| SimpleTable.MissingTravelDateFailsTheWrite | backend/simple-lambda/createBookingWithDB.js:43-78 | a request without travelDate passes the validation but its item has an undefined attribute, so the put fails |
| TrainSearch.WithDate | backend/simple-lambda/searchTrains.js:209-212 | the results keep the trains' order and every field of each train, and every result carries the date |
| TrainSearch.FilterMembership | backend/simple-lambda/searchTrains.js:202-208 | a train is in the result exactly when it is in the table and its lower-cased origin and destination contain the lower-cased query values |
| TrainSearch.FilterIsSubsequence | backend/simple-lambda/searchTrains.js:202-208 | the result keeps the table's order: it is a subsequence of the table |
| TrainSearch.FilterIgnoresCase | backend/simple-lambda/searchTrains.js:204-205 | queries that lower-case alike select the same trains |
| TrainSearch.SearchIgnoresCase | backend/simple-lambda/searchTrains.js:186-212 | upper-casing the query does not change the answer, over the mock table or any other |
| TrainSearch.SearchResult | backend/simple-lambda/searchTrains.js:186-212 | over the mock table or any other: without a non-empty `from` and `to` the answer is 400; with both it is a list, which holds exactly the matching trains of the table, in table order, each with the query date or else today's date |
| TrainSearch.DelhiToMumbai | backend/simple-lambda/searchTrains.js:1-38 | from 'delhi' to 'mumbai' finds trains 1, 2 and 3, in that order, each with the query date |
| TrainSearch.DelhiToMumbaiFilter | backend/simple-lambda/searchTrains.js:202-208 | the filter from 'delhi' to 'mumbai' keeps exactly the first three trains of the table |

## Behaviour worth noting

The model does what the code does in each of these cases, although another answer would be more consistent.

- A failure after the commit answers 500 from both canonical handlers. In the booking handler that is the mirror write or the session write; in the cancel handler, the mirror update. The booking row and the seat change stay committed. A degraded success would be the consistent answer, since the change is already committed (`CreateFlow.CreateLateFailureIsCommitted`, `CancelFlow.CancelMirrored`).
- The booking handler has no retry when a PNR collides. The INSERT fails on the primary key, after the payment has been charged, and the answer is 500 (`DuplicatePnr`). The in-memory simple handler overwrites the existing entry instead.
- The canonical cancel handler requires a subject claim. The booking handler books a caller without one as 'guest', so such bookings cannot be cancelled through it.
- The table-backed simple handler books any paymentStatus other than 'PENDING', including 'FAILED', as CONFIRMED.

## Left out

- The payment gateway call and its fallback, which answers SUCCESS whenever the gateway cannot be reached: the payment result is a parameter.
- Notifications (`sendNotifications`, the cancel handler's SNS publish, `sendNotification.js`) are best-effort I/O whose failures are caught, so they change no state. The model leaves them out.
- The session item's contents and its TTL are left out. Only whether the session put succeeds is modelled.
- The MySQL pool and the AWS SDK clients: the stores are maps.
- Read failures are not inputs of the model: a failing SELECT, GetCommand, connection or commit. Only the writes after a commit, and the simple table's put and update, carry a success flag.
- The canonical mirror put's rejection of undefined attributes is part of `mirrorWriteOk`. The INSERT's rejection of undefined bind values is modelled explicitly, as `CreateFlow.InsertBindsDefined`. The simple table models that rejection explicitly as `SimpleTable.NoUndefinedAttributes`.
- The canonical stores take the request's values as given. MySQL's type coercion of key columns and its case-insensitive string comparison of PNRs are not modelled.
- JSON values are modelled as undefined, null, booleans, integers and strings. Fractional numbers, NaN, arrays and objects are left out. A body that parses to a non-object is treated like one that does not parse.
- Letter case is mapped on ASCII letters only, not on the rest of Unicode.
- `Math.random` and `crypto.randomBytes` are parameters: `fraction` holds the base-36 digits after the point, and `randomBytes` the five bytes.
- Row locking (`FOR UPDATE`) and concurrent calls are left out: each handler runs atomically.
- The search handler's 500 path is left out, because the model types query values as strings. A truthy non-string `from` or `to` passed through `params.querystring` would make `toLowerCase` throw, and that case is not represented.
- The thin database wrappers are not part of this model: `backend/src/handlers/searchTrains/index.js`, both `getBookings` handlers, and the frontend.
