# Cinema booking core — a Dafny model

This project models the seat-reservation and ticket lifecycle of a cinema booking
backend (Node.js/Express over SQL Server). It covers these parts:

- **Bookings** (`createBooking`, `cancelBooking`). A booking holds seats, prices
  them, issues one ticket per seat, and can later be voided.
- **Payments** (`confirmPayment`). A payment turns a PENDING booking into a sale.
- **Tickets** (`confirmTicket`, `cancelTicket`, `getTicketQRCode`). These work on
  one ticket at a time and write a history row.
- **Staff check-in** (`checkinTicket`, `checkinWithDirectQuery`, `requireStaff`).
  Check-in is the CONFIRMED → USED transition, allowed within thirty minutes
  either side of the showtime start. The check-in handler turns each thrown
  message into an HTTP answer.
- **Showtime scheduling** (`createShowtime`, `updateShowtime`, `deleteShowtime`,
  the manager branch guards). This covers the end-time arithmetic, the
  room-conflict test and seeding one AVAILABLE seat row per room seat.
- **Access control** (`roleCheck` with its four checkers, `checkBranchAccess`).
- **Revenue aggregation**. `getBranchRevenue` folds its rows into totals.
  `getMovieRevenue` groups its rows by movie and ranks them by revenue.

`Store` holds the tables as one `Db` snapshot datatype. The class
`Store.Database` has one field per table. Each request handler is a method on a
`Database`: it `modifies` the database and is proved equal to a pure step
function. The step function (`CreateBookingSpec`, `ConfirmPaymentSpec`, …) gives
the answer and the tables afterwards. The lemmas about the step functions state
what each handler does:

- its error answers;
- what it writes;
- that a refusal writes nothing;
- how two calls in a row behave;
- that it preserves `Store.Consistent`. This invariant says every seat that is
  not AVAILABLE names its booking, every seat row names a known showtime, and
  ticket ids behave like an identity column.

Behaviour of the code worth noting, which the model follows as written:

- `confirmPayment` never looks at `expires_at`, so an expired PENDING booking
  can still be paid (`PaymentController.ConfirmPaymentIgnoresExpiry`).
- A too-late check-in is answered with 500, not with the "outside window" 400
  (`CheckinController.CheckinWindow`).
- `cancelBooking` also cancels USED tickets and leaves the showtime counters
  alone (`BookingController.CancelBookingEffects`).
- `confirmTicket` books every seat of the booking while confirming one ticket
  (`TicketController.ConfirmTicketEffects`).
- `confirmPayment` re-confirms individually cancelled tickets and counts them as
  sold (`TicketController.CancelThenPayReconfirms`).
- No code releases expired holds, so nothing in the model does either.

The program's inputs that are not under its control become parameters:

- the clock (`now`);
- generated identifiers (booking id, booking reference, ticket numbers, payment
  id);
- the rows a report query returns;
- the showtime → branch lookup.

## Model

| member | source | states |
|---|---|---|
| BookingController.CreateBooking | backend/controllers/bookingController.js:5-215 | The handler's answer and the tables afterwards are those of `CreateBookingSpec`; the consistency invariant is kept. |
| BookingController.InsertTickets | backend/controllers/bookingController.js:142-178 | The ticket loop inserts one row per matched seat, numbered from the identity counter, and answers the ticket summaries. The counter advances by the number of seats. |
| BookingController.SeatRows | backend/controllers/bookingController.js:123-137 | The seats matched by `seat_id IN (…)` are each requested id that exists in the catalogue, listed once, and no more than were requested. |
| BookingController.QrCodeDataInjective | backend/controllers/bookingController.js:168 | Two seats of one booking never share a `QR-<reference>-<seat>` payload. |
| BookingController.CreateBookingErrorWritesNothing | backend/controllers/bookingController.js:208-214 | Every refused booking request leaves all tables unchanged. |
| BookingController.CreateBookingValidation | backend/controllers/bookingController.js:15-45 | A missing showtime id, a missing customer email or a missing or non-array seat list gives 400. An unknown showtime gives 404. |
| BookingController.CreateBookingAllOrNothing | backend/controllers/bookingController.js:50-78 | A success implies that every requested seat row of the showtime was AVAILABLE. Any seat row not AVAILABLE refuses the whole request with 400 and writes nothing. |
| BookingController.CreateBookingPricing | backend/controllers/bookingController.js:81-120 | The new booking belongs to the requested showtime and that showtime's branch. It carries the generated reference and the customer's email, and the phone and name when given (NULL when empty). It is PENDING with `expires_at` = now + 15 min. When some requested seat is in the catalogue, its total equals the sum of the tickets' unit prices. When none is, the total is NULL (a SUM over no rows) and no ticket is created. Its final amount equals its total, and its quantity equals the number of distinct catalogue seats requested. The booking id is new, and no existing booking changes. |
| BookingController.SummariesSumToTotal | backend/controllers/bookingController.js:81-98 | The unit prices of the issued tickets add up to the SQL total Σ base × multiplier. |
| BookingController.CreateBookingIssuesTickets | backend/controllers/bookingController.js:142-178 | There is exactly one new RESERVED ticket per matched seat, under its generated number. Each belongs to the new booking, the requested showtime and its branch, and carries the customer's email and name. Each is priced base × multiplier for both unit and final price, carries the QR payload and the row+number seat label, and is not checked in. Earlier tickets are unchanged. |
| BookingController.IssueTicketsKeys | backend/controllers/bookingController.js:142-178 | After k inserts the ticket table holds exactly the old numbers plus the first k generated numbers. |
| BookingController.IssueTicketsKeepsOld | backend/controllers/bookingController.js:142-178 | The inserts leave every pre-existing ticket row as it was. |
| BookingController.IssueTicketsNew | backend/controllers/bookingController.js:142-178 | The j-th generated number holds the ticket of the j-th matched seat, with its id from the counter. |
| BookingController.IssueTicketsKeepsIds | backend/controllers/bookingController.js:142-178 | The inserts keep `ticket_id` an identity column: the ids stay distinct and below the advanced counter. |
| BookingController.CreateBookingHoldsSeats | backend/controllers/bookingController.js:181-195 | Each requested seat row of the showtime becomes RESERVED, owned by the new booking and locked until now + 15 min. No other seat row and no showtime counter changes. |
| BookingController.CreateBookingKeepsConsistency | backend/controllers/bookingController.js:101-195 | A booking keeps the consistency invariant: held seats name their booking, and ticket ids stay unique. |
| BookingController.CancelBooking | backend/controllers/bookingController.js:319-377 | The handler's answer and the tables afterwards are those of `CancelBookingSpec`. |
| BookingController.CancelBookingEffects | backend/controllers/bookingController.js:328-360 | An unknown booking gives 404 and an already cancelled one gives 400, with nothing written. Otherwise the booking and all its tickets become CANCELLED, with every other field kept, and every seat it holds is released. No other booking, ticket or seat row changes, and the showtime counters, payments and all other tables are untouched. |
| BookingController.CancelTwiceFails | backend/controllers/bookingController.js:335-340 | A second cancel of the same booking is always refused with "already cancelled". |
| BookingController.CancelBookingVoidsUsedTickets | backend/controllers/bookingController.js:348-352 | A USED (checked-in) ticket of the booking ends CANCELLED too. |
| BookingController.CancelBookingKeepsConsistency | backend/controllers/bookingController.js:343-360 | Cancelling keeps the consistency invariant. |
| PaymentController.ConfirmPayment | backend/controllers/paymentController.js:5-140 | The handler's answer and the tables afterwards are those of `ConfirmPaymentSpec`. |
| PaymentController.SellSeats | backend/controllers/paymentController.js:82-99 | Selling n seats adds n to `booked_seats` and keeps booked + available constant. |
| PaymentController.ConfirmPaymentErrors | backend/controllers/paymentController.js:9-30 | Missing fields give 400. An absent or non-PENDING booking gives 404. A refusal writes nothing. |
| PaymentController.ConfirmPaymentEffects | backend/controllers/paymentController.js:39-99 | One SUCCESS payment row is written, with amount = the booking total and final amount = the paid amount. The booking and all its tickets become CONFIRMED, with every other field kept, and no other booking changes. Its seats become BOOKED with no lock. The showtime moves n seats from available to booked, where n is the booking's ticket row count, and keeps its other fields. Nothing else changes. |
| PaymentController.ConfirmPaymentTwiceFails | backend/controllers/paymentController.js:17-30 | A booking is paid at most once: a second confirmation gives 404. |
| PaymentController.ConfirmPaymentIgnoresExpiry | backend/controllers/paymentController.js:17-23 | `expires_at` does not affect the answer or the booking's new status. |
| PaymentController.ConfirmPaymentKeepsConsistency | backend/controllers/paymentController.js:58-99 | Payment keeps the consistency invariant. |
| TicketController.ConfirmTicket | backend/controllers/ticketController.js:10-120 | The handler's answer and the tables afterwards are those of `ConfirmTicketSpec`. |
| TicketController.ConfirmTicketEffects | backend/controllers/ticketController.js:40-111 | A missing number gives 400, an unknown ticket 404, and a ticket not RESERVED 400 naming its status; a refusal writes nothing. On success only this ticket becomes CONFIRMED. Every seat row of its booking becomes BOOKED, still owned by the booking and with no lock, and no other seat row changes. One MANUAL_CONFIRM history row RESERVED→CONFIRMED is appended. All other tables, bookings and showtimes included, are unchanged. |
| TicketController.ConfirmTicketTwiceFails | backend/controllers/ticketController.js:40-60 | A second confirm of the same ticket is refused, naming CONFIRMED. |
| TicketController.ConfirmTicketKeepsConsistency | backend/controllers/ticketController.js:65-79 | Confirming a ticket keeps the consistency invariant. |
| TicketController.CancelTicket | backend/controllers/ticketController.js:122-240 | The handler's answer and the tables afterwards are those of `CancelTicketSpec`. |
| TicketController.CancelTicketEffects | backend/controllers/ticketController.js:150-232 | A missing number gives 400, an unknown ticket 404, and a USED or CANCELLED ticket 400; a refusal writes nothing. On success only the ticket's status becomes CANCELLED, and only its own seat row is released. One MANUAL_CANCEL history row records the old status. No other ticket or seat row changes, and every other table is unchanged. |
| TicketController.CancelThenPayReconfirms | backend/controllers/paymentController.js:58-79 | Cancelling a ticket of a PENDING booking and then paying brings the ticket back to CONFIRMED. Its seat stays AVAILABLE and unowned, and the payment still lists it. |
| TicketController.CancelTicketKeepsConsistency | backend/controllers/ticketController.js:181-200 | Cancelling a ticket keeps the consistency invariant. |
| TicketController.TicketWithId | backend/controllers/ticketController.js:401-414 | The lookup by `ticket_id` finds the ticket row with that id when there is one. |
| TicketController.GetTicketQRCode | backend/controllers/ticketController.js:397-451 | The handler's answer and the tables afterwards are those of `GetTicketQRCodeSpec`. |
| TicketController.GetTicketQRCodeEffects | backend/controllers/ticketController.js:416-441 | An unknown id gives 404. A stored payload is answered unchanged with nothing written. Otherwise `CINEMA:TICKET:<number>:<now>` is stored on that ticket and answered; no other ticket or table changes. |
| TicketController.GetTicketQRCodeIdempotent | backend/controllers/ticketController.js:416-441 | After one call, a later call at any time answers the same payload and writes nothing. |
| TicketController.QrStoreKeepsConsistency | backend/controllers/ticketController.js:417-425 | Storing a QR payload keeps the consistency invariant. |
| CheckinController.RoundedMinutes | backend/controllers/checkinController.js:556-566 | `Math.round(ms / 60000)` is the whole number of minutes nearest to ms, with halves rounding up. |
| CheckinController.RoundedMinutesValues | backend/controllers/checkinController.js:556-566 | Ten minutes round to 10; 29999 ms rounds to 0 and 30000 ms to 1. |
| CheckinController.CheckinWithDirectQuery | backend/controllers/checkinController.js:499-621 | The fallback path throws or checks in exactly as `DirectCheckinSpec` says, and keeps the consistency invariant. |
| CheckinController.CheckinTicket | backend/controllers/checkinController.js:10-94 | The handler's answer and the tables afterwards are those of `CheckinTicketSpec`. |
| CheckinController.CheckinErrorStatus | backend/controllers/checkinController.js:58-92 | The catch block's substring tests turn each thrown error into an answer: not found 404, already checked in 409, invalid status 400, too early 400, and too late 500. |
| CheckinController.NotFoundMaps404 | backend/controllers/checkinController.js:81-86 | "Ticket not found" matches none of the earlier tests and gives 404. |
| CheckinController.AlreadyMaps409 | backend/controllers/checkinController.js:59-64 | "Ticket already checked in" gives 409. |
| CheckinController.InvalidStatusMaps400 | backend/controllers/checkinController.js:66-71 | The invalid-status message, whatever the status, gives 400. |
| CheckinController.TooEarlyMaps400 | backend/controllers/checkinController.js:73-79 | The too-early message, whatever the minutes, gives 400. |
| CheckinController.TooLateMaps500 | backend/controllers/checkinController.js:88-92 | The too-late message, whatever the minutes, matches no test and gives 500. |
| CheckinController.CheckinNumberRequired | backend/controllers/checkinController.js:17-22 | A missing or empty ticket number is answered 400 before any lookup, and nothing is written. A present number never draws that answer. |
| CheckinController.CheckinStatusChecks | backend/controllers/checkinController.js:513-538 | An unknown ticket gives 404, a USED ticket 409, and a RESERVED or CANCELLED ticket 400, whatever the clock says. A refusal writes nothing. |
| CheckinController.CheckinWindow | backend/controllers/checkinController.js:541-566 | A CONFIRMED ticket checks in iff start − 30 min ≤ now ≤ start + 30 min. Too early reports the rounded minutes until the window opens, and too late the rounded minutes since it closed. Too early is answered 400, too late 500. |
| CheckinController.CheckinWindowExamples | backend/controllers/checkinController.js:541-566 | At T − 40 min the ticket is 10 minutes too early; at T + 40 min it is 10 minutes too late. |
| CheckinController.CheckinEffects | backend/controllers/checkinController.js:572-590 | A successful check-in marks exactly this ticket USED, checked in at now by the staff user. It appends one CHECK_IN history row CONFIRMED→USED. No other ticket changes, and no table other than tickets and check-in history changes. |
| CheckinController.CheckinTwiceConflicts | backend/controllers/checkinController.js:530-532 | After a successful check-in, every later attempt is answered 409. |
| CheckinController.CheckinKeepsConsistency | backend/controllers/checkinController.js:572-590 | Check-in keeps the consistency invariant. |
| CheckinController.CheckinAsWrittenNeverSucceeds | backend/controllers/checkinController.js:1-6 | As written, with the stored procedure failing, every check-in with a number is answered 500 and writes nothing. |
| CheckinController.RequireStaff | backend/controllers/checkinController.js:624-633 | Exactly STAFF, MANAGER and ADMIN pass; everything else, including no user, is refused with 403. |
| CheckinController.RequireStaffMatchesRoleCheck | backend/middleware/roleCheck.js:22-25 | This gate and roleCheck's `requireStaff` admit the same users. They differ only without a user: 403 here, 401 there. |
| RoleCheck.RoleGate | backend/middleware/roleCheck.js:1-19 | No user gives 401. A role outside the list gives 403. A role in the list passes. |
| RoleCheck.CheckersAdmit | backend/middleware/roleCheck.js:22-25 | The exact role set each of the four checkers admits. |
| RoleCheck.RoleGateMonotone | backend/middleware/roleCheck.js:10-17 | Widening the allowed list never turns a pass into a refusal. |
| RoleCheck.CheckersNest | backend/middleware/roleCheck.js:22-25 | Passing requireAdmin implies passing requireManager, which implies requireStaff, which implies requireCustomer. |
| BranchAccessCheck.AdminAlwaysPasses | backend/middleware/branchAccessCheck.js:10-12 | ADMIN passes whatever the lookup holds. |
| BranchAccessCheck.ManagerUnknownShowtime | backend/middleware/branchAccessCheck.js:19-31 | A MANAGER naming a nonexistent showtime gets 404. |
| BranchAccessCheck.ManagerDeniedIff | backend/middleware/branchAccessCheck.js:15-49 | A MANAGER on a showtime resource is refused 403 iff a resource branch was identified and it is not theirs; otherwise they pass. |
| BranchAccessCheck.ParamTakesPrecedence | backend/middleware/branchAccessCheck.js:19-37 | When the route names a showtime, the body's branch_id does not affect the decision. |
| BranchAccessCheck.OthersPass | backend/middleware/branchAccessCheck.js:15-49 | Any role other than MANAGER, or any resource type other than "showtime", passes. |
| BranchAccessCheck.CheckBranchAccessOutcomes | backend/middleware/branchAccessCheck.js:3-58 | The only answers are pass, 404, 403 and 500. The answer is 500 exactly when no user is present. |
| ShowtimeController.ConflictTestIsOverlap | backend/controllers/showtimeController.js:234-255 | For intervals of positive length, the three-way conflict test is plain interval overlap. |
| ShowtimeController.SeedSeatsStep | backend/controllers/showtimeController.js:281-295 | Seeding one more seat adds exactly its AVAILABLE row. |
| ShowtimeController.SeedShowtimeSeats | backend/controllers/showtimeController.js:281-295 | The loop adds one AVAILABLE row for the new showtime per seat of the room and changes no other table. |
| ShowtimeController.CreateShowtime | backend/controllers/showtimeController.js:154-310 | The handler's answer and the tables afterwards are those of `CreateShowtimeSpec`. |
| ShowtimeController.CreateShowtimeErrors | backend/controllers/showtimeController.js:172-308 | The checks come in the handler's order, and a refusal writes nothing: a missing field gives 400, a MANAGER of another branch 403, and a missing or inactive room 404. A room of another branch gives 400 and a missing or inactive movie 404. An unparsable start gives 500, and an overlap with an ACTIVE showtime of the room 400. Past the conflict check, the insert succeeds iff the id is new; otherwise the answer is 500. |
| ShowtimeController.CreateShowtimeEffects | backend/controllers/showtimeController.js:196-295 | On success the room is ACTIVE and in the branch, and the movie is ACTIVE. The new showtime holds the requested id, movie, branch, room, start and base price. End = start + duration × 60000. The new showtime conflicts with no ACTIVE showtime of the room. It starts with available = the room's total seats and 0 booked, status ACTIVE, and gets exactly one AVAILABLE seat row per room seat. Existing showtimes and seat rows, and every other table, are unchanged. |
| ShowtimeController.CreateShowtimeKeepsConsistency | backend/controllers/showtimeController.js:257-295 | Creating a showtime keeps the consistency invariant. |
| ShowtimeController.UpdateShowtime | backend/controllers/showtimeController.js:313-398 | The handler's answer and the tables afterwards are those of `UpdateShowtimeSpec`. |
| ShowtimeController.UpdateShowtimeEffects | backend/controllers/showtimeController.js:324-375 | An unknown showtime gives 404, an unparsable start 400, and a request with no start, no truthy base price and no status 400; a refusal writes nothing. A valid new start is always accepted, with no conflict check, and moves the end to start + duration. Without a new start, start and end are kept. A truthy base price or status is written, and otherwise kept. Movie, room, branch and counters never change, and no other showtime or table changes. |
| ShowtimeController.UpdateShowtimeKeepsConsistency | backend/controllers/showtimeController.js:370-375 | Updating a showtime keeps the consistency invariant. |
| ShowtimeController.DeleteShowtime | backend/controllers/showtimeController.js:401-437 | The handler's answer and the tables afterwards are those of `DeleteShowtimeSpec`. |
| ShowtimeController.DeleteShowtimeEffects | backend/controllers/showtimeController.js:406-423 | The delete is refused iff a PENDING or CONFIRMED booking names the showtime, and a refusal writes nothing. Otherwise only its status changes, to INACTIVE; other showtimes, seat rows, bookings and tickets are unchanged, and an unknown id changes nothing. |
| ShowtimeController.DeleteShowtimeKeepsConsistency | backend/controllers/showtimeController.js:420-423 | Deleting a showtime keeps the consistency invariant. |
| ShowtimeController.ManagerGuards | backend/controllers/showtimeController.js:43-48 | A MANAGER is refused 403 exactly for another branch's showtimes, rooms or new showtime; every other role passes. |
| RevenueController.AddRow | backend/controllers/revenueController.js:33-40 | The reducer adds each column of the row to the accumulator, a NULL counting as 0. |
| RevenueController.FoldTotalsSums | backend/controllers/revenueController.js:33-47 | The fold adds each column's sum over the rows to the accumulator. |
| RevenueController.BranchRevenueOutcomes | backend/controllers/revenueController.js:9-14 | Missing dates give 400 and a failed query 500; no rows give all zeros. |
| RevenueController.BranchRevenueTotals | backend/controllers/revenueController.js:33-47 | Each summary total is the sum of that column over the rows. |
| RevenueController.BranchTotalsAdditive | backend/controllers/revenueController.js:33-47 | The totals over the rows of two periods are the sum of each period's totals. |
| RevenueController.ColumnSumAppend | backend/controllers/revenueController.js:33-47 | A column sum over a concatenation is the sum of the two parts. |
| RevenueController.GroupByMovie | backend/controllers/revenueController.js:100-115 | The forEach fills the dictionary as `Group` says and notes its keys in insertion order. |
| RevenueController.MovieRevenue | backend/controllers/revenueController.js:68-137 | Missing dates give 400 and a failed query 500; otherwise the answer is the ranked movie summary. |
| RevenueController.GroupKeys | backend/controllers/revenueController.js:100-110 | The dictionary holds one entry per distinct movie id of the rows, keyed by that id. |
| RevenueController.GroupSums | backend/controllers/revenueController.js:100-115 | Each movie's entry carries the title of its first row and the sums of revenue, tickets and showtimes over its rows. |
| RevenueController.InsertPermutes | backend/controllers/revenueController.js:117-119 | One insertion step is a permutation. |
| RevenueController.InsertSorted | backend/controllers/revenueController.js:117-119 | Inserting into a list sorted by descending revenue keeps it sorted. |
| RevenueController.SortByRevenueSorts | backend/controllers/revenueController.js:117-119 | The ranking is a permutation of its input, sorted by revenue, highest first. |
| RevenueController.MovieSummaryRanked | backend/controllers/revenueController.js:117-119 | The movie summary is sorted by revenue, highest first, and no two entries share a movie. |
| RevenueController.MovieSummaryOnePerMovie | backend/controllers/revenueController.js:100-119 | The summary's movie ids are exactly the distinct movie ids of the rows, one entry each. |
| RevenueController.MovieSummarySums | backend/controllers/revenueController.js:100-119 | Each summary entry holds its movie's sums over its rows and the first row's title. |

## Left out

- Stored procedures: `ticket.sp_CheckinTicket` and the seat-listing procedure
  have no visible bodies. `checkinTicket` is modelled with its direct-query
  fallback doing the work, so its "empty result gives 400" branch is not
  modelled.
- Concurrency: `createBooking` checks then writes with no transaction, and
  `confirmPayment` and `cancelBooking` issue independent statements. Each
  request is modelled as one atomic step, and races are not modelled.
- The connection pool, query wrappers and transactions of the database helper
  are plumbing. A transaction is modelled as all writes or none, and a thrown
  statement as "nothing written".
- Clock and identifiers: `GETDATE()`, `Date.now()`, the random booking
  reference, the ticket numbers and the payment id are parameters.
  `BookingController.CreateBookingSpec` requires the ticket numbers to be
  distinct and unused; this is what the number generator is trusted to give.
  The uniqueness of booking references is not modelled.
- Money: prices are integers and the seat multiplier is a scaled integer.
  Floating-point and SQL decimal rounding are not modelled.
- The database schema is not part of this model. `total_amount` and
  `final_amount` of a booking, and the `amount` of a payment, are taken as
  nullable. When no requested seat is in the catalogue, the pricing SUM is NULL
  and the booking is stored with NULL amounts, which `confirmPayment` copies into
  the payment row. If the schema declared those columns NOT NULL, the insert
  would throw and the request would be answered 500.
- `BookingController.CreateBookingSpec`: the seat-details query has no ORDER BY,
  so the order of the created tickets and of the answered ticket list is not
  fixed by the source. The model creates them in the order of the first request
  of each seat; only the set of tickets and their prices are meant.
- Hold expiry: no code revisits `locked_until` or `expires_at`, so no reclaimer
  is modelled.
- `remaining_seats`, computed in SQL from the counters, is not part of this
  model.
- `createShowtime` with a start time that does not parse: the conflict query
  then throws, and this is modelled as its 500 answer.
- The database defaults of a new showtime (`booked_seats` 0, status ACTIVE) are
  taken as those of the schema.
- The ticket-id route parameter of `getTicketQRCode` is modelled as a number. A
  non-numeric parameter is not modelled.
- Reading `user.branch_id` on a request without a user throws in the showtime
  handlers. These handlers take an authenticated `User`.
- The listing and report handlers (`getShowtimesByBranch`, `getRoomsByBranch`,
  booking and ticket lookups, check-in history and statistics, dashboard
  queries) are SQL queries. Only the manager guards of the two listing handlers
  are modelled.
- `RevenueController.MovieRevenue`: the rows' numeric fields are taken as
  non-null. `Object.values` lists integer-like keys first, in ascending numeric
  order, and the other keys in insertion order. The model lists the grouped
  movies in first-seen order instead. The JavaScript sort is stable, so the
  relative order of movies with equal revenue is the order of `Object.values`,
  which for integer-like movie ids is not the first-seen order. That tie order is
  therefore not stated; only the ordering by revenue and the permutation are
  proved.
- Catalogue, admin and authentication handlers, routes and server wiring are not
  part of this model.

## Findings

| source | as written | input that shows it | evidently intended | confidence | as-written member | corrected member |
|---|---|---|---|---|---|---|
| backend/controllers/checkinController.js:1-6 | `executeTransaction` is imported from the database module, which defines it (backend/config/database.js:87-104) but does not export it (backend/config/database.js:154-164). The check-in fallback therefore throws "executeTransaction is not a function", and every fallback check-in is answered 500. | Any request with a ticket number once the stored procedure call fails, e.g. a CONFIRMED ticket inside its window. | The fallback checks the ticket in, or refuses it with the 404/409/400 answers, as `CheckinController.CheckinTicketSpec` models it. | not executed | CheckinController.CheckinAsWrittenNeverSucceeds | CheckinController.CheckinWindow |
