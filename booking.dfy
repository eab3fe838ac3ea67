/** createBooking (hold seats, price them, issue one ticket per seat) and
    cancelBooking (void the booking, its tickets and its seat holds). */
module BookingController {
  import opened Common
  import opened Store

  /** The request body; `seatIds` is None when absent or not an array. */
  datatype BookingRequest = BookingRequest(
    showtimeId: Option<string>, customerEmail: Option<string>,
    customerPhone: Option<string>, customerName: Option<string>,
    seatIds: Option<seq<SeatId>>)

  datatype TicketSummary = TicketSummary(ticketNumber: TicketNumber, seatNumber: string, seatType: nat, unitPrice: int)

  /** The body of a 201 answer. */
  datatype BookingCreated = BookingCreated(
    bookingId: BookingId, reference: string, totalAmount: Option<int>, ticketQuantity: nat,
    tickets: seq<TicketSummary>)

  const MissingFields := Failure(400, "Showtime ID, customer email, and seat IDs are required")
  const ShowtimeNotFound := Failure(404, "Showtime not found")
  const SeatsUnavailable := Failure(400, "One or more seats are not available")
  /** Any statement that throws (an empty `IN ()` list, a duplicate key) ends in this answer. */
  const CreateFailed := Failure(500, "Failed to create booking")
  const BookingNotFound := Failure(404, "Booking not found")
  const AlreadyCancelled := Failure(400, "Booking is already cancelled")

  /** The seat-availability query finds a row of this showtime, among the requested
      seats, whose status is not AVAILABLE. Seats without a row are not reported. */
  predicate SomeSeatTaken(seats: map<SeatKey, ShowtimeSeat>, st: ShowtimeId, ids: seq<SeatId>)
  {
    exists i :: 0 <= i < |ids| && SeatKey(st, ids[i]) in seats && seats[SeatKey(st, ids[i])].status != Available
  }

  /** The catalogue seats matched by `seat_id IN (ids)`: each requested id that has
      a branch.Seats row, once, in order of first request. */
  function SeatRows(seats: map<SeatId, Seat>, ids: seq<SeatId>): (r: seq<SeatId>)
    ensures forall i, j :: 0 <= i < j < |r| ==> r[i] != r[j]
    ensures forall x :: x in r <==> x in ids && x in seats
    ensures |r| <= |ids|
  {
    if ids == [] then []
    else
      var r := SeatRows(seats, ids[..|ids| - 1]);
      var x := ids[|ids| - 1];
      if x in seats && x !in r then r + [x] else r
  }

  /** base_price * price_multiplier. */
  function UnitPrice(basePrice: int, seat: Seat): int
  {
    basePrice * seat.priceMultiplier
  }

  /** The sum of base_price * price_multiplier over the matched seats. */
  function TotalAmount(basePrice: int, seats: map<SeatId, Seat>, rows: seq<SeatId>): int
    requires forall x :: x in rows ==> x in seats
  {
    if rows == [] then 0
    else TotalAmount(basePrice, seats, rows[..|rows| - 1]) + UnitPrice(basePrice, seats[rows[|rows| - 1]])
  }

  /** The `total_amount` the pricing query answers: SUM over no rows is NULL. */
  function BookingTotal(basePrice: int, seats: map<SeatId, Seat>, rows: seq<SeatId>): Option<int>
    requires forall x :: x in rows ==> x in seats
  {
    if rows == [] then None else Some(TotalAmount(basePrice, seats, rows))
  }

  /** `${seat_row}${seat_number}` */
  function SeatLabel(seat: Seat): string
  {
    seat.row + NatToDecimal(seat.number)
  }

  /** `QR-${booking_reference}-${seat_id}` */
  function QrCodeData(reference: string, seatId: SeatId): string
  {
    "QR-" + reference + "-" + NatToDecimal(seatId)
  }

  /** Seats of one booking get distinct QR payloads. */
  lemma QrCodeDataInjective(reference: string, a: SeatId, b: SeatId)
    requires QrCodeData(reference, a) == QrCodeData(reference, b)
    ensures a == b
  {
    var prefix := "QR-" + reference + "-";
    assert QrCodeData(reference, a)[|prefix|..] == NatToDecimal(a);
    assert QrCodeData(reference, b)[|prefix|..] == NatToDecimal(b);
    NatToDecimalInjective(a, b);
  }

  /** What every ticket of one new booking shares. */
  datatype Issue = Issue(
    bookingId: BookingId, showtimeId: ShowtimeId, branchId: BranchId, basePrice: int,
    customerEmail: string, customerName: Option<string>, reference: string)

  /** The INSERT INTO ticket.Tickets row for one seat. */
  function NewTicket(iss: Issue, ticketId: nat, seatId: SeatId, seat: Seat): Ticket
  {
    var price := UnitPrice(iss.basePrice, seat);
    Ticket(ticketId, iss.bookingId, iss.showtimeId, iss.branchId, seatId, SeatLabel(seat),
           seat.seatTypeId, price, price, iss.customerEmail, iss.customerName,
           Some(QrCodeData(iss.reference, seatId)), TicketStatus.Reserved, false, None, None)
  }

  predicate AllDistinct(xs: seq<TicketNumber>)
  {
    forall i, j :: 0 <= i < j < |xs| ==> xs[i] != xs[j]
  }

  predicate InCatalog(seats: map<SeatId, Seat>, rows: seq<SeatId>)
  {
    forall x :: x in rows ==> x in seats
  }

  /** The ticket table after inserting the tickets of the first `k` matched seats. */
  function IssueTickets(tickets: map<TicketNumber, Ticket>, iss: Issue, seats: map<SeatId, Seat>,
                        rows: seq<SeatId>, nums: seq<TicketNumber>, firstId: nat, k: nat): map<TicketNumber, Ticket>
    requires k <= |rows| <= |nums| && InCatalog(seats, rows)
  {
    if k == 0 then tickets
    else
      IssueTickets(tickets, iss, seats, rows, nums, firstId, k - 1)
        [nums[k - 1] := NewTicket(iss, firstId + k - 1, rows[k - 1], seats[rows[k - 1]])]
  }

  /** One more insert: the row of the `k`-th matched seat under the `k`-th number. */
  lemma IssueTicketsStep(tickets: map<TicketNumber, Ticket>, iss: Issue,
      seats: map<SeatId, Seat>, rows: seq<SeatId>, nums: seq<TicketNumber>, firstId: nat, k: nat)
    requires k < |rows| <= |nums| && InCatalog(seats, rows)
    ensures IssueTickets(tickets, iss, seats, rows, nums, firstId, k + 1)
         == IssueTickets(tickets, iss, seats, rows, nums, firstId, k)[nums[k] := NewTicket(iss, firstId + k, rows[k], seats[rows[k]])]
  {
  }

  /** After the first `k` inserts the table holds the old ticket numbers plus the
      first `k` generated ones, and nothing else. */
  lemma {:induction false} IssueTicketsKeys(tickets: map<TicketNumber, Ticket>, iss: Issue,
      seats: map<SeatId, Seat>, rows: seq<SeatId>, nums: seq<TicketNumber>, firstId: nat, k: nat)
    requires k <= |rows| <= |nums| && InCatalog(seats, rows)
    ensures forall n :: n in IssueTickets(tickets, iss, seats, rows, nums, firstId, k) <==>
      n in tickets || exists j :: 0 <= j < k && nums[j] == n
  {
    if k > 0 {
      IssueTicketsKeys(tickets, iss, seats, rows, nums, firstId, k - 1);
    }
  }

  /** The inserts leave every earlier ticket row as it was. */
  lemma {:induction false} IssueTicketsKeepsOld(tickets: map<TicketNumber, Ticket>, iss: Issue,
      seats: map<SeatId, Seat>, rows: seq<SeatId>, nums: seq<TicketNumber>, firstId: nat, k: nat)
    requires k <= |rows| <= |nums| && InCatalog(seats, rows)
    requires forall i :: 0 <= i < |nums| ==> nums[i] !in tickets
    ensures forall n :: n in tickets ==>
      (n in IssueTickets(tickets, iss, seats, rows, nums, firstId, k)
       && IssueTickets(tickets, iss, seats, rows, nums, firstId, k)[n] == tickets[n])
  {
    if k > 0 {
      IssueTicketsKeepsOld(tickets, iss, seats, rows, nums, firstId, k - 1);
    }
  }

  /** The `j`-th generated number holds the ticket of the `j`-th matched seat, with
      identity `firstId + j`. */
  lemma {:induction false} IssueTicketsNew(tickets: map<TicketNumber, Ticket>, iss: Issue,
      seats: map<SeatId, Seat>, rows: seq<SeatId>, nums: seq<TicketNumber>, firstId: nat, k: nat)
    requires k <= |rows| <= |nums| && InCatalog(seats, rows) && AllDistinct(nums)
    ensures forall j :: 0 <= j < k ==>
      (nums[j] in IssueTickets(tickets, iss, seats, rows, nums, firstId, k)
       && IssueTickets(tickets, iss, seats, rows, nums, firstId, k)[nums[j]] == NewTicket(iss, firstId + j, rows[j], seats[rows[j]]))
  {
    if k > 0 {
      IssueTicketsNew(tickets, iss, seats, rows, nums, firstId, k - 1);
      forall j | 0 <= j < k - 1
        ensures nums[j] != nums[k - 1]
      {
      }
    }
  }

  /** One insert under an unused number, with the counter's id, keeps ticket_id an
      identity column. */
  lemma InsertKeepsIds(tickets: map<TicketNumber, Ticket>, n: TicketNumber, t: Ticket, next: nat)
    requires TicketIdsFresh(tickets, next) && n !in tickets && t.ticketId == next
    ensures TicketIdsFresh(tickets[n := t], next + 1)
  {
    var r := tickets[n := t];
    forall m, m' | m in r && m' in r && m != m'
      ensures r[m].ticketId != r[m'].ticketId
    {
      if m != n && m' != n {
        assert r[m] == tickets[m] && r[m'] == tickets[m'];
      }
    }
  }

  /** The inserts keep ticket_id an identity column: each new row takes the next id. */
  lemma {:induction false} IssueTicketsKeepsIds(tickets: map<TicketNumber, Ticket>, iss: Issue,
      seats: map<SeatId, Seat>, rows: seq<SeatId>, nums: seq<TicketNumber>, firstId: nat, k: nat)
    requires k <= |rows| <= |nums| && InCatalog(seats, rows) && AllDistinct(nums)
    requires forall i :: 0 <= i < |nums| ==> nums[i] !in tickets
    requires TicketIdsFresh(tickets, firstId)
    ensures TicketIdsFresh(IssueTickets(tickets, iss, seats, rows, nums, firstId, k), firstId + k)
  {
    if k > 0 {
      var prev := IssueTickets(tickets, iss, seats, rows, nums, firstId, k - 1);
      IssueTicketsKeepsIds(tickets, iss, seats, rows, nums, firstId, k - 1);
      IssueTicketsKeys(tickets, iss, seats, rows, nums, firstId, k - 1);
      assert nums[k - 1] !in prev by {
        forall j | 0 <= j < k - 1
          ensures nums[j] != nums[k - 1]
        {
        }
      }
      InsertKeepsIds(prev, nums[k - 1], NewTicket(iss, firstId + k - 1, rows[k - 1], seats[rows[k - 1]]), firstId + k - 1);
    }
  }

  /** The `tickets` array of the answer for the first `k` matched seats. */
  function Summaries(iss: Issue, seats: map<SeatId, Seat>, rows: seq<SeatId>, nums: seq<TicketNumber>, k: nat): (r: seq<TicketSummary>)
    requires k <= |rows| <= |nums| && InCatalog(seats, rows)
    ensures |r| == k
  {
    seq(k, i requires 0 <= i < k =>
      TicketSummary(nums[i], SeatLabel(seats[rows[i]]), seats[rows[i]].seatTypeId, UnitPrice(iss.basePrice, seats[rows[i]])))
  }

  function SumUnitPrices(ts: seq<TicketSummary>): int
  {
    if ts == [] then 0 else SumUnitPrices(ts[..|ts| - 1]) + ts[|ts| - 1].unitPrice
  }

  /** The tickets' unit prices add up to the booking's total_amount. */
  lemma {:induction false} SummariesSumToTotal(iss: Issue, seats: map<SeatId, Seat>, rows: seq<SeatId>, nums: seq<TicketNumber>, k: nat)
    requires k <= |rows| <= |nums| && InCatalog(seats, rows)
    ensures SumUnitPrices(Summaries(iss, seats, rows, nums, k)) == TotalAmount(iss.basePrice, seats, rows[..k])
  {
    if k > 0 {
      SummariesSumToTotal(iss, seats, rows, nums, k - 1);
      assert Summaries(iss, seats, rows, nums, k)[..k - 1] == Summaries(iss, seats, rows, nums, k - 1);
      assert rows[..k][..k - 1] == rows[..k - 1];
    }
  }

  /** UPDATE movie.ShowtimeSeats SET status = 'RESERVED', booking_id = b, locked_until = until
      WHERE showtime_id = st AND seat_id IN (ids) */
  function HoldSeats(seats: map<SeatKey, ShowtimeSeat>, st: ShowtimeId, ids: seq<SeatId>, b: BookingId, until: int): (r: map<SeatKey, ShowtimeSeat>)
    ensures r.Keys == seats.Keys
    ensures SeatsOwned(seats) ==> SeatsOwned(r)
  {
    map k | k in seats ::
      if k.showtimeId == st && k.seatId in ids then ShowtimeSeat(SeatStatus.Reserved, Some(b), Some(until)) else seats[k]
  }

  /** What the id generators must provide: enough ticket numbers, all distinct and unused. */
  predicate TicketNumbersFresh(d: Db, req: BookingRequest, nums: seq<TicketNumber>)
  {
    && (req.seatIds.Some? ==> |req.seatIds.value| <= |nums|)
    && AllDistinct(nums)
    && (forall i :: 0 <= i < |nums| ==> nums[i] !in d.tickets)
  }

  function IssueOf(req: BookingRequest, bookingId: BookingId, reference: string, show: Showtime): Issue
    requires req.showtimeId.Some? && req.customerEmail.Some?
  {
    Issue(bookingId, req.showtimeId.value, show.branchId, show.basePrice,
          req.customerEmail.value, if Present(req.customerName) then req.customerName else None, reference)
  }

  /** createBooking as one atomic step; `now` is the database clock, `bookingId`,
      `reference` and `nums` the generated identifiers. */
  function CreateBookingSpec(d: Db, req: BookingRequest, bookingId: BookingId, reference: string,
                             nums: seq<TicketNumber>, now: int): Step<BookingCreated>
    requires TicketNumbersFresh(d, req, nums)
  {
    if !Present(req.showtimeId) || !Present(req.customerEmail) || req.seatIds.None? then Step(Err(MissingFields), d)
    else if req.showtimeId.value !in d.showtimes then Step(Err(ShowtimeNotFound), d)
    else if req.seatIds.value == [] then Step(Err(CreateFailed), d)
    else if SomeSeatTaken(d.showtimeSeats, req.showtimeId.value, req.seatIds.value) then Step(Err(SeatsUnavailable), d)
    else if bookingId in d.bookings then Step(Err(CreateFailed), d)
    else
      var st := req.showtimeId.value;
      var ids := req.seatIds.value;
      var show := d.showtimes[st];
      var rows := SeatRows(d.seats, ids);
      var total := BookingTotal(show.basePrice, d.seats, rows);
      var iss := IssueOf(req, bookingId, reference, show);
      var expires := now + HOLD_MINUTES * MINUTE_MS;
      var booking := Booking(st, show.branchId, req.customerEmail.value,
                             if Present(req.customerPhone) then req.customerPhone else None,
                             iss.customerName, total, total, |rows|, reference, Pending, expires);
      Step(Ok(BookingCreated(bookingId, reference, total, |rows|, Summaries(iss, d.seats, rows, nums, |rows|))),
           d.(bookings := d.bookings[bookingId := booking],
              tickets := IssueTickets(d.tickets, iss, d.seats, rows, nums, d.nextTicketId, |rows|),
              nextTicketId := d.nextTicketId + |rows|,
              showtimeSeats := HoldSeats(d.showtimeSeats, st, ids, bookingId, expires)))
  }

  /** The ticket loop of createBooking: one INSERT per matched seat, numbered by the
      identity counter; answers the summaries it collects. */
  method InsertTickets(db: Database, iss: Issue, rows: seq<SeatId>, nums: seq<TicketNumber>)
      returns (issued: seq<TicketSummary>)
    requires |rows| <= |nums| && InCatalog(db.seats, rows)
    modifies db
    ensures issued == Summaries(iss, old(db.seats), rows, nums, |rows|)
    ensures db.Snapshot() == old(db.Snapshot()).(
              tickets := IssueTickets(old(db.tickets), iss, old(db.seats), rows, nums, old(db.nextTicketId), |rows|),
              nextTicketId := old(db.nextTicketId) + |rows|)
  {
    ghost var d := db.Snapshot();
    var catalog := db.seats;
    issued := [];
    for i := 0 to |rows|
      invariant db.tickets == IssueTickets(d.tickets, iss, catalog, rows, nums, d.nextTicketId, i)
      invariant db.nextTicketId == d.nextTicketId + i
      invariant issued == Summaries(iss, catalog, rows, nums, i)
      invariant db.bookings == d.bookings
      invariant db.seats == catalog == d.seats && db.showtimeSeats == d.showtimeSeats && db.showtimes == d.showtimes
      invariant db.rooms == d.rooms && db.movies == d.movies && db.payments == d.payments
      invariant db.ticketHistory == d.ticketHistory && db.checkinHistory == d.checkinHistory
    {
      var seat := catalog[rows[i]];
      var t := NewTicket(iss, db.nextTicketId, rows[i], seat);
      IssueTicketsStep(d.tickets, iss, catalog, rows, nums, d.nextTicketId, i);
      assert t == NewTicket(iss, d.nextTicketId + i, rows[i], catalog[rows[i]]);
      db.tickets := db.tickets[nums[i] := t];
      db.nextTicketId := db.nextTicketId + 1;
      var summary := TicketSummary(nums[i], SeatLabel(seat), seat.seatTypeId, UnitPrice(iss.basePrice, seat));
      assert Summaries(iss, catalog, rows, nums, i + 1) == issued + [summary];
      issued := issued + [summary];
    }
  }

  method CreateBooking(db: Database, req: BookingRequest, bookingId: BookingId, reference: string,
                       nums: seq<TicketNumber>, now: int) returns (r: Result<BookingCreated>)
    requires db.Valid() && TicketNumbersFresh(db.Snapshot(), req, nums)
    modifies db
    ensures r == CreateBookingSpec(old(db.Snapshot()), req, bookingId, reference, nums, now).result
    ensures db.Snapshot() == CreateBookingSpec(old(db.Snapshot()), req, bookingId, reference, nums, now).db
    ensures db.Valid()
  {
    ghost var d := db.Snapshot();
    CreateBookingKeepsConsistency(d, req, bookingId, reference, nums, now);
    if !Present(req.showtimeId) || !Present(req.customerEmail) || req.seatIds.None? {
      return Err(MissingFields);
    }
    var st := req.showtimeId.value;
    var ids := req.seatIds.value;
    if st !in db.showtimes {
      return Err(ShowtimeNotFound);
    }
    var show := db.showtimes[st];
    if ids == [] {
      return Err(CreateFailed);
    }
    if SomeSeatTaken(db.showtimeSeats, st, ids) {
      return Err(SeatsUnavailable);
    }
    var rows := SeatRows(db.seats, ids);
    var total := BookingTotal(show.basePrice, db.seats, rows);
    if bookingId in db.bookings {
      return Err(CreateFailed);
    }
    var iss := IssueOf(req, bookingId, reference, show);
    var expires := now + HOLD_MINUTES * MINUTE_MS;
    var booking := Booking(st, show.branchId, req.customerEmail.value,
                           if Present(req.customerPhone) then req.customerPhone else None,
                           iss.customerName, total, total, |rows|, reference, Pending, expires);
    db.bookings := db.bookings[bookingId := booking];
    var issued := InsertTickets(db, iss, rows, nums);
    db.showtimeSeats := HoldSeats(db.showtimeSeats, st, ids, bookingId, expires);
    r := Ok(BookingCreated(bookingId, reference, total, |rows|, issued));
    ghost var spec := CreateBookingSpec(d, req, bookingId, reference, nums, now);
    assert r == spec.result;
    assert db.bookings == spec.db.bookings && db.tickets == spec.db.tickets;
    assert db.showtimeSeats == spec.db.showtimeSeats && db.nextTicketId == spec.db.nextTicketId;
  }

  /** A refused request writes nothing. */
  lemma CreateBookingErrorWritesNothing(d: Db, req: BookingRequest, bookingId: BookingId, reference: string,
                                        nums: seq<TicketNumber>, now: int)
    requires TicketNumbersFresh(d, req, nums)
    ensures var r := CreateBookingSpec(d, req, bookingId, reference, nums, now);
      r.result.Err? ==> r.db == d
  {
  }

  /** The request checks and their answers: missing fields 400, unknown showtime 404. */
  lemma CreateBookingValidation(d: Db, req: BookingRequest, bookingId: BookingId, reference: string,
                                nums: seq<TicketNumber>, now: int)
    requires TicketNumbersFresh(d, req, nums)
    ensures var r := CreateBookingSpec(d, req, bookingId, reference, nums, now);
      && (!Present(req.showtimeId) || !Present(req.customerEmail) || req.seatIds.None? ==> r.result == Err(MissingFields))
      && (Present(req.showtimeId) && Present(req.customerEmail) && req.seatIds.Some? && req.showtimeId.value !in d.showtimes
          ==> r.result == Err(ShowtimeNotFound))
  {
  }

  /** All-or-nothing hold: a success means every requested seat row of the showtime
      was AVAILABLE; any taken seat refuses the whole request with 400. */
  lemma CreateBookingAllOrNothing(d: Db, req: BookingRequest, bookingId: BookingId, reference: string,
                                  nums: seq<TicketNumber>, now: int)
    requires TicketNumbersFresh(d, req, nums)
    ensures var r := CreateBookingSpec(d, req, bookingId, reference, nums, now);
      && (r.result.Ok? ==>
            forall k :: k in d.showtimeSeats && k.showtimeId == req.showtimeId.value && k.seatId in req.seatIds.value
              ==> d.showtimeSeats[k].status == Available)
      && (Present(req.showtimeId) && Present(req.customerEmail) && req.seatIds.Some?
          && req.showtimeId.value in d.showtimes && req.seatIds.value != []
          && SomeSeatTaken(d.showtimeSeats, req.showtimeId.value, req.seatIds.value)
          ==> r.result == Err(SeatsUnavailable) && r.db == d)
  {
    var r := CreateBookingSpec(d, req, bookingId, reference, nums, now);
    if r.result.Ok? {
      forall k | k in d.showtimeSeats && k.showtimeId == req.showtimeId.value && k.seatId in req.seatIds.value
        ensures d.showtimeSeats[k].status == Available
      {
        var i :| 0 <= i < |req.seatIds.value| && req.seatIds.value[i] == k.seatId;
        assert SeatKey(req.showtimeId.value, req.seatIds.value[i]) == k;
      }
    }
  }

  /** A new booking belongs to the requested showtime and its branch, carries the
      generated reference and the customer's details (an empty phone or name is
      stored as NULL), is PENDING, expires 15 minutes after `now`, and its total,
      final amount and quantity agree with the tickets it lists; when no requested
      seat is in the catalogue the SUM is NULL and so are both amounts. No other
      booking changes. */
  lemma CreateBookingPricing(d: Db, req: BookingRequest, bookingId: BookingId, reference: string,
                             nums: seq<TicketNumber>, now: int)
    requires TicketNumbersFresh(d, req, nums)
    ensures var r := CreateBookingSpec(d, req, bookingId, reference, nums, now);
      r.result.Ok? ==>
        var created := r.result.value;
        var b := r.db.bookings[bookingId];
        && bookingId !in d.bookings && created.bookingId == bookingId
        && b.showtimeId == req.showtimeId.value && b.branchId == d.showtimes[req.showtimeId.value].branchId
        && b.reference == reference == created.reference && b.customerEmail == req.customerEmail.value
        && b.customerPhone == (if Present(req.customerPhone) then req.customerPhone else None)
        && b.customerName == (if Present(req.customerName) then req.customerName else None)
        && b.status == Pending && b.expiresAt == now + 15 * 60000
        && b.totalAmount == created.totalAmount
        && (created.tickets != [] ==> b.totalAmount == Some(SumUnitPrices(created.tickets)))
        && (created.tickets == [] <==> b.totalAmount.None?)
        && b.finalAmount == b.totalAmount
        && b.ticketQuantity == created.ticketQuantity == |created.tickets|
        && created.ticketQuantity == |SeatRows(d.seats, req.seatIds.value)|
        && r.db.bookings.Keys == d.bookings.Keys + {bookingId}
        && (forall o :: o in d.bookings ==> r.db.bookings[o] == d.bookings[o])
  {
    var r := CreateBookingSpec(d, req, bookingId, reference, nums, now);
    if r.result.Ok? {
      var show := d.showtimes[req.showtimeId.value];
      var rows := SeatRows(d.seats, req.seatIds.value);
      var iss := IssueOf(req, bookingId, reference, show);
      SummariesSumToTotal(iss, d.seats, rows, nums, |rows|);
      assert rows[..|rows|] == rows;
    }
  }

  /** Exactly one RESERVED ticket per matched seat, of the new booking, the requested
      showtime and its branch and the booking's customer, priced at base * multiplier,
      with its QR payload and seat label; earlier tickets are untouched. */
  lemma CreateBookingIssuesTickets(d: Db, req: BookingRequest, bookingId: BookingId, reference: string,
                                   nums: seq<TicketNumber>, now: int)
    requires TicketNumbersFresh(d, req, nums)
    ensures var r := CreateBookingSpec(d, req, bookingId, reference, nums, now);
      r.result.Ok? ==>
        var rows := SeatRows(d.seats, req.seatIds.value);
        var base := d.showtimes[req.showtimeId.value].basePrice;
        && (forall n :: n in r.db.tickets <==> n in d.tickets || exists j :: 0 <= j < |rows| && nums[j] == n)
        && (forall n :: n in d.tickets ==> r.db.tickets[n] == d.tickets[n])
        && (forall j :: 0 <= j < |rows| ==>
              var t := r.db.tickets[nums[j]];
              && t.bookingId == bookingId && t.seatId == rows[j]
              && t.showtimeId == req.showtimeId.value && t.branchId == d.showtimes[req.showtimeId.value].branchId
              && t.customerEmail == req.customerEmail.value
              && t.customerName == (if Present(req.customerName) then req.customerName else None)
              && t.status == TicketStatus.Reserved && !t.checkedIn
              && t.unitPrice == t.finalPrice == base * d.seats[rows[j]].priceMultiplier
              && t.qrCodeData == Some("QR-" + reference + "-" + NatToDecimal(rows[j]))
              && t.seatNumber == d.seats[rows[j]].row + NatToDecimal(d.seats[rows[j]].number))
  {
    var r := CreateBookingSpec(d, req, bookingId, reference, nums, now);
    if r.result.Ok? {
      var show := d.showtimes[req.showtimeId.value];
      var rows := SeatRows(d.seats, req.seatIds.value);
      var iss := IssueOf(req, bookingId, reference, show);
      IssueTicketsKeys(d.tickets, iss, d.seats, rows, nums, d.nextTicketId, |rows|);
      IssueTicketsKeepsOld(d.tickets, iss, d.seats, rows, nums, d.nextTicketId, |rows|);
      IssueTicketsNew(d.tickets, iss, d.seats, rows, nums, d.nextTicketId, |rows|);
    }
  }

  /** Every requested seat row of the showtime becomes RESERVED for the new booking,
      locked for 15 minutes; no other seat row and no showtime counter changes. */
  lemma CreateBookingHoldsSeats(d: Db, req: BookingRequest, bookingId: BookingId, reference: string,
                                nums: seq<TicketNumber>, now: int)
    requires TicketNumbersFresh(d, req, nums)
    ensures var r := CreateBookingSpec(d, req, bookingId, reference, nums, now);
      r.result.Ok? ==>
        var st := req.showtimeId.value;
        && r.db.showtimeSeats.Keys == d.showtimeSeats.Keys
        && (forall k :: k in d.showtimeSeats && k.showtimeId == st && k.seatId in req.seatIds.value ==>
              r.db.showtimeSeats[k] == ShowtimeSeat(SeatStatus.Reserved, Some(bookingId), Some(now + 15 * 60000)))
        && (forall k :: k in d.showtimeSeats && (k.showtimeId != st || k.seatId !in req.seatIds.value) ==>
              r.db.showtimeSeats[k] == d.showtimeSeats[k])
        && r.db.showtimes == d.showtimes && r.db.payments == d.payments
  {
  }

  lemma CreateBookingKeepsConsistency(d: Db, req: BookingRequest, bookingId: BookingId, reference: string,
                                      nums: seq<TicketNumber>, now: int)
    requires Consistent(d) && TicketNumbersFresh(d, req, nums)
    ensures Consistent(CreateBookingSpec(d, req, bookingId, reference, nums, now).db)
  {
    var r := CreateBookingSpec(d, req, bookingId, reference, nums, now);
    if r.result.Ok? {
      var show := d.showtimes[req.showtimeId.value];
      var rows := SeatRows(d.seats, req.seatIds.value);
      var iss := IssueOf(req, bookingId, reference, show);
      IssueTicketsKeepsIds(d.tickets, iss, d.seats, rows, nums, d.nextTicketId, |rows|);
    }
  }

  /** cancelBooking as one atomic step. */
  function CancelBookingSpec(d: Db, b: BookingId): Step<()>
  {
    if b !in d.bookings then Step(Err(BookingNotFound), d)
    else if d.bookings[b].status == BookingStatus.Cancelled then Step(Err(AlreadyCancelled), d)
    else
      Step(Ok(()),
           d.(bookings := d.bookings[b := d.bookings[b].(status := BookingStatus.Cancelled)],
              tickets := SetStatusOfBooking(d.tickets, b, TicketStatus.Cancelled),
              showtimeSeats := ReleaseSeatsOf(d.showtimeSeats, b)))
  }

  method CancelBooking(db: Database, b: BookingId) returns (r: Result<()>)
    requires db.Valid()
    modifies db
    ensures r == CancelBookingSpec(old(db.Snapshot()), b).result
    ensures db.Snapshot() == CancelBookingSpec(old(db.Snapshot()), b).db
    ensures db.Valid()
  {
    if b !in db.bookings {
      return Err(BookingNotFound);
    }
    if db.bookings[b].status == BookingStatus.Cancelled {
      return Err(AlreadyCancelled);
    }
    db.bookings := db.bookings[b := db.bookings[b].(status := BookingStatus.Cancelled)];
    db.tickets := SetStatusOfBooking(db.tickets, b, TicketStatus.Cancelled);
    db.showtimeSeats := ReleaseSeatsOf(db.showtimeSeats, b);
    r := Ok(());
  }

  /** Unknown booking 404; already cancelled 400; otherwise the booking and every
      ticket of it (USED ones included) become CANCELLED, every seat it holds is
      released; no other booking, ticket or seat changes, and neither do the showtime
      counters, the payments or any other table. */
  lemma CancelBookingEffects(d: Db, b: BookingId)
    ensures var r := CancelBookingSpec(d, b);
      && (b !in d.bookings ==> r.result == Err(BookingNotFound) && r.db == d)
      && (b in d.bookings && d.bookings[b].status == BookingStatus.Cancelled ==> r.result == Err(AlreadyCancelled) && r.db == d)
      && (r.result.Ok? ==>
            && r.db.bookings.Keys == d.bookings.Keys
            && r.db.bookings[b] == d.bookings[b].(status := BookingStatus.Cancelled)
            && (forall o :: o in d.bookings && o != b ==> r.db.bookings[o] == d.bookings[o])
            && r.db.tickets.Keys == d.tickets.Keys && r.db.showtimeSeats.Keys == d.showtimeSeats.Keys
            && (forall n :: n in d.tickets && d.tickets[n].bookingId == b ==> r.db.tickets[n] == d.tickets[n].(status := TicketStatus.Cancelled))
            && (forall n :: n in d.tickets && d.tickets[n].bookingId != b ==> r.db.tickets[n] == d.tickets[n])
            && (forall k :: k in d.showtimeSeats && d.showtimeSeats[k].bookingId == Some(b) ==> r.db.showtimeSeats[k] == FreeSeat)
            && (forall k :: k in d.showtimeSeats && d.showtimeSeats[k].bookingId != Some(b) ==> r.db.showtimeSeats[k] == d.showtimeSeats[k])
            && r.db == d.(bookings := r.db.bookings, tickets := r.db.tickets, showtimeSeats := r.db.showtimeSeats))
  {
  }

  /** A second cancel of the same booking always fails with "already cancelled". */
  lemma CancelTwiceFails(d: Db, b: BookingId)
    requires CancelBookingSpec(d, b).result.Ok?
    ensures CancelBookingSpec(CancelBookingSpec(d, b).db, b).result == Err(AlreadyCancelled)
  {
  }

  /** Cancelling voids a checked-in ticket too: a USED ticket of the booking ends CANCELLED. */
  lemma CancelBookingVoidsUsedTickets(d: Db, b: BookingId, n: TicketNumber)
    requires b in d.bookings && d.bookings[b].status != BookingStatus.Cancelled
    requires n in d.tickets && d.tickets[n].bookingId == b && d.tickets[n].status == Used
    ensures CancelBookingSpec(d, b).db.tickets[n].status == TicketStatus.Cancelled
  {
  }

  lemma CancelBookingKeepsConsistency(d: Db, b: BookingId)
    requires Consistent(d)
    ensures Consistent(CancelBookingSpec(d, b).db)
  {
  }
}
