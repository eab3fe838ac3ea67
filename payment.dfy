/** confirmPayment: record the payment and turn a PENDING booking, its tickets
    and its held seats into a sale, moving the showtime's seat counters. */
module PaymentController {
  import opened Common
  import opened Store

  /** The request body; `paidAmount` is None when absent. */
  datatype PaymentRequest = PaymentRequest(bookingId: Option<string>, paymentMethod: Option<string>, paidAmount: Option<int>)

  /** The body of a successful answer: the payment id and the booking's ticket rows. */
  datatype PaymentConfirmed = PaymentConfirmed(paymentId: string, tickets: set<TicketNumber>)

  const MissingFields := Failure(400, "Booking ID, payment method, and paid amount are required")
  const NotPayable := Failure(404, "Booking not found or already processed")

  /** The lookup query: the booking exists, is PENDING, and joins to its showtime. */
  predicate Payable(d: Db, b: BookingId)
  {
    b in d.bookings && d.bookings[b].status == Pending && d.bookings[b].showtimeId in d.showtimes
  }

  /** The showtime counters after `n` more seats are sold. */
  function SellSeats(s: Showtime, n: nat): (r: Showtime)
    ensures r.bookedSeats + r.availableSeats == s.bookedSeats + s.availableSeats
    ensures r.bookedSeats == s.bookedSeats + n
  {
    s.(bookedSeats := s.bookedSeats + n, availableSeats := s.availableSeats - n)
  }

  /** confirmPayment as one step; `paymentId` is the generated id and `now` the database clock. */
  function ConfirmPaymentSpec(d: Db, req: PaymentRequest, paymentId: string, now: int): Step<PaymentConfirmed>
  {
    if !Present(req.bookingId) || !Present(req.paymentMethod) || !PresentNumber(req.paidAmount) then Step(Err(MissingFields), d)
    else if !Payable(d, req.bookingId.value) then Step(Err(NotPayable), d)
    else
      var b := req.bookingId.value;
      var booking := d.bookings[b];
      var n := |TicketsOf(d.tickets, b)|;
      var pay := Payment(paymentId, b, booking.totalAmount, req.paidAmount.value, req.paymentMethod.value,
                         "SUCCESS", req.paidAmount.value, now);
      var tickets := SetStatusOfBooking(d.tickets, b, TicketStatus.Confirmed);
      Step(Ok(PaymentConfirmed(paymentId, TicketsOf(tickets, b))),
           d.(payments := d.payments + [pay],
              bookings := d.bookings[b := booking.(status := BookingStatus.Confirmed)],
              tickets := tickets,
              showtimeSeats := BookSeatsOf(d.showtimeSeats, b),
              showtimes := d.showtimes[booking.showtimeId := SellSeats(d.showtimes[booking.showtimeId], n)]))
  }

  method ConfirmPayment(db: Database, req: PaymentRequest, paymentId: string, now: int) returns (r: Result<PaymentConfirmed>)
    requires db.Valid()
    modifies db
    ensures r == ConfirmPaymentSpec(old(db.Snapshot()), req, paymentId, now).result
    ensures db.Snapshot() == ConfirmPaymentSpec(old(db.Snapshot()), req, paymentId, now).db
    ensures db.Valid()
  {
    if !Present(req.bookingId) || !Present(req.paymentMethod) || !PresentNumber(req.paidAmount) {
      return Err(MissingFields);
    }
    var b := req.bookingId.value;
    if !(b in db.bookings && db.bookings[b].status == Pending && db.bookings[b].showtimeId in db.showtimes) {
      return Err(NotPayable);
    }
    var booking := db.bookings[b];
    db.payments := db.payments + [Payment(paymentId, b, booking.totalAmount, req.paidAmount.value,
                                          req.paymentMethod.value, "SUCCESS", req.paidAmount.value, now)];
    db.bookings := db.bookings[b := booking.(status := BookingStatus.Confirmed)];
    db.tickets := SetStatusOfBooking(db.tickets, b, TicketStatus.Confirmed);
    db.showtimeSeats := BookSeatsOf(db.showtimeSeats, b);
    var n := |TicketsOf(db.tickets, b)|;
    SetStatusKeepsOwners(old(db.tickets), b, TicketStatus.Confirmed, b);
    db.showtimes := db.showtimes[booking.showtimeId := SellSeats(db.showtimes[booking.showtimeId], n)];
    r := Ok(PaymentConfirmed(paymentId, TicketsOf(db.tickets, b)));
  }

  /** Missing fields 400; a booking that is absent, not PENDING or without its
      showtime 404; a refusal writes nothing. */
  lemma ConfirmPaymentErrors(d: Db, req: PaymentRequest, paymentId: string, now: int)
    ensures var r := ConfirmPaymentSpec(d, req, paymentId, now);
      && (!Present(req.bookingId) || !Present(req.paymentMethod) || !PresentNumber(req.paidAmount) ==> r.result == Err(MissingFields))
      && (Present(req.bookingId) && Present(req.paymentMethod) && PresentNumber(req.paidAmount) && !Payable(d, req.bookingId.value)
          ==> r.result == Err(NotPayable))
      && (r.result.Err? ==> r.db == d)
  {
  }

  /** A successful payment records amount = the booking total and final amount =
      the paid amount, confirms the booking and every ticket of it (cancelled ones
      included), books every seat it holds, and sells as many seats as the booking
      has ticket rows; the showtime's total of booked and available seats is kept.
      Nothing else changes: no other booking, ticket, seat or showtime, no field of
      the booking but its status, and no other table. */
  lemma ConfirmPaymentEffects(d: Db, req: PaymentRequest, paymentId: string, now: int)
    ensures var r := ConfirmPaymentSpec(d, req, paymentId, now);
      r.result.Ok? ==>
        var b := req.bookingId.value;
        var st := d.bookings[b].showtimeId;
        var n := |TicketsOf(d.tickets, b)|;
        && Payable(d, b)
        && r.db.payments == d.payments + [Payment(paymentId, b, d.bookings[b].totalAmount, req.paidAmount.value,
                                                  req.paymentMethod.value, "SUCCESS", req.paidAmount.value, now)]
        && r.db.bookings.Keys == d.bookings.Keys
        && r.db.bookings[b] == d.bookings[b].(status := BookingStatus.Confirmed)
        && (forall o :: o in d.bookings && o != b ==> r.db.bookings[o] == d.bookings[o])
        && r.db.tickets.Keys == d.tickets.Keys
        && (forall t :: t in d.tickets && d.tickets[t].bookingId == b ==> r.db.tickets[t] == d.tickets[t].(status := TicketStatus.Confirmed))
        && (forall t :: t in d.tickets && d.tickets[t].bookingId != b ==> r.db.tickets[t] == d.tickets[t])
        && (forall k :: k in d.showtimeSeats && d.showtimeSeats[k].bookingId == Some(b) ==>
              r.db.showtimeSeats[k] == ShowtimeSeat(Booked, Some(b), None))
        && (forall k :: k in d.showtimeSeats && d.showtimeSeats[k].bookingId != Some(b) ==>
              r.db.showtimeSeats[k] == d.showtimeSeats[k])
        && r.db.showtimes[st].bookedSeats == d.showtimes[st].bookedSeats + n
        && r.db.showtimes[st].availableSeats == d.showtimes[st].availableSeats - n
        && r.db.showtimes[st] == d.showtimes[st].(bookedSeats := r.db.showtimes[st].bookedSeats,
                                                  availableSeats := r.db.showtimes[st].availableSeats)
        && r.db.showtimes.Keys == d.showtimes.Keys
        && (forall s :: s in d.showtimes && s != st ==> r.db.showtimes[s] == d.showtimes[s])
        && r.result.value.tickets == TicketsOf(d.tickets, b)
        && r.db == d.(payments := r.db.payments, bookings := r.db.bookings, tickets := r.db.tickets,
                      showtimeSeats := r.db.showtimeSeats, showtimes := r.db.showtimes)
  {
    var r := ConfirmPaymentSpec(d, req, paymentId, now);
    if r.result.Ok? {
      var b := req.bookingId.value;
      assert TicketsOf(r.db.tickets, b) == TicketsOf(d.tickets, b);
    }
  }

  /** A booking is paid at most once: a second confirmation is refused with 404. */
  lemma ConfirmPaymentTwiceFails(d: Db, req: PaymentRequest, paymentId: string, paymentId': string, now: int, now': int)
    requires ConfirmPaymentSpec(d, req, paymentId, now).result.Ok?
    ensures ConfirmPaymentSpec(ConfirmPaymentSpec(d, req, paymentId, now).db, req, paymentId', now').result == Err(NotPayable)
  {
  }

  /** The hold deadline is never consulted: changing a booking's expires_at changes
      nothing about the answer or the tables written. */
  lemma ConfirmPaymentIgnoresExpiry(d: Db, req: PaymentRequest, paymentId: string, now: int, e: int)
    requires Present(req.bookingId) && req.bookingId.value in d.bookings
    ensures var b := req.bookingId.value;
      var d' := d.(bookings := d.bookings[b := d.bookings[b].(expiresAt := e)]);
      && ConfirmPaymentSpec(d', req, paymentId, now).result == ConfirmPaymentSpec(d, req, paymentId, now).result
      && ConfirmPaymentSpec(d', req, paymentId, now).db.bookings[b].status == ConfirmPaymentSpec(d, req, paymentId, now).db.bookings[b].status
  {
    var b := req.bookingId.value;
    var d' := d.(bookings := d.bookings[b := d.bookings[b].(expiresAt := e)]);
    assert TicketsOf(d'.tickets, b) == TicketsOf(d.tickets, b);
  }

  lemma ConfirmPaymentKeepsConsistency(d: Db, req: PaymentRequest, paymentId: string, now: int)
    requires Consistent(d)
    ensures Consistent(ConfirmPaymentSpec(d, req, paymentId, now).db)
  {
  }
}
