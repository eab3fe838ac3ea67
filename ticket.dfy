/** The staff ticket transitions (confirmTicket, cancelTicket), each one
    transaction with a TicketHistory row, and getTicketQRCode's lazy payload. */
module TicketController {
  import opened Common
  import opened Store
  import PaymentController

  const NumberRequired := Failure(400, "Ticket number is required")
  const TicketNotFound := Failure(404, "Ticket not found")

  function CannotConfirm(s: TicketStatus): Failure
  {
    Failure(400, "Ticket cannot be confirmed. Current status: " + TicketStatusName(s))
  }

  function CannotCancel(s: TicketStatus): Failure
  {
    Failure(400, "Ticket cannot be cancelled. Current status: " + TicketStatusName(s))
  }

  /** confirmTicket: RESERVED -> CONFIRMED for one ticket, while every seat of its
      booking becomes BOOKED; `actionBy` is the caller's username. */
  function ConfirmTicketSpec(d: Db, number: Option<string>, actionBy: string): Step<()>
  {
    if !Present(number) then Step(Err(NumberRequired), d)
    else if number.value !in d.tickets then Step(Err(TicketNotFound), d)
    else
      var n := number.value;
      var t := d.tickets[n];
      if t.status != TicketStatus.Reserved then Step(Err(CannotConfirm(t.status)), d)
      else
        Step(Ok(()),
             d.(tickets := d.tickets[n := t.(status := TicketStatus.Confirmed)],
                showtimeSeats := BookSeatsOf(d.showtimeSeats, t.bookingId),
                ticketHistory := d.ticketHistory + [HistoryRow(t.ticketId, n, TicketStatus.Reserved, TicketStatus.Confirmed, ManualConfirm, actionBy)]))
  }

  method ConfirmTicket(db: Database, number: Option<string>, actionBy: string) returns (r: Result<()>)
    requires db.Valid()
    modifies db
    ensures r == ConfirmTicketSpec(old(db.Snapshot()), number, actionBy).result
    ensures db.Snapshot() == ConfirmTicketSpec(old(db.Snapshot()), number, actionBy).db
    ensures db.Valid()
  {
    if !Present(number) {
      return Err(NumberRequired);
    }
    var n := number.value;
    if n !in db.tickets {
      return Err(TicketNotFound);
    }
    var t := db.tickets[n];
    if t.status != TicketStatus.Reserved {
      return Err(CannotConfirm(t.status));
    }
    db.tickets := db.tickets[n := t.(status := TicketStatus.Confirmed)];
    db.showtimeSeats := BookSeatsOf(db.showtimeSeats, t.bookingId);
    db.ticketHistory := db.ticketHistory + [HistoryRow(t.ticketId, n, TicketStatus.Reserved, TicketStatus.Confirmed, ManualConfirm, actionBy)];
    r := Ok(());
  }

  /** cancelTicket: RESERVED or CONFIRMED -> CANCELLED for one ticket; the seat row
      of its (showtime, seat) is released whoever holds it. */
  function CancelTicketSpec(d: Db, number: Option<string>, actionBy: string): Step<()>
  {
    if !Present(number) then Step(Err(NumberRequired), d)
    else if number.value !in d.tickets then Step(Err(TicketNotFound), d)
    else
      var n := number.value;
      var t := d.tickets[n];
      if t.status != TicketStatus.Reserved && t.status != TicketStatus.Confirmed then Step(Err(CannotCancel(t.status)), d)
      else
        var k := SeatKey(t.showtimeId, t.seatId);
        Step(Ok(()),
             d.(tickets := d.tickets[n := t.(status := TicketStatus.Cancelled)],
                showtimeSeats := if k in d.showtimeSeats then d.showtimeSeats[k := FreeSeat] else d.showtimeSeats,
                ticketHistory := d.ticketHistory + [HistoryRow(t.ticketId, n, t.status, TicketStatus.Cancelled, ManualCancel, actionBy)]))
  }

  method CancelTicket(db: Database, number: Option<string>, actionBy: string) returns (r: Result<()>)
    requires db.Valid()
    modifies db
    ensures r == CancelTicketSpec(old(db.Snapshot()), number, actionBy).result
    ensures db.Snapshot() == CancelTicketSpec(old(db.Snapshot()), number, actionBy).db
    ensures db.Valid()
  {
    if !Present(number) {
      return Err(NumberRequired);
    }
    var n := number.value;
    if n !in db.tickets {
      return Err(TicketNotFound);
    }
    var t := db.tickets[n];
    if t.status != TicketStatus.Reserved && t.status != TicketStatus.Confirmed {
      return Err(CannotCancel(t.status));
    }
    db.tickets := db.tickets[n := t.(status := TicketStatus.Cancelled)];
    var k := SeatKey(t.showtimeId, t.seatId);
    if k in db.showtimeSeats {
      db.showtimeSeats := db.showtimeSeats[k := FreeSeat];
    }
    db.ticketHistory := db.ticketHistory + [HistoryRow(t.ticketId, n, t.status, TicketStatus.Cancelled, ManualCancel, actionBy)];
    r := Ok(());
  }

  /** The data of getTicketQRCode's answer. */
  datatype QrCode = QrCode(qrCodeData: string, ticketNumber: TicketNumber)

  /** `CINEMA:TICKET:${ticket_number}:${Date.now()}` */
  function GeneratedQr(n: TicketNumber, now: nat): string
  {
    "CINEMA:TICKET:" + n + ":" + NatToDecimal(now)
  }

  /** The row whose ticket_id is `id`, if any; ids are unique in a consistent store. */
  function TicketWithId(tickets: map<TicketNumber, Ticket>, id: nat): (r: Option<TicketNumber>)
    requires forall n, m :: n in tickets && m in tickets && n != m ==> tickets[n].ticketId != tickets[m].ticketId
    ensures r.Some? <==> exists n :: n in tickets && tickets[n].ticketId == id
    ensures r.Some? ==> r.value in tickets && tickets[r.value].ticketId == id
  {
    if exists n :: n in tickets && tickets[n].ticketId == id then
      var n :| n in tickets && tickets[n].ticketId == id;
      Some(n)
    else None
  }

  /** getTicketQRCode: answer the stored payload, or store and answer a fresh one
      when the stored one is absent or empty; `now` is the server clock. */
  function GetTicketQRCodeSpec(d: Db, id: nat, now: nat): Step<QrCode>
    requires Consistent(d)
  {
    match TicketWithId(d.tickets, id)
    case None => Step(Err(TicketNotFound), d)
    case Some(n) =>
      var t := d.tickets[n];
      if !Present(t.qrCodeData) then
        var qr := GeneratedQr(n, now);
        Step(Ok(QrCode(qr, n)), d.(tickets := d.tickets[n := t.(qrCodeData := Some(qr))]))
      else Step(Ok(QrCode(t.qrCodeData.value, n)), d)
  }

  method GetTicketQRCode(db: Database, id: nat, now: nat) returns (r: Result<QrCode>)
    requires db.Valid()
    modifies db
    ensures r == GetTicketQRCodeSpec(old(db.Snapshot()), id, now).result
    ensures db.Snapshot() == GetTicketQRCodeSpec(old(db.Snapshot()), id, now).db
    ensures db.Valid()
  {
    var found := TicketWithId(db.tickets, id);
    if found.None? {
      return Err(TicketNotFound);
    }
    var n := found.value;
    var t := db.tickets[n];
    if !Present(t.qrCodeData) {
      var qr := GeneratedQr(n, now);
      db.tickets := db.tickets[n := t.(qrCodeData := Some(qr))];
      r := Ok(QrCode(qr, n));
    } else {
      r := Ok(QrCode(t.qrCodeData.value, n));
    }
  }

  /** Missing number 400, unknown number 404, a ticket that is not RESERVED 400
      naming its status; otherwise the ticket alone becomes CONFIRMED, every seat of
      its booking becomes BOOKED and keeps its owner (its sibling tickets and the
      seats of other bookings stay as they were), one MANUAL_CONFIRM history row is
      written, and no other table changes: the showtime counters do not move. */
  lemma ConfirmTicketEffects(d: Db, number: Option<string>, actionBy: string)
    ensures var r := ConfirmTicketSpec(d, number, actionBy);
      && (!Present(number) ==> r.result == Err(NumberRequired))
      && (Present(number) && number.value !in d.tickets ==> r.result == Err(TicketNotFound))
      && (Present(number) && number.value in d.tickets && d.tickets[number.value].status != TicketStatus.Reserved
          ==> r.result == Err(CannotConfirm(d.tickets[number.value].status)))
      && (r.result.Err? ==> r.db == d)
      && (r.result.Ok? ==>
            var n := number.value;
            var t := d.tickets[n];
            && t.status == TicketStatus.Reserved
            && r.db.tickets[n] == t.(status := TicketStatus.Confirmed)
            && (forall m :: m in d.tickets && m != n ==> r.db.tickets[m] == d.tickets[m])
            && r.db.tickets.Keys == d.tickets.Keys && r.db.showtimeSeats.Keys == d.showtimeSeats.Keys
            && (forall k :: k in d.showtimeSeats && d.showtimeSeats[k].bookingId == Some(t.bookingId) ==>
                  r.db.showtimeSeats[k] == ShowtimeSeat(Booked, Some(t.bookingId), None))
            && (forall k :: k in d.showtimeSeats && d.showtimeSeats[k].bookingId != Some(t.bookingId) ==>
                  r.db.showtimeSeats[k] == d.showtimeSeats[k])
            && r.db.ticketHistory == d.ticketHistory + [HistoryRow(t.ticketId, n, TicketStatus.Reserved, TicketStatus.Confirmed, ManualConfirm, actionBy)]
            && r.db == d.(tickets := r.db.tickets, showtimeSeats := r.db.showtimeSeats, ticketHistory := r.db.ticketHistory))
  {
  }

  /** A ticket is confirmed at most once: the second attempt is refused, naming CONFIRMED. */
  lemma ConfirmTicketTwiceFails(d: Db, number: Option<string>, actionBy: string, actionBy': string)
    requires ConfirmTicketSpec(d, number, actionBy).result.Ok?
    ensures ConfirmTicketSpec(ConfirmTicketSpec(d, number, actionBy).db, number, actionBy').result
         == Err(Failure(400, "Ticket cannot be confirmed. Current status: CONFIRMED"))
  {
  }

  /** Missing number 400, unknown number 404, a USED or CANCELLED ticket 400 naming
      its status; otherwise only the ticket's status becomes CANCELLED, its seat row
      of that showtime is released, one MANUAL_CANCEL history row records the old
      status, and no other row of any table changes. */
  lemma CancelTicketEffects(d: Db, number: Option<string>, actionBy: string)
    ensures var r := CancelTicketSpec(d, number, actionBy);
      && (!Present(number) ==> r.result == Err(NumberRequired))
      && (Present(number) && number.value !in d.tickets ==> r.result == Err(TicketNotFound))
      && (Present(number) && number.value in d.tickets
          && d.tickets[number.value].status in {Used, TicketStatus.Cancelled}
          ==> r.result == Err(CannotCancel(d.tickets[number.value].status)))
      && (r.result.Err? ==> r.db == d)
      && (r.result.Ok? ==>
            var n := number.value;
            var t := d.tickets[n];
            var k := SeatKey(t.showtimeId, t.seatId);
            && t.status in {TicketStatus.Reserved, TicketStatus.Confirmed}
            && r.db.tickets[n] == t.(status := TicketStatus.Cancelled)
            && r.db.tickets.Keys == d.tickets.Keys
            && (forall m :: m in d.tickets && m != n ==> r.db.tickets[m] == d.tickets[m])
            && r.db.showtimeSeats.Keys == d.showtimeSeats.Keys
            && (k in d.showtimeSeats ==> r.db.showtimeSeats[k] == FreeSeat)
            && (forall k' :: k' in d.showtimeSeats && k' != k ==> r.db.showtimeSeats[k'] == d.showtimeSeats[k'])
            && r.db.ticketHistory == d.ticketHistory + [HistoryRow(t.ticketId, n, t.status, TicketStatus.Cancelled, ManualCancel, actionBy)]
            && r.db == d.(tickets := r.db.tickets, showtimeSeats := r.db.showtimeSeats, ticketHistory := r.db.ticketHistory))
  {
  }

  /** Cancelling one ticket of a PENDING booking and then paying for the booking
      brings that ticket back to CONFIRMED while its seat stays AVAILABLE and
      unowned, and the payment still counts it as a sold seat. */
  lemma CancelThenPayReconfirms(d: Db, n: TicketNumber, actionBy: string, req: PaymentController.PaymentRequest,
                                paymentId: string, now: int)
    requires n != "" && n in d.tickets && d.tickets[n].status == TicketStatus.Reserved
    requires SeatKey(d.tickets[n].showtimeId, d.tickets[n].seatId) in d.showtimeSeats
    requires Present(req.bookingId) && req.bookingId.value == d.tickets[n].bookingId
    requires PaymentController.ConfirmPaymentSpec(CancelTicketSpec(d, Some(n), actionBy).db, req, paymentId, now).result.Ok?
    ensures var d1 := CancelTicketSpec(d, Some(n), actionBy).db;
      var d2 := PaymentController.ConfirmPaymentSpec(d1, req, paymentId, now).db;
      var k := SeatKey(d.tickets[n].showtimeId, d.tickets[n].seatId);
      && d2.tickets[n].status == TicketStatus.Confirmed
      && d2.showtimeSeats[k] == FreeSeat
      && n in PaymentController.ConfirmPaymentSpec(d1, req, paymentId, now).result.value.tickets
  {
    var d1 := CancelTicketSpec(d, Some(n), actionBy).db;
    var k := SeatKey(d.tickets[n].showtimeId, d.tickets[n].seatId);
    assert d1.tickets[n].bookingId == req.bookingId.value;
    assert d1.showtimeSeats[k] == FreeSeat;
    PaymentController.ConfirmPaymentEffects(d1, req, paymentId, now);
    assert n in TicketsOf(d1.tickets, req.bookingId.value);
  }

  /** A missing id is 404; an existing non-empty payload is answered unchanged and
      nothing is written; otherwise the generated payload is stored on that ticket
      and answered, and nothing else changes. */
  lemma GetTicketQRCodeEffects(d: Db, id: nat, now: nat)
    requires Consistent(d)
    ensures var r := GetTicketQRCodeSpec(d, id, now);
      && ((forall n :: n in d.tickets ==> d.tickets[n].ticketId != id) ==> r.result == Err(TicketNotFound) && r.db == d)
      && (forall n :: n in d.tickets && d.tickets[n].ticketId == id ==>
            r.result.Ok? && r.result.value.ticketNumber == n
            && (Present(d.tickets[n].qrCodeData) ==> r.result.value.qrCodeData == d.tickets[n].qrCodeData.value && r.db == d)
            && (!Present(d.tickets[n].qrCodeData) ==>
                  r.result.value.qrCodeData == "CINEMA:TICKET:" + n + ":" + NatToDecimal(now)
                  && r.db.tickets == d.tickets[n := d.tickets[n].(qrCodeData := Some(r.result.value.qrCodeData))]
                  && r.db.tickets.Keys == d.tickets.Keys
                  && r.db == d.(tickets := r.db.tickets)))
  {
  }

  /** The payload is fixed by the first call: a second call, at any later time,
      answers the same payload and writes nothing. */
  lemma GetTicketQRCodeIdempotent(d: Db, id: nat, now: nat, later: nat)
    requires Consistent(d)
    requires GetTicketQRCodeSpec(d, id, now).result.Ok?
    ensures var d1 := GetTicketQRCodeSpec(d, id, now).db;
      Consistent(d1)
      && GetTicketQRCodeSpec(d1, id, later).result == GetTicketQRCodeSpec(d, id, now).result
      && GetTicketQRCodeSpec(d1, id, later).db == d1
  {
    var n := TicketWithId(d.tickets, id).value;
    var t := d.tickets[n];
    var d1 := GetTicketQRCodeSpec(d, id, now).db;
    if Present(t.qrCodeData) {
      assert d1 == d;
    } else {
      var qr := GeneratedQr(n, now);
      assert d1 == d.(tickets := d.tickets[n := t.(qrCodeData := Some(qr))]);
      QrStoreKeepsConsistency(d, n, qr);
      assert d1.tickets[n].ticketId == id;
      var found := TicketWithId(d1.tickets, id);
      assert found.Some?;
      assert found == Some(n);
    }
  }

  /** Storing a payload changes no ticket id. */
  lemma QrStoreKeepsConsistency(d: Db, n: TicketNumber, qr: string)
    requires Consistent(d) && n in d.tickets
    ensures Consistent(d.(tickets := d.tickets[n := d.tickets[n].(qrCodeData := Some(qr))]))
  {
  }

  lemma ConfirmTicketKeepsConsistency(d: Db, number: Option<string>, actionBy: string)
    requires Consistent(d)
    ensures Consistent(ConfirmTicketSpec(d, number, actionBy).db)
  {
  }

  lemma CancelTicketKeepsConsistency(d: Db, number: Option<string>, actionBy: string)
    requires Consistent(d)
    ensures Consistent(CancelTicketSpec(d, number, actionBy).db)
  {
  }
}
