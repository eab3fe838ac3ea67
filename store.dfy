/** The tables the reservation and ticket lifecycle reads and writes, as one
    in-memory store. The catalogue tables (rooms, movies, seats) are read-only
    to the booking core; showtimes are written by the showtime controller. */
module Store {
  import opened Common

  type ShowtimeId = string
  type BookingId = string
  type TicketNumber = string
  type BranchId = string
  type RoomId = string
  type MovieId = string
  type SeatId = nat

  /** A hold lasts this many minutes (booking expiry and seat lock). */
  const HOLD_MINUTES: nat := 15

  datatype SeatStatus = Available | Reserved | Booked
  datatype BookingStatus = Pending | Confirmed | Cancelled
  datatype TicketStatus = Reserved | Confirmed | Used | Cancelled

  /** The name a ticket status has in the database and in messages. */
  function TicketStatusName(s: TicketStatus): string
  {
    match s
    case Reserved => "RESERVED"
    case Confirmed => "CONFIRMED"
    case Used => "USED"
    case Cancelled => "CANCELLED"
  }

  /** branch.Rooms: only ACTIVE rooms can host new showtimes. */
  datatype Room = Room(branchId: BranchId, totalSeats: nat, active: bool)

  /** movie.Movies: running time in minutes. */
  datatype Movie = Movie(duration: nat, active: bool)

  /** branch.Seats joined with its seat type: the multiplier is a scaled
      integer, so prices are in the same scaled unit. */
  datatype Seat = Seat(roomId: RoomId, row: string, number: nat, seatTypeId: nat, priceMultiplier: nat)

  /** movie.Showtimes; times are milliseconds since the epoch. */
  datatype Showtime = Showtime(
    movieId: MovieId, branchId: BranchId, roomId: RoomId,
    startTime: int, endTime: int, basePrice: int,
    availableSeats: int, bookedSeats: int, status: string)

  const ACTIVE := "ACTIVE"
  const INACTIVE := "INACTIVE"

  /** movie.ShowtimeSeats is keyed by (showtime_id, seat_id). */
  datatype SeatKey = SeatKey(showtimeId: ShowtimeId, seatId: SeatId)

  datatype ShowtimeSeat = ShowtimeSeat(status: SeatStatus, bookingId: Option<BookingId>, lockedUntil: Option<int>)

  datatype Booking = Booking(
    showtimeId: ShowtimeId, branchId: BranchId,
    customerEmail: string, customerPhone: Option<string>, customerName: Option<string>,
    totalAmount: Option<int>, finalAmount: Option<int>, ticketQuantity: nat,
    reference: string, status: BookingStatus, expiresAt: int)

  datatype Ticket = Ticket(
    ticketId: nat, bookingId: BookingId, showtimeId: ShowtimeId, branchId: BranchId,
    seatId: SeatId, seatNumber: string, seatType: nat,
    unitPrice: int, finalPrice: int,
    customerEmail: string, customerName: Option<string>, qrCodeData: Option<string>,
    status: TicketStatus,
    checkedIn: bool, checkedInAt: Option<int>, checkedInBy: Option<string>)

  datatype HistoryAction = ManualConfirm | ManualCancel | CheckIn

  /** A row of ticket.TicketHistory or ticket.CheckinHistory. */
  datatype HistoryRow = HistoryRow(
    ticketId: nat, ticketNumber: TicketNumber,
    oldStatus: TicketStatus, newStatus: TicketStatus,
    action: HistoryAction, actionBy: string)

  datatype Payment = Payment(
    paymentId: string, bookingId: BookingId, amount: Option<int>, finalAmount: int,
    paymentMethod: string, paymentStatus: string, paidAmount: int, paidAt: int)

  /** A snapshot of every table; `nextTicketId` is the identity counter of ticket.Tickets. */
  datatype Db = Db(
    rooms: map<RoomId, Room>,
    movies: map<MovieId, Movie>,
    seats: map<SeatId, Seat>,
    showtimes: map<ShowtimeId, Showtime>,
    showtimeSeats: map<SeatKey, ShowtimeSeat>,
    bookings: map<BookingId, Booking>,
    tickets: map<TicketNumber, Ticket>,
    ticketHistory: seq<HistoryRow>,
    checkinHistory: seq<HistoryRow>,
    payments: seq<Payment>,
    nextTicketId: nat)

  /** What a handler answers and the tables after it. */
  datatype Step<T> = Step(result: Result<T>, db: Db)

  /** The inventory invariant: a seat that is not AVAILABLE names its owner booking. */
  predicate SeatsOwned(seats: map<SeatKey, ShowtimeSeat>)
  {
    forall k :: k in seats && seats[k].status != Available ==> seats[k].bookingId.Some?
  }

  /** ticket_id is an identity column: every id is below the counter and no two rows share one. */
  predicate TicketIdsFresh(tickets: map<TicketNumber, Ticket>, next: nat)
  {
    && (forall n :: n in tickets ==> tickets[n].ticketId < next)
    && (forall n, m :: n in tickets && m in tickets && n != m ==> tickets[n].ticketId != tickets[m].ticketId)
  }

  /** The facts every handler relies on and preserves. */
  predicate Consistent(d: Db)
  {
    && SeatsOwned(d.showtimeSeats)
    && (forall k :: k in d.showtimeSeats ==> k.showtimeId in d.showtimes)
    && TicketIdsFresh(d.tickets, d.nextTicketId)
  }

  /** Release a seat: back to AVAILABLE with no owner and no lock. */
  const FreeSeat := ShowtimeSeat(Available, None, None)

  /** UPDATE movie.ShowtimeSeats SET status = 'BOOKED', locked_until = NULL WHERE booking_id = b */
  function BookSeatsOf(seats: map<SeatKey, ShowtimeSeat>, b: BookingId): (r: map<SeatKey, ShowtimeSeat>)
    ensures r.Keys == seats.Keys
    ensures SeatsOwned(seats) ==> SeatsOwned(r)
  {
    map k | k in seats ::
      if seats[k].bookingId == Some(b) then seats[k].(status := Booked, lockedUntil := None) else seats[k]
  }

  /** UPDATE movie.ShowtimeSeats SET status = 'AVAILABLE', booking_id = NULL, locked_until = NULL
      WHERE booking_id = b */
  function ReleaseSeatsOf(seats: map<SeatKey, ShowtimeSeat>, b: BookingId): (r: map<SeatKey, ShowtimeSeat>)
    ensures r.Keys == seats.Keys
    ensures SeatsOwned(seats) ==> SeatsOwned(r)
  {
    map k | k in seats :: if seats[k].bookingId == Some(b) then FreeSeat else seats[k]
  }

  /** UPDATE ticket.Tickets SET status = s WHERE booking_id = b */
  function SetStatusOfBooking(tickets: map<TicketNumber, Ticket>, b: BookingId, s: TicketStatus): (r: map<TicketNumber, Ticket>)
    ensures r.Keys == tickets.Keys
    ensures forall n :: n in r ==> r[n].ticketId == tickets[n].ticketId
  {
    map n | n in tickets :: if tickets[n].bookingId == b then tickets[n].(status := s) else tickets[n]
  }

  /** The ticket rows of booking `b` (SELECT ... FROM ticket.Tickets WHERE booking_id = b). */
  function TicketsOf(tickets: map<TicketNumber, Ticket>, b: BookingId): set<TicketNumber>
  {
    set n | n in tickets && tickets[n].bookingId == b
  }

  /** Changing ticket statuses leaves every booking with the same ticket rows. */
  lemma SetStatusKeepsOwners(tickets: map<TicketNumber, Ticket>, b: BookingId, s: TicketStatus, c: BookingId)
    ensures TicketsOf(SetStatusOfBooking(tickets, b, s), c) == TicketsOf(tickets, c)
  {
  }

  /** The store itself: one field per table, updated in place by the handlers. */
  class Database {
    var rooms: map<RoomId, Room>
    var movies: map<MovieId, Movie>
    var seats: map<SeatId, Seat>
    var showtimes: map<ShowtimeId, Showtime>
    var showtimeSeats: map<SeatKey, ShowtimeSeat>
    var bookings: map<BookingId, Booking>
    var tickets: map<TicketNumber, Ticket>
    var ticketHistory: seq<HistoryRow>
    var checkinHistory: seq<HistoryRow>
    var payments: seq<Payment>
    var nextTicketId: nat

    ghost function Snapshot(): Db
      reads this
    {
      Db(rooms, movies, seats, showtimes, showtimeSeats, bookings, tickets,
         ticketHistory, checkinHistory, payments, nextTicketId)
    }

    ghost predicate Valid()
      reads this
    {
      Consistent(Snapshot())
    }

    /** A store holding a catalogue and nothing sold yet. */
    constructor (rooms: map<RoomId, Room>, movies: map<MovieId, Movie>, seats: map<SeatId, Seat>)
      ensures Valid()
      ensures Snapshot() == Db(rooms, movies, seats, map[], map[], map[], map[], [], [], [], 0)
    {
      this.rooms := rooms;
      this.movies := movies;
      this.seats := seats;
      showtimes := map[];
      showtimeSeats := map[];
      bookings := map[];
      tickets := map[];
      ticketHistory := [];
      checkinHistory := [];
      payments := [];
      nextTicketId := 0;
    }
  }
}
