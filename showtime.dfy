/** Showtime scheduling: createShowtime (validation, end time, room conflict
    check, seat seeding), updateShowtime, deleteShowtime and the manager branch
    guards of the listing handlers. */
module ShowtimeController {
  import opened Common
  import opened Store

  /** A `start_time` field: absent or empty, not a date `new Date` can parse, or
      an instant in milliseconds. */
  datatype TimeInput = Missing | Unparsable | At(ms: int)

  datatype ShowtimeRequest = ShowtimeRequest(
    showtimeId: Option<string>, movieId: Option<string>, branchId: Option<string>,
    roomId: Option<string>, startTime: TimeInput, basePrice: Option<int>)

  const FieldsRequired := Failure(400, "All fields are required")
  const CreateOtherBranch := Failure(403, "Access denied. You can only create showtimes for your own branch.")
  const RoomNotFound := Failure(404, "Room not found or inactive")
  const RoomElsewhere := Failure(400, "Room does not belong to the specified branch")
  const MovieNotFound := Failure(404, "Movie not found or inactive")
  const Conflict := Failure(400, "Showtime conflicts with existing showtime in the same room")
  /** A statement that throws (an invalid date, a duplicate showtime_id) ends here. */
  const CreateFailed := Failure(500, "Failed to create showtime")
  const ShowtimeNotFound := Failure(404, "Showtime not found")
  const InvalidStart := Failure(400, "Invalid start time format")
  const NothingToUpdate := Failure(400, "No fields to update")
  const ActiveBookings := Failure(400, "Cannot delete showtime with active bookings")

  /** start + duration minutes. */
  function EndTime(start: int, duration: nat): int
  {
    start + duration * MINUTE_MS
  }

  /** The conflict query's three-way test of an existing showtime [s, e) against
      a new one [ns, ne). */
  predicate ConflictTest(s: int, e: int, ns: int, ne: int)
  {
    (s <= ns && e > ns) || (s < ne && e >= ne) || (s >= ns && e <= ne)
  }

  /** Two half-open intervals share an instant. */
  predicate Overlaps(s: int, e: int, ns: int, ne: int)
  {
    s < ne && ns < e
  }

  /** For intervals of positive length the three-way test is plain overlap. */
  lemma ConflictTestIsOverlap(s: int, e: int, ns: int, ne: int)
    requires s < e && ns < ne
    ensures ConflictTest(s, e, ns, ne) <==> Overlaps(s, e, ns, ne)
  {
  }

  /** Only ACTIVE showtimes of the same room are tested. */
  predicate HasConflict(showtimes: map<ShowtimeId, Showtime>, room: RoomId, ns: int, ne: int)
  {
    exists id :: id in showtimes && showtimes[id].roomId == room && showtimes[id].status == ACTIVE
      && ConflictTest(showtimes[id].startTime, showtimes[id].endTime, ns, ne)
  }

  /** The seats of a room in the catalogue. */
  function RoomSeats(seats: map<SeatId, Seat>, room: RoomId): set<SeatId>
  {
    set s | s in seats && seats[s].roomId == room
  }

  /** One AVAILABLE row for showtime `st` per seat in `ids`, added to `seats`. */
  function SeedSeats(seats: map<SeatKey, ShowtimeSeat>, st: ShowtimeId, ids: set<SeatId>): map<SeatKey, ShowtimeSeat>
  {
    seats + map s | s in ids :: SeatKey(st, s) := FreeSeat
  }

  lemma SeedSeatsStep(seats: map<SeatKey, ShowtimeSeat>, st: ShowtimeId, done: set<SeatId>, s: SeatId)
    ensures SeedSeats(seats, st, done + {s}) == SeedSeats(seats, st, done)[SeatKey(st, s) := FreeSeat]
  {
    var l := SeedSeats(seats, st, done + {s});
    var r := SeedSeats(seats, st, done)[SeatKey(st, s) := FreeSeat];
    forall k | k in l
      ensures k in r && l[k] == r[k]
    {
      if k.showtimeId == st && k.seatId in done + {s} {
        assert k == SeatKey(st, k.seatId);
      }
    }
    forall k | k in r
      ensures k in l
    {
      if k != SeatKey(st, s) && k !in seats {
        assert k.showtimeId == st && k.seatId in done;
      }
    }
  }

  predicate CreateFieldsPresent(req: ShowtimeRequest)
  {
    Present(req.showtimeId) && Present(req.movieId) && Present(req.branchId) && Present(req.roomId)
    && !req.startTime.Missing? && PresentNumber(req.basePrice)
  }

  /** The fields are present and the caller may create for the requested branch. */
  predicate GuardPassed(user: User, req: ShowtimeRequest)
  {
    CreateFieldsPresent(req) && (user.role != "MANAGER" || user.branchId == req.branchId.value)
  }

  predicate RoomActive(d: Db, req: ShowtimeRequest)
    requires Present(req.roomId)
  {
    req.roomId.value in d.rooms && d.rooms[req.roomId.value].active
  }

  predicate MovieActive(d: Db, req: ShowtimeRequest)
    requires Present(req.movieId)
  {
    req.movieId.value in d.movies && d.movies[req.movieId.value].active
  }

  /** The guard passed and the room is an ACTIVE room of the requested branch. */
  predicate RoomChecked(d: Db, user: User, req: ShowtimeRequest)
  {
    GuardPassed(user, req) && RoomActive(d, req) && d.rooms[req.roomId.value].branchId == req.branchId.value
  }

  /** createShowtime as one step; `user` is the authenticated caller. */
  function CreateShowtimeSpec(d: Db, user: User, req: ShowtimeRequest): Step<ShowtimeId>
  {
    if !CreateFieldsPresent(req) then Step(Err(FieldsRequired), d)
    else if user.role == "MANAGER" && user.branchId != req.branchId.value then Step(Err(CreateOtherBranch), d)
    else if req.roomId.value !in d.rooms || !d.rooms[req.roomId.value].active then Step(Err(RoomNotFound), d)
    else if d.rooms[req.roomId.value].branchId != req.branchId.value then Step(Err(RoomElsewhere), d)
    else if req.movieId.value !in d.movies || !d.movies[req.movieId.value].active then Step(Err(MovieNotFound), d)
    else if req.startTime.Unparsable? then Step(Err(CreateFailed), d)
    else
      var room := d.rooms[req.roomId.value];
      var start := req.startTime.ms;
      var end := EndTime(start, d.movies[req.movieId.value].duration);
      if HasConflict(d.showtimes, req.roomId.value, start, end) then Step(Err(Conflict), d)
      else if req.showtimeId.value in d.showtimes then Step(Err(CreateFailed), d)
      else
        var st := req.showtimeId.value;
        var show := Showtime(req.movieId.value, req.branchId.value, req.roomId.value, start, end,
                             req.basePrice.value, room.totalSeats, 0, ACTIVE);
        Step(Ok(st),
             d.(showtimes := d.showtimes[st := show],
                showtimeSeats := SeedSeats(d.showtimeSeats, st, RoomSeats(d.seats, req.roomId.value))))
  }

  /** The seeding loop: one AVAILABLE seat row per seat of the room. */
  method SeedShowtimeSeats(db: Database, st: ShowtimeId, roomId: RoomId)
    modifies db
    ensures db.showtimeSeats == SeedSeats(old(db.showtimeSeats), st, RoomSeats(old(db.seats), roomId))
    ensures db.showtimes == old(db.showtimes) && db.seats == old(db.seats) && db.bookings == old(db.bookings)
    ensures db.tickets == old(db.tickets) && db.rooms == old(db.rooms) && db.movies == old(db.movies)
    ensures db.payments == old(db.payments) && db.ticketHistory == old(db.ticketHistory)
    ensures db.checkinHistory == old(db.checkinHistory) && db.nextTicketId == old(db.nextTicketId)
  {
    var todo := RoomSeats(db.seats, roomId);
    ghost var done: set<SeatId> := {};
    while todo != {}
      invariant todo + done == RoomSeats(old(db.seats), roomId) && todo !! done
      invariant db.showtimeSeats == SeedSeats(old(db.showtimeSeats), st, done)
      invariant db.showtimes == old(db.showtimes) && db.seats == old(db.seats) && db.bookings == old(db.bookings)
      invariant db.tickets == old(db.tickets) && db.rooms == old(db.rooms) && db.movies == old(db.movies)
      invariant db.payments == old(db.payments) && db.ticketHistory == old(db.ticketHistory)
      invariant db.checkinHistory == old(db.checkinHistory) && db.nextTicketId == old(db.nextTicketId)
      decreases todo
    {
      var s :| s in todo;
      SeedSeatsStep(old(db.showtimeSeats), st, done, s);
      db.showtimeSeats := db.showtimeSeats[SeatKey(st, s) := FreeSeat];
      todo := todo - {s};
      done := done + {s};
    }
  }

  method CreateShowtime(db: Database, user: User, req: ShowtimeRequest) returns (r: Result<ShowtimeId>)
    requires db.Valid()
    modifies db
    ensures r == CreateShowtimeSpec(old(db.Snapshot()), user, req).result
    ensures db.Snapshot() == CreateShowtimeSpec(old(db.Snapshot()), user, req).db
    ensures db.Valid()
  {
    ghost var d := db.Snapshot();
    CreateShowtimeKeepsConsistency(d, user, req);
    if !CreateFieldsPresent(req) {
      return Err(FieldsRequired);
    }
    if user.role == "MANAGER" && user.branchId != req.branchId.value {
      return Err(CreateOtherBranch);
    }
    var roomId := req.roomId.value;
    if roomId !in db.rooms || !db.rooms[roomId].active {
      return Err(RoomNotFound);
    }
    var room := db.rooms[roomId];
    if room.branchId != req.branchId.value {
      return Err(RoomElsewhere);
    }
    if req.movieId.value !in db.movies || !db.movies[req.movieId.value].active {
      return Err(MovieNotFound);
    }
    if req.startTime.Unparsable? {
      return Err(CreateFailed);
    }
    var start := req.startTime.ms;
    var end := EndTime(start, db.movies[req.movieId.value].duration);
    if HasConflict(db.showtimes, roomId, start, end) {
      return Err(Conflict);
    }
    var st := req.showtimeId.value;
    if st in db.showtimes {
      return Err(CreateFailed);
    }
    db.showtimes := db.showtimes[st := Showtime(req.movieId.value, req.branchId.value, roomId, start, end,
                                                req.basePrice.value, room.totalSeats, 0, ACTIVE)];
    SeedShowtimeSeats(db, st, roomId);
    r := Ok(st);
  }

  /** Every refusal writes nothing; the answers follow the handler's order of
      checks: fields 400, another branch 403, room 404, room elsewhere 400, movie
      404, an unparsable start 500, a conflict 400, an existing id 500. */
  lemma CreateShowtimeErrors(d: Db, user: User, req: ShowtimeRequest)
    ensures var r := CreateShowtimeSpec(d, user, req);
      && (r.result.Err? ==> r.db == d)
      && (!CreateFieldsPresent(req) ==> r.result == Err(FieldsRequired))
      && (CreateFieldsPresent(req) && user.role == "MANAGER" && user.branchId != req.branchId.value
          ==> r.result == Err(CreateOtherBranch))
      && (GuardPassed(user, req) && !RoomActive(d, req) ==> r.result == Err(RoomNotFound))
      && (GuardPassed(user, req) && RoomActive(d, req) && d.rooms[req.roomId.value].branchId != req.branchId.value
          ==> r.result == Err(RoomElsewhere))
      && (RoomChecked(d, user, req) && !MovieActive(d, req) ==> r.result == Err(MovieNotFound))
      && (RoomChecked(d, user, req) && MovieActive(d, req) && req.startTime.Unparsable? ==> r.result == Err(CreateFailed))
      && (RoomChecked(d, user, req) && MovieActive(d, req) && req.startTime.At?
          && HasConflict(d.showtimes, req.roomId.value, req.startTime.ms,
                         EndTime(req.startTime.ms, d.movies[req.movieId.value].duration))
          ==> r.result == Err(Conflict))
      && (RoomChecked(d, user, req) && MovieActive(d, req) && req.startTime.At?
          && !HasConflict(d.showtimes, req.roomId.value, req.startTime.ms,
                          EndTime(req.startTime.ms, d.movies[req.movieId.value].duration))
          ==> (r.result.Ok? <==> req.showtimeId.value !in d.showtimes)
              && (r.result.Err? ==> r.result == Err(CreateFailed)))
  {
  }

  /** A successful creation: the room is ACTIVE and in the requested branch, the
      movie is ACTIVE, the new showtime holds the requested id, movie, branch, room,
      start and base price, ends `duration` minutes after it starts,
      overlaps no ACTIVE showtime of the room, starts with as many available seats
      as the room has, and gets exactly one AVAILABLE seat row per seat of the room;
      existing showtimes and seat rows and every other table are unchanged. */
  lemma CreateShowtimeEffects(d: Db, user: User, req: ShowtimeRequest)
    requires Consistent(d)
    ensures var r := CreateShowtimeSpec(d, user, req);
      r.result.Ok? ==>
        var st := r.result.value;
        var room := req.roomId.value;
        var s := r.db.showtimes[st];
        && st == req.showtimeId.value && st !in d.showtimes
        && room in d.rooms && d.rooms[room].active && d.rooms[room].branchId == req.branchId.value
        && req.movieId.value in d.movies && d.movies[req.movieId.value].active
        && req.startTime.At? && s.startTime == req.startTime.ms
        && s.movieId == req.movieId.value && s.branchId == req.branchId.value && s.roomId == room
        && s.basePrice == req.basePrice.value
        && s.endTime == s.startTime + d.movies[req.movieId.value].duration * 60000
        && s.availableSeats == d.rooms[room].totalSeats && s.bookedSeats == 0 && s.status == ACTIVE
        && (forall id :: id in d.showtimes && d.showtimes[id].roomId == room && d.showtimes[id].status == ACTIVE ==>
              !ConflictTest(d.showtimes[id].startTime, d.showtimes[id].endTime, s.startTime, s.endTime))
        && (forall seat :: SeatKey(st, seat) in r.db.showtimeSeats <==> seat in d.seats && d.seats[seat].roomId == room)
        && (forall seat :: seat in d.seats && d.seats[seat].roomId == room ==> r.db.showtimeSeats[SeatKey(st, seat)] == FreeSeat)
        && (forall k :: k in d.showtimeSeats ==> k in r.db.showtimeSeats && r.db.showtimeSeats[k] == d.showtimeSeats[k])
        && r.db.showtimes.Keys == d.showtimes.Keys + {st}
        && (forall id :: id in d.showtimes ==> r.db.showtimes[id] == d.showtimes[id])
        && r.db == d.(showtimes := r.db.showtimes, showtimeSeats := r.db.showtimeSeats)
  {
    var r := CreateShowtimeSpec(d, user, req);
    if r.result.Ok? {
      var st := r.result.value;
      forall k | k in d.showtimeSeats
        ensures k.showtimeId != st
      {
        assert k.showtimeId in d.showtimes;
      }
    }
  }

  lemma CreateShowtimeKeepsConsistency(d: Db, user: User, req: ShowtimeRequest)
    requires Consistent(d)
    ensures Consistent(CreateShowtimeSpec(d, user, req).db)
  {
    var r := CreateShowtimeSpec(d, user, req);
    if r.result.Ok? {
      var st := r.result.value;
      forall k | k in r.db.showtimeSeats
        ensures k.showtimeId in r.db.showtimes
      {
      }
    }
  }

  /** updateShowtime as one step: a new start moves the end by the movie's duration
      when the movie row is found; a truthy base price or status is copied as is. */
  function UpdateShowtimeSpec(d: Db, id: ShowtimeId, start: TimeInput, basePrice: Option<int>, status: Option<string>): Step<()>
  {
    if id !in d.showtimes then Step(Err(ShowtimeNotFound), d)
    else if start.Unparsable? then Step(Err(InvalidStart), d)
    else if start.Missing? && !PresentNumber(basePrice) && !Present(status) then Step(Err(NothingToUpdate), d)
    else
      var s := d.showtimes[id];
      var s1 := if start.At? then
                  (if s.movieId in d.movies then s.(startTime := start.ms, endTime := EndTime(start.ms, d.movies[s.movieId].duration))
                   else s.(startTime := start.ms))
                else s;
      var s2 := if PresentNumber(basePrice) then s1.(basePrice := basePrice.value) else s1;
      var s3 := if Present(status) then s2.(status := status.value) else s2;
      Step(Ok(()), d.(showtimes := d.showtimes[id := s3]))
  }

  method UpdateShowtime(db: Database, id: ShowtimeId, start: TimeInput, basePrice: Option<int>, status: Option<string>) returns (r: Result<()>)
    requires db.Valid()
    modifies db
    ensures r == UpdateShowtimeSpec(old(db.Snapshot()), id, start, basePrice, status).result
    ensures db.Snapshot() == UpdateShowtimeSpec(old(db.Snapshot()), id, start, basePrice, status).db
    ensures db.Valid()
  {
    if id !in db.showtimes {
      return Err(ShowtimeNotFound);
    }
    var s := db.showtimes[id];
    var updated := false;
    if !start.Missing? {
      if start.Unparsable? {
        return Err(InvalidStart);
      }
      s := s.(startTime := start.ms);
      if s.movieId in db.movies {
        s := s.(endTime := EndTime(start.ms, db.movies[s.movieId].duration));
      }
      updated := true;
    }
    if PresentNumber(basePrice) {
      s := s.(basePrice := basePrice.value);
      updated := true;
    }
    if Present(status) {
      s := s.(status := status.value);
      updated := true;
    }
    if !updated {
      return Err(NothingToUpdate);
    }
    db.showtimes := db.showtimes[id := s];
    r := Ok(());
  }

  /** Unknown showtime 404, unparsable start 400, nothing to change 400; a new start
      moves the end to start + duration when the movie is known, a truthy base price
      or status is written, and nothing else changes. The conflict check
      of createShowtime is not repeated: a valid new start is accepted even when it
      overlaps another ACTIVE showtime of the room. */
  lemma UpdateShowtimeEffects(d: Db, id: ShowtimeId, start: TimeInput, basePrice: Option<int>, status: Option<string>)
    ensures var r := UpdateShowtimeSpec(d, id, start, basePrice, status);
      && (id !in d.showtimes ==> r.result == Err(ShowtimeNotFound))
      && (id in d.showtimes && start.Unparsable? ==> r.result == Err(InvalidStart))
      && (id in d.showtimes && start.Missing? && !PresentNumber(basePrice) && !Present(status)
          ==> r.result == Err(NothingToUpdate))
      && (r.result.Err? ==> r.db == d)
      && (id in d.showtimes && start.At? ==> r.result.Ok?)
      && (r.result.Ok? && start.At? ==>
            r.db.showtimes[id].startTime == start.ms
            && (d.showtimes[id].movieId in d.movies ==>
                  r.db.showtimes[id].endTime == start.ms + d.movies[d.showtimes[id].movieId].duration * 60000))
      && (r.result.Ok? && start.Missing? ==>
            r.db.showtimes[id].startTime == d.showtimes[id].startTime && r.db.showtimes[id].endTime == d.showtimes[id].endTime)
      && (r.result.Ok? && start.At? && d.showtimes[id].movieId !in d.movies ==>
            r.db.showtimes[id].endTime == d.showtimes[id].endTime)
      && (r.result.Ok? ==>
            && r.db.showtimes[id].basePrice == (if PresentNumber(basePrice) then basePrice.value else d.showtimes[id].basePrice)
            && r.db.showtimes[id].status == (if Present(status) then status.value else d.showtimes[id].status)
            && r.db.showtimes[id].movieId == d.showtimes[id].movieId && r.db.showtimes[id].roomId == d.showtimes[id].roomId
            && r.db.showtimes[id].branchId == d.showtimes[id].branchId
            && r.db.showtimes[id].availableSeats == d.showtimes[id].availableSeats
            && r.db.showtimes[id].bookedSeats == d.showtimes[id].bookedSeats
            && r.db.showtimes.Keys == d.showtimes.Keys
            && (forall other :: other in d.showtimes && other != id ==> r.db.showtimes[other] == d.showtimes[other])
            && r.db == d.(showtimes := r.db.showtimes))
  {
  }

  lemma UpdateShowtimeKeepsConsistency(d: Db, id: ShowtimeId, start: TimeInput, basePrice: Option<int>, status: Option<string>)
    requires Consistent(d)
    ensures Consistent(UpdateShowtimeSpec(d, id, start, basePrice, status).db)
  {
  }

  /** A booking of the showtime that is not CANCELLED. */
  predicate HasActiveBooking(bookings: map<BookingId, Booking>, id: ShowtimeId)
  {
    exists b :: b in bookings && bookings[b].showtimeId == id && bookings[b].status != BookingStatus.Cancelled
  }

  /** deleteShowtime as one step: a soft delete, refused while bookings are live;
      an unknown id updates no row and still succeeds. */
  function DeleteShowtimeSpec(d: Db, id: ShowtimeId): Step<()>
  {
    if HasActiveBooking(d.bookings, id) then Step(Err(ActiveBookings), d)
    else if id !in d.showtimes then Step(Ok(()), d)
    else Step(Ok(()), d.(showtimes := d.showtimes[id := d.showtimes[id].(status := INACTIVE)]))
  }

  method DeleteShowtime(db: Database, id: ShowtimeId) returns (r: Result<()>)
    requires db.Valid()
    modifies db
    ensures r == DeleteShowtimeSpec(old(db.Snapshot()), id).result
    ensures db.Snapshot() == DeleteShowtimeSpec(old(db.Snapshot()), id).db
    ensures db.Valid()
  {
    if HasActiveBooking(db.bookings, id) {
      return Err(ActiveBookings);
    }
    if id in db.showtimes {
      db.showtimes := db.showtimes[id := db.showtimes[id].(status := INACTIVE)];
    }
    r := Ok(());
  }

  /** Refused iff some PENDING or CONFIRMED booking names the showtime; otherwise
      only its status changes, to INACTIVE, so it stops counting in conflict checks. */
  lemma DeleteShowtimeEffects(d: Db, id: ShowtimeId)
    ensures var r := DeleteShowtimeSpec(d, id);
      && (r.result == Err(ActiveBookings) <==>
            exists b :: b in d.bookings && d.bookings[b].showtimeId == id && d.bookings[b].status in {Pending, BookingStatus.Confirmed})
      && (r.result.Err? ==> r.db == d)
      && (r.result.Ok? && id in d.showtimes ==>
            r.db.showtimes[id] == d.showtimes[id].(status := INACTIVE)
            && r.db.showtimes[id].status != ACTIVE)
      && (r.result.Ok? ==>
            && r.db.showtimes.Keys == d.showtimes.Keys
            && (forall o :: o in d.showtimes && o != id ==> r.db.showtimes[o] == d.showtimes[o])
            && r.db == d.(showtimes := r.db.showtimes))
      && (r.result.Ok? && id !in d.showtimes ==> r.db == d)
  {
    var r := DeleteShowtimeSpec(d, id);
    if r.result == Err(ActiveBookings) {
      var b :| b in d.bookings && d.bookings[b].showtimeId == id && d.bookings[b].status != BookingStatus.Cancelled;
      assert d.bookings[b].status in {Pending, BookingStatus.Confirmed};
    }
  }

  lemma DeleteShowtimeKeepsConsistency(d: Db, id: ShowtimeId)
    requires Consistent(d)
    ensures Consistent(DeleteShowtimeSpec(d, id).db)
  {
  }

  /** The listing handlers' guard: a MANAGER may only look at their own branch. */
  function ManagerBranchGuard(user: User, branchId: BranchId, denial: Failure): (g: Gate)
  {
    if user.role == "MANAGER" && user.branchId != branchId then Deny(denial) else Pass
  }

  const ViewShowtimesOtherBranch := Failure(403, "Access denied. You can only view showtimes from your own branch.")
  const ViewRoomsOtherBranch := Failure(403, "Access denied. You can only view rooms from your own branch.")

  function ShowtimesByBranchGuard(user: User, branchId: BranchId): Gate
  {
    ManagerBranchGuard(user, branchId, ViewShowtimesOtherBranch)
  }

  function RoomsByBranchGuard(user: User, branchId: BranchId): Gate
  {
    ManagerBranchGuard(user, branchId, ViewRoomsOtherBranch)
  }

  /** A MANAGER is refused 403 exactly for another branch; every other role passes,
      and createShowtime applies the same rule before touching any table. */
  lemma ManagerGuards(d: Db, user: User, branchId: BranchId, req: ShowtimeRequest)
    ensures ShowtimesByBranchGuard(user, branchId) == Deny(ViewShowtimesOtherBranch) <==> user.role == "MANAGER" && user.branchId != branchId
    ensures ShowtimesByBranchGuard(user, branchId) == Pass <==> !(user.role == "MANAGER" && user.branchId != branchId)
    ensures RoomsByBranchGuard(user, branchId) == Deny(ViewRoomsOtherBranch) <==> user.role == "MANAGER" && user.branchId != branchId
    ensures CreateFieldsPresent(req) && user.role == "MANAGER" && user.branchId != req.branchId.value
            ==> CreateShowtimeSpec(d, user, req).result == Err(CreateOtherBranch)
  {
  }
}
