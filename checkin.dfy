/** Staff check-in: the CONFIRMED -> USED transition inside a window of thirty
    minutes either side of the showtime's start, the mapping of its thrown
    messages to HTTP answers, and the requireStaff gate. */
module CheckinController {
  import opened Common
  import opened Store
  import RoleCheck

  /** Half-width of the check-in window. */
  const WINDOW_MS: nat := 30 * MINUTE_MS

  /** The errors checkinWithDirectQuery throws. */
  datatype CheckinError =
    | TicketNotFound
    | AlreadyCheckedIn
    | InvalidStatus(status: TicketStatus)
    | TooEarly(minutes: nat)
    | TooLate(minutes: nat)

  /** Either the checked-in ticket row or the error thrown (which rolls the transaction back). */
  datatype Attempt = Done(ticket: Ticket) | Threw(error: CheckinError)

  /** Math.round(ms / 60000) for a non-negative number of milliseconds. */
  function RoundedMinutes(ms: nat): (m: nat)
    ensures m * MINUTE_MS <= ms + 30000 < (m + 1) * MINUTE_MS
  {
    (ms + 30000) / MINUTE_MS
  }

  lemma RoundedMinutesValues()
    ensures RoundedMinutes(10 * MINUTE_MS) == 10
    ensures RoundedMinutes(29999) == 0 && RoundedMinutes(30000) == 1
  {
  }

  const NotFoundText := "Ticket not found"
  const AlreadyText := "Ticket already checked in"

  /** The text of each thrown error. */
  function ErrorMessage(e: CheckinError): string
  {
    match e
    case TicketNotFound => NotFoundText
    case AlreadyCheckedIn => AlreadyText
    case InvalidStatus(s) => InvalidHead + InvalidMiddle + TicketStatusName(s) + ")"
    case TooEarly(m) => EarlyHead + "30" + TooEarlyRest(m)
    case TooLate(m) => LateHead + LateExpired + LateStarted + NatToDecimal(m) + LateEnd
  }

  const NumberRequired := Failure(400, "Ticket number is required")
  const AlreadyCheckedInFailure := Failure(409, "Ticket already checked in")
  const InvalidStatusFailure := Failure(400, "Ticket cannot be checked in (invalid status)")
  const OutsideWindowFailure := Failure(400, "Check-in is only allowed 30 minutes before and after showtime")
  const NotFoundFailure := Failure(404, "Ticket not found")
  const CheckinFailed := Failure(500, "Check-in failed")

  /** checkinTicket's catch block: the first substring that matches decides the answer. */
  function FailureFor(message: string): Failure
  {
    if Contains(message, "already checked in") then AlreadyCheckedInFailure
    else if Contains(message, "cannot be checked in") then InvalidStatusFailure
    else if Contains(message, "Check-in is only allowed") then OutsideWindowFailure
    else if Contains(message, "Ticket not found") then NotFoundFailure
    else CheckinFailed
  }

  // The five outcomes of FailureFor, one lemma each, stated over the substring facts.

  lemma FailureForAlready(msg: string)
    requires Contains(msg, "already checked in")
    ensures FailureFor(msg) == AlreadyCheckedInFailure
  {
  }

  lemma FailureForCannot(msg: string)
    requires !Contains(msg, "already checked in") && Contains(msg, "cannot be checked in")
    ensures FailureFor(msg) == InvalidStatusFailure
  {
  }

  lemma FailureForWindow(msg: string)
    requires !Contains(msg, "already checked in") && !Contains(msg, "cannot be checked in")
    requires Contains(msg, "Check-in is only allowed")
    ensures FailureFor(msg) == OutsideWindowFailure
  {
  }

  lemma FailureForNotFound(msg: string)
    requires !Contains(msg, "already checked in") && !Contains(msg, "cannot be checked in")
    requires !Contains(msg, "Check-in is only allowed") && Contains(msg, "Ticket not found")
    ensures FailureFor(msg) == NotFoundFailure
  {
  }

  lemma FailureForOther(msg: string)
    requires !Contains(msg, "already checked in") && !Contains(msg, "cannot be checked in")
    requires !Contains(msg, "Check-in is only allowed") && !Contains(msg, "Ticket not found")
    ensures FailureFor(msg) == CheckinFailed
  {
  }

  /** "Ticket not found" has no 'y' and no 'C', so it holds neither of the first
      two patterns nor the third. */
  lemma NotFoundLacksEarlierPatterns()
    ensures !Contains(NotFoundText, "already checked in") && !Contains(NotFoundText, "cannot be checked in")
    ensures !Contains(NotFoundText, "Check-in is only allowed")
  {
    MissingCharExcludes(NotFoundText, "already checked in", 6);
    MissingCharExcludes(NotFoundText, "cannot be checked in", 7);
    MissingCharExcludes(NotFoundText, "Check-in is only allowed", 0);
  }

  lemma NotFoundMaps404()
    ensures FailureFor(ErrorMessage(TicketNotFound)) == NotFoundFailure
  {
    NotFoundLacksEarlierPatterns();
    assert OccursAt(NotFoundText, "Ticket not found", 0);
    FailureForNotFound(NotFoundText);
  }

  lemma AlreadyMaps409()
    ensures FailureFor(ErrorMessage(AlreadyCheckedIn)) == AlreadyCheckedInFailure
  {
    assert OccursAt(AlreadyText, "already checked in", 7);
    FailureForAlready(AlreadyText);
  }

  lemma NoLetterInDigits(m: nat, c: char)
    requires !IsDigit(c)
    ensures c !in NatToDecimal(m)
  {
    var s := NatToDecimal(m);
    forall i | 0 <= i < |s|
      ensures s[i] != c
    {
      assert IsDigit(s[i]);
    }
  }

  lemma StatusNameLacksY(s: TicketStatus)
    ensures 'y' !in TicketStatusName(s)
  {
  }

  const CannotText := "cannot be checked in"
  const InvalidHead := "Ticket " + CannotText
  const InvalidMiddle := " (invalid status: "

  lemma InvalidStatusLacksY(s: TicketStatus)
    ensures 'y' !in ErrorMessage(InvalidStatus(s))
  {
    StatusNameLacksY(s);
    assert 'y' !in InvalidHead;
    assert 'y' !in InvalidMiddle;
  }

  lemma InvalidStatusSaysCannot(s: TicketStatus)
    ensures Contains(ErrorMessage(InvalidStatus(s)), "cannot be checked in")
  {
    var p := "cannot be checked in";
    ContainsAtEnd("Ticket ", p);
    ContainsInPrefix(InvalidHead, InvalidMiddle, p);
    ContainsInPrefix(InvalidHead + InvalidMiddle, TicketStatusName(s), p);
    ContainsInPrefix(InvalidHead + InvalidMiddle + TicketStatusName(s), ")", p);
  }

  lemma InvalidStatusMaps400(s: TicketStatus)
    ensures FailureFor(ErrorMessage(InvalidStatus(s))) == InvalidStatusFailure
  {
    InvalidStatusLacksY(s);
    MissingCharExcludes(ErrorMessage(InvalidStatus(s)), "already checked in", 6);
    InvalidStatusSaysCannot(s);
    FailureForCannot(ErrorMessage(InvalidStatus(s)));
  }

  const EarlyHead := "Check-in is only allowed "
  const EarlyMiddle := " minutes before showtime."
  const EarlyPrompt := " Please come back in "
  const MinutesEnd := " minutes."

  /** The part of the too-early message after "30". */
  function TooEarlyRest(m: nat): string
  {
    EarlyMiddle + EarlyPrompt + NatToDecimal(m) + MinutesEnd
  }

  lemma EarlyPiecesLack(c: char)
    requires c == 'y' || c == 'd'
    ensures c !in EarlyMiddle && c !in EarlyPrompt && c !in MinutesEnd
  {
  }

  lemma TooEarlyRestLacks(m: nat, c: char)
    requires c == 'y' || c == 'd'
    ensures c !in TooEarlyRest(m)
  {
    NoLetterInDigits(m, c);
    EarlyPiecesLack(c);
  }

  /** Neither digit of "30" occurs in the first two patterns. */
  lemma ThirtySeparates()
    ensures forall j :: 0 <= j < |"30"| ==> "30"[j] !in "already checked in" && "30"[j] !in "cannot be checked in"
  {
  }

  lemma EarlyPartsLackAlready(m: nat)
    ensures !Contains(EarlyHead, "already checked in") && !Contains(TooEarlyRest(m), "already checked in")
  {
    TooEarlyRestLacks(m, 'y');
    MissingCharExcludes(EarlyHead, "already checked in", 2);
    MissingCharExcludes(TooEarlyRest(m), "already checked in", 6);
  }

  lemma EarlyPartsLackCannot(m: nat)
    ensures !Contains(EarlyHead, "cannot be checked in") && !Contains(TooEarlyRest(m), "cannot be checked in")
  {
    TooEarlyRestLacks(m, 'd');
    MissingCharExcludes(EarlyHead, "cannot be checked in", 7);
    MissingCharExcludes(TooEarlyRest(m), "cannot be checked in", 16);
  }

  lemma TooEarlyLacksAlready(m: nat)
    ensures !Contains(ErrorMessage(TooEarly(m)), "already checked in")
  {
    EarlyPartsLackAlready(m);
    ThirtySeparates();
    SeparatorSplits(EarlyHead, "30", TooEarlyRest(m), "already checked in");
  }

  lemma TooEarlyLacksCannot(m: nat)
    ensures !Contains(ErrorMessage(TooEarly(m)), "cannot be checked in")
  {
    EarlyPartsLackCannot(m);
    ThirtySeparates();
    SeparatorSplits(EarlyHead, "30", TooEarlyRest(m), "cannot be checked in");
  }

  lemma TooEarlySaysOnlyAllowed(m: nat)
    ensures Contains(ErrorMessage(TooEarly(m)), "Check-in is only allowed")
  {
    assert OccursAt(EarlyHead, "Check-in is only allowed", 0);
    ContainsInPrefix(EarlyHead, "30", "Check-in is only allowed");
    ContainsInPrefix(EarlyHead + "30", TooEarlyRest(m), "Check-in is only allowed");
  }

  lemma TooEarlyMaps400(m: nat)
    ensures FailureFor(ErrorMessage(TooEarly(m))) == OutsideWindowFailure
  {
    TooEarlyLacksAlready(m);
    TooEarlyLacksCannot(m);
    TooEarlySaysOnlyAllowed(m);
    FailureForWindow(ErrorMessage(TooEarly(m)));
  }

  const LateHead := "Check-in window"
  const LateExpired := " has expired."
  const LateStarted := " Showtime started "
  const LateEnd := " minutes ago."

  lemma LatePiecesLack(c: char)
    requires c == 'y' || c == 'b' || c == 'T'
    ensures c !in LateHead && c !in LateExpired && c !in LateStarted && c !in LateEnd
  {
  }

  /** None of 'y', 'b', 'T' occurs in the too-late message. */
  lemma TooLateLacks(m: nat, c: char)
    requires c == 'y' || c == 'b' || c == 'T'
    ensures c !in ErrorMessage(TooLate(m))
  {
    NoLetterInDigits(m, c);
    LatePiecesLack(c);
  }

  lemma TooLateLacksPatterns(m: nat)
    ensures !Contains(ErrorMessage(TooLate(m)), "already checked in")
    ensures !Contains(ErrorMessage(TooLate(m)), "cannot be checked in")
    ensures !Contains(ErrorMessage(TooLate(m)), "Check-in is only allowed")
    ensures !Contains(ErrorMessage(TooLate(m)), "Ticket not found")
  {
    var msg := ErrorMessage(TooLate(m));
    TooLateLacks(m, 'y');
    TooLateLacks(m, 'b');
    TooLateLacks(m, 'T');
    MissingCharExcludes(msg, "already checked in", 6);
    MissingCharExcludes(msg, "cannot be checked in", 7);
    MissingCharExcludes(msg, "Check-in is only allowed", 15);
    MissingCharExcludes(msg, "Ticket not found", 0);
  }

  lemma TooLateMaps500(m: nat)
    ensures FailureFor(ErrorMessage(TooLate(m))) == CheckinFailed
  {
    TooLateLacksPatterns(m);
    FailureForOther(ErrorMessage(TooLate(m)));
  }

  /** The answer for each thrown error: not found 404, already checked in 409,
      invalid status 400, too early 400 — and too late 500, because "Check-in
      window has expired" matches none of the substrings tested. */
  lemma CheckinErrorStatus(e: CheckinError)
    ensures FailureFor(ErrorMessage(e)) ==
      match e
      case TicketNotFound => NotFoundFailure
      case AlreadyCheckedIn => AlreadyCheckedInFailure
      case InvalidStatus(_) => InvalidStatusFailure
      case TooEarly(_) => OutsideWindowFailure
      case TooLate(_) => CheckinFailed
  {
    match e
    case TicketNotFound => NotFoundMaps404();
    case AlreadyCheckedIn => AlreadyMaps409();
    case InvalidStatus(s) => InvalidStatusMaps400(s);
    case TooEarly(m) => TooEarlyMaps400(m);
    case TooLate(m) => TooLateMaps500(m);
  }

  /** checkinWithDirectQuery with a working transaction helper: `now` is the clock
      (both the window check and checked_in_at), `staff` the staff username. */
  function DirectCheckinSpec(d: Db, n: TicketNumber, staff: string, now: int): (Attempt, Db)
  {
    if n !in d.tickets || d.tickets[n].showtimeId !in d.showtimes then (Threw(TicketNotFound), d)
    else
      var t := d.tickets[n];
      var start := d.showtimes[t.showtimeId].startTime;
      if t.status == Used then (Threw(AlreadyCheckedIn), d)
      else if t.status != TicketStatus.Confirmed then (Threw(InvalidStatus(t.status)), d)
      else if now < start - WINDOW_MS then (Threw(TooEarly(RoundedMinutes(start - WINDOW_MS - now))), d)
      else if now > start + WINDOW_MS then (Threw(TooLate(RoundedMinutes(now - (start + WINDOW_MS)))), d)
      else
        var used := t.(status := Used, checkedIn := true, checkedInAt := Some(now), checkedInBy := Some(staff));
        (Done(used),
         d.(tickets := d.tickets[n := used],
            checkinHistory := d.checkinHistory + [HistoryRow(t.ticketId, n, TicketStatus.Confirmed, Used, CheckIn, staff)]))
  }

  method CheckinWithDirectQuery(db: Database, n: TicketNumber, staff: string, now: int) returns (a: Attempt)
    requires db.Valid()
    modifies db
    ensures a == DirectCheckinSpec(old(db.Snapshot()), n, staff, now).0
    ensures db.Snapshot() == DirectCheckinSpec(old(db.Snapshot()), n, staff, now).1
    ensures db.Valid()
  {
    if n !in db.tickets || db.tickets[n].showtimeId !in db.showtimes {
      return Threw(TicketNotFound);
    }
    var t := db.tickets[n];
    var start := db.showtimes[t.showtimeId].startTime;
    if t.status == Used {
      return Threw(AlreadyCheckedIn);
    }
    if t.status != TicketStatus.Confirmed {
      return Threw(InvalidStatus(t.status));
    }
    var minTime := start - WINDOW_MS;
    var maxTime := start + WINDOW_MS;
    if now < minTime {
      return Threw(TooEarly(RoundedMinutes(minTime - now)));
    }
    if now > maxTime {
      return Threw(TooLate(RoundedMinutes(now - maxTime)));
    }
    var used := t.(status := Used, checkedIn := true, checkedInAt := Some(now), checkedInBy := Some(staff));
    db.tickets := db.tickets[n := used];
    db.checkinHistory := db.checkinHistory + [HistoryRow(t.ticketId, n, TicketStatus.Confirmed, Used, CheckIn, staff)];
    a := Done(used);
  }

  /** checkinTicket with the direct-query path doing the work. */
  function CheckinTicketSpec(d: Db, number: Option<string>, staff: string, now: int): Step<Ticket>
  {
    if !Present(number) then Step(Err(NumberRequired), d)
    else
      var (a, d') := DirectCheckinSpec(d, number.value, staff, now);
      match a
      case Done(t) => Step(Ok(t), d')
      case Threw(e) => Step(Err(FailureFor(ErrorMessage(e))), d')
  }

  method CheckinTicket(db: Database, number: Option<string>, staff: string, now: int) returns (r: Result<Ticket>)
    requires db.Valid()
    modifies db
    ensures r == CheckinTicketSpec(old(db.Snapshot()), number, staff, now).result
    ensures db.Snapshot() == CheckinTicketSpec(old(db.Snapshot()), number, staff, now).db
    ensures db.Valid()
  {
    if !Present(number) {
      return Err(NumberRequired);
    }
    var a := CheckinWithDirectQuery(db, number.value, staff, now);
    match a
    case Done(t) => r := Ok(t);
    case Threw(e) => r := Err(FailureFor(ErrorMessage(e)));
  }

  /** What `await executeTransaction(...)` throws when the name is imported from a
      module that does not export it. */
  const MissingHelperText := "executeTransaction" + " is not a function"

  /** checkinTicket as written: the stored procedure is not part of this model and
      is taken to fail, so the fallback runs, and the fallback throws before doing
      anything because its transaction helper is undefined. */
  function CheckinTicketAsWritten(d: Db, number: Option<string>): Step<Ticket>
  {
    if !Present(number) then Step(Err(NumberRequired), d)
    else Step(Err(FailureFor(MissingHelperText)), d)
  }

  // "executeTransaction is not a function" has no 'y', 'C' or 'k'.
  lemma HelperTextLacksFirstPatterns()
    ensures !Contains(MissingHelperText, "already checked in") && !Contains(MissingHelperText, "cannot be checked in")
  {
    MissingCharExcludes(MissingHelperText, "already checked in", 6);
    MissingCharExcludes(MissingHelperText, "cannot be checked in", 7);
  }

  lemma HelperTextLacksLastPatterns()
    ensures !Contains(MissingHelperText, "Check-in is only allowed") && !Contains(MissingHelperText, "Ticket not found")
  {
    MissingCharExcludes(MissingHelperText, "Check-in is only allowed", 0);
    MissingCharExcludes(MissingHelperText, "Ticket not found", 3);
  }

  /** As written, no ticket can be checked in through the fallback: every request
      with a number is answered 500 and nothing changes. */
  lemma CheckinAsWrittenNeverSucceeds(d: Db, number: Option<string>)
    requires Present(number)
    ensures CheckinTicketAsWritten(d, number) == Step(Err(CheckinFailed), d)
  {
    HelperTextLacksFirstPatterns();
    HelperTextLacksLastPatterns();
    FailureForOther(MissingHelperText);
  }

  /** A missing or empty ticket number is refused with 400 before any lookup, in
      the modelled handler and as written alike, and nothing is written. */
  lemma CheckinNumberRequired(d: Db, number: Option<string>, staff: string, now: int)
    ensures !Present(number) ==> CheckinTicketSpec(d, number, staff, now) == Step(Err(NumberRequired), d)
    ensures !Present(number) ==> CheckinTicketAsWritten(d, number) == Step(Err(NumberRequired), d)
    ensures Present(number) ==> CheckinTicketSpec(d, number, staff, now).result != Err(NumberRequired)
  {
  }

  /** Unknown ticket (or one whose showtime is missing from the join) 404; USED 409;
      any other status but CONFIRMED 400, before the clock is looked at; a refusal
      writes nothing. */
  lemma CheckinStatusChecks(d: Db, n: TicketNumber, staff: string, now: int)
    requires n != ""
    ensures var r := CheckinTicketSpec(d, Some(n), staff, now);
      && (n !in d.tickets || d.tickets[n].showtimeId !in d.showtimes ==> r.result == Err(NotFoundFailure))
      && (n in d.tickets && d.tickets[n].showtimeId in d.showtimes && d.tickets[n].status == Used
          ==> r.result == Err(AlreadyCheckedInFailure))
      && (n in d.tickets && d.tickets[n].showtimeId in d.showtimes
          && d.tickets[n].status in {TicketStatus.Reserved, TicketStatus.Cancelled}
          ==> r.result == Err(InvalidStatusFailure))
      && (r.result.Err? ==> r.db == d)
  {
    var (a, _) := DirectCheckinSpec(d, n, staff, now);
    if a.Threw? {
      CheckinErrorStatus(a.error);
    }
  }

  /** For a CONFIRMED ticket the window is inclusive at both ends: check-in succeeds
      iff start - 30 min <= now <= start + 30 min; too early is refused 400 with the
      rounded minutes until the window opens, too late 500 with the rounded minutes
      since it closed. */
  lemma CheckinWindow(d: Db, n: TicketNumber, staff: string, now: int)
    requires n in d.tickets && d.tickets[n].showtimeId in d.showtimes && d.tickets[n].status == TicketStatus.Confirmed
    ensures var start := d.showtimes[d.tickets[n].showtimeId].startTime;
      var (a, _) := DirectCheckinSpec(d, n, staff, now);
      && (a.Done? <==> start - 30 * 60000 <= now <= start + 30 * 60000)
      && (now < start - 30 * 60000 ==> a == Threw(TooEarly(RoundedMinutes(start - 30 * 60000 - now))))
      && (now > start + 30 * 60000 ==> a == Threw(TooLate(RoundedMinutes(now - (start + 30 * 60000)))))
      && (n != "" && now < start - 30 * 60000 ==> CheckinTicketSpec(d, Some(n), staff, now).result == Err(OutsideWindowFailure))
      && (n != "" && now > start + 30 * 60000 ==> CheckinTicketSpec(d, Some(n), staff, now).result == Err(CheckinFailed))
  {
    var (a, _) := DirectCheckinSpec(d, n, staff, now);
    if a.Threw? {
      CheckinErrorStatus(a.error);
    }
  }

  /** A showtime at T: at T - 40 min the ticket is ten minutes early, at T + 40 min
      ten minutes late. */
  lemma CheckinWindowExamples(d: Db, n: TicketNumber, staff: string)
    requires n in d.tickets && d.tickets[n].showtimeId in d.showtimes && d.tickets[n].status == TicketStatus.Confirmed
    ensures var start := d.showtimes[d.tickets[n].showtimeId].startTime;
      && DirectCheckinSpec(d, n, staff, start - 40 * 60000).0 == Threw(TooEarly(10))
      && DirectCheckinSpec(d, n, staff, start + 40 * 60000).0 == Threw(TooLate(10))
  {
    RoundedMinutesValues();
  }

  /** A successful check-in marks exactly this ticket USED, checked in at `now` by
      `staff`, and appends one CHECK_IN history row CONFIRMED -> USED; no other
      table changes. */
  lemma CheckinEffects(d: Db, n: TicketNumber, staff: string, now: int)
    ensures var (a, d') := DirectCheckinSpec(d, n, staff, now);
      a.Done? ==>
        && n in d.tickets && d.tickets[n].status == TicketStatus.Confirmed
        && d'.tickets[n] == d.tickets[n].(status := Used, checkedIn := true, checkedInAt := Some(now), checkedInBy := Some(staff))
        && (forall m :: m in d.tickets && m != n ==> d'.tickets[m] == d.tickets[m])
        && d'.tickets.Keys == d.tickets.Keys
        && d'.checkinHistory == d.checkinHistory + [HistoryRow(d.tickets[n].ticketId, n, TicketStatus.Confirmed, Used, CheckIn, staff)]
        && d' == d.(tickets := d'.tickets, checkinHistory := d'.checkinHistory)
  {
  }

  /** A ticket is used once: after a successful check-in every later attempt, at
      any time, is answered 409. */
  lemma CheckinTwiceConflicts(d: Db, n: TicketNumber, staff: string, staff': string, now: int, later: int)
    requires n != ""
    requires CheckinTicketSpec(d, Some(n), staff, now).result.Ok?
    ensures CheckinTicketSpec(CheckinTicketSpec(d, Some(n), staff, now).db, Some(n), staff', later).result == Err(AlreadyCheckedInFailure)
  {
    AlreadyMaps409();
  }

  lemma CheckinKeepsConsistency(d: Db, n: TicketNumber, staff: string, now: int)
    requires Consistent(d)
    ensures Consistent(DirectCheckinSpec(d, n, staff, now).1)
  {
  }

  const StaffRoles := ["STAFF", "MANAGER", "ADMIN"]

  /** checkinController.requireStaff: a missing user, an empty role or a role outside
      STAFF, MANAGER, ADMIN is refused with 403. */
  function RequireStaff(user: Option<User>): (g: Gate)
    ensures g == Pass <==> user.Some? && user.value.role in {"STAFF", "MANAGER", "ADMIN"}
    ensures g != Pass ==> g == Deny(Failure(403, "Access denied. Staff role required."))
  {
    if user.None? || user.value.role == "" || user.value.role !in StaffRoles then
      Deny(Failure(403, "Access denied. Staff role required."))
    else Pass
  }

  /** requireStaff and roleCheck's requireStaff admit the same users; they differ
      only for a request without a user, which the first refuses 403 and the
      second 401. */
  lemma RequireStaffMatchesRoleCheck(user: Option<User>)
    ensures RequireStaff(user).Pass? <==> RoleCheck.RequireStaff(user).Pass?
    ensures user.None? ==> RequireStaff(user).failure.status == 403 && RoleCheck.RequireStaff(user).failure.status == 401
  {
  }
}
