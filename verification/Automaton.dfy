/**
 * The life of a single reservation and of a single slot: what each action does to one row, in one
 * definition for all the services, written without any of their functions. The step machine is
 * proved to do exactly this.
 */
module Automaton {
  import opened Collections
  import opened Model
  import opened Billing
  import opened Lifecycle
  import opened Monitoring
  import opened Invariants
  import opened Runs
  import opened Safety
  import opened CatchUp
  import opened Locality

  // ------------------------------------------------------------------ the causes of a change

  /** Its user or staff cancels it, its user is blocked, or the sweep finds it past its grace. */
  predicate CancelledBy(cfg: Config, s: State, a: Action, id: Uuid)
    requires id in s.reservations
  {
    var r := s.reservations[id];
    match a
    case CancelBooking(x, requester, isStaff) => x == id && (isStaff || requester == r.user)
    case BlockUser(user, requester) => user == r.user && requester != user && user in s.users
    case Monitor => s.tick == Idle && r.startTime + cfg.grace < s.now
    case SweepWrite(x) => x == id && s.tick.Sweeping? && x in s.tick.noShows
    case _ => false
  }

  /** A code of the reservation, of this kind. */
  predicate CodeFor(s: State, token: Uuid, kind: QrType, id: Uuid) {
    token in s.qrCodes && s.qrCodes[token].reservation == id && s.qrCodes[token].kind == kind
  }

  /** Its check-in code is scanned, neither too early nor too late. */
  predicate LetInBy(cfg: Config, s: State, a: Action, id: Uuid)
    requires id in s.reservations
  {
    a.ScanIn? && CodeFor(s, a.token, CheckInCode, id) && a.exitToken !in s.qrCodes
    && s.reservations[id].startTime - cfg.early <= s.now <= s.reservations[id].startTime + cfg.grace
  }

  /** Its check-out code is scanned, and the card on file pays. */
  predicate PaidBy(s: State, a: Action, id: Uuid)
    requires id in s.reservations
  {
    a.ScanOut? && CodeFor(s, a.token, CheckOutCode, id) && CardPays(s, s.reservations[id].user)
  }

  predicate CardPays(s: State, user: Uuid) {
    user in s.users && s.users[user].cardLast4.Some? && s.users[user].cardLast4 != Some("0000")
  }

  /** The tick finds it past its buffered end. */
  predicate FoundOverdueBy(cfg: Config, s: State, a: Action, id: Uuid)
    requires id in s.reservations
  {
    var due := s.reservations[id].endTime + cfg.buffer;
    match a
    case Monitor => s.tick == Idle && s.now >= due
    case ResolveWrite(x) => x == id && s.tick.Resolving? && id in s.tick.active && s.tick.at >= due
    case _ => false
  }

  /** A confirmed booking of the slot is still to come that the same tick has not just cancelled. */
  ghost predicate Waited(cfg: Config, s: State, a: Action, id: Uuid)
    requires id in s.reservations
  {
    SomebodyWaits(s.reservations, id, if a.Monitor? then s.now - cfg.grace else s.reservations[id].endTime)
  }

  // ------------------------------------------------------------------ one reservation

  ghost function RowNext(cfg: Config, s: State, a: Action, id: Uuid): Reservation
    requires id in s.reservations
  {
    var r := s.reservations[id];
    match r.status
    case Confirmed =>
      if CancelledBy(cfg, s, a, id) then r.(status := Cancelled)
      else if LetInBy(cfg, s, a, id) then r.(status := CheckedIn, checkedInAt := Some(s.now))
      else r
    case CheckedIn =>
      if PaidBy(s, a, id) then r.(status := Completed)
      else if !FoundOverdueBy(cfg, s, a, id) then r
      else if Waited(cfg, s, a, id) then r.(status := Overtime)
      else r.(endTime := r.endTime + 60 * 60_000)
    case Overtime => if PaidBy(s, a, id) then r.(status := Completed) else r
    case _ => r
  }

  // ------------------------------------------------------------------ the tick

  lemma TickRowNext(cfg: Config, s: State, id: Uuid)
    requires Inv(cfg, s) && id in s.reservations && s.tick == Idle
    ensures id in Tick(cfg, s).reservations && Tick(cfg, s).reservations[id] == RowNext(cfg, s, Monitor, id)
  {
    var q := TickedRowOf(cfg, s, id);
    RowNextOfTick(cfg, s, id, q);
  }

  /** One row after the tick. */
  ghost predicate Ticked(cfg: Config, s: State, id: Uuid, q: Reservation)
    requires id in s.reservations
  {
    var r := s.reservations[id];
    if r.status == CheckedIn && s.now >= r.endTime + cfg.buffer then
      q == if SomebodyWaits(s.reservations, id, s.now - cfg.grace) then r.(status := Overtime)
           else r.(endTime := r.endTime + HOUR)
    else TickedRow(cfg, s.now, r, q)
  }

  lemma TickedRowOf(cfg: Config, s: State, id: Uuid) returns (q: Reservation)
    requires Inv(cfg, s) && id in s.reservations
    ensures id in Tick(cfg, s).reservations && Tick(cfg, s).reservations[id] == q && Ticked(cfg, s, id, q)
  {
    TickRow(cfg, s, id);
    q := Tick(cfg, s).reservations[id];
    var r := s.reservations[id];
    if r.status == CheckedIn && s.now >= r.endTime + cfg.buffer {
      OverdueTick(cfg, s, id);
      ChargedRow(cfg, s, Tick(cfg, s), id, SomebodyWaits(s.reservations, id, s.now - cfg.grace),
                 s.slots[r.slot].basePrice);
    }
  }

  lemma RowNextOfTick(cfg: Config, s: State, id: Uuid, q: Reservation)
    requires id in s.reservations && s.tick == Idle && Ticked(cfg, s, id, q)
    ensures q == RowNext(cfg, s, Monitor, id)
  {
  }

  lemma ChargedRow(cfg: Config, s: State, t: State, id: Uuid, waits: bool, price: int)
    requires id in s.reservations && Charged(cfg, s, t, id, waits, price)
    ensures id in t.reservations
    ensures var r := s.reservations[id];
      t.reservations[id] == (if waits then r.(status := Overtime) else r.(endTime := r.endTime + HOUR))
  {
  }

  lemma SweepRowNext(cfg: Config, s: State, x: Uuid, id: Uuid)
    requires Inv(cfg, s) && id in s.reservations
    ensures id in SweepStep(s, x).reservations && SweepStep(s, x).reservations[id] == RowNext(cfg, s, SweepWrite(x), id)
  {
  }

  lemma ResolveRowNext(cfg: Config, s: State, x: Uuid, id: Uuid)
    requires Inv(cfg, s) && id in s.reservations
    ensures var t := ResolveStep(cfg, s, x);
      id in t.reservations && t.reservations[id] == RowNext(cfg, s, ResolveWrite(x), id)
  {
    if s.tick.Resolving? && x in s.tick.active {
      var row, at := s.tick.active[x], s.tick.at;
      assert Remembered(cfg, s.reservations, x, row, at);
      if id == x && at >= s.reservations[x].endTime + cfg.buffer {
        OverdueTurn(cfg, s, x);
        ChargedRow(cfg, s, ResolveStep(cfg, s, x), x, SomebodyWaits(s.reservations, x, s.reservations[x].endTime),
                   row.basePrice);
      } else {
        ResolveLeavesOthers(cfg, s, x, row, at, id);
      }
    }
  }

  lemma ResolveLeavesOthers(cfg: Config, s: State, x: Uuid, row: ActiveRow, at: int, id: Uuid)
    requires id in s.reservations && (id != x || !GraceExpired(cfg, row, at))
    ensures var t := Resolve(cfg, s, x, row, at); id in t.reservations && t.reservations[id] == s.reservations[id]
  {
  }

  // ------------------------------------------------------------------ the requests

  /** The check-in code of a reservation says when it may be used, and its status whether it has been. */
  lemma EntryCodeOf(cfg: Config, s: State, token: Uuid, id: Uuid)
    requires CodesOk(cfg, s.qrCodes, s.reservations) && id in s.reservations && CodeFor(s, token, CheckInCode, id)
    ensures s.qrCodes[token] == EntryCode(cfg, id, s.reservations[id])
  {
    assert CodesOf(cfg, s.qrCodes, id, s.reservations[id]);
  }

  lemma ExitCodeOf(cfg: Config, s: State, token: Uuid, id: Uuid)
    requires CodesOk(cfg, s.qrCodes, s.reservations) && id in s.reservations && CodeFor(s, token, CheckOutCode, id)
    ensures Entered(s.reservations[id]) && s.qrCodes[token] == ExitCode(id, s.reservations[id])
  {
    assert CodesOf(cfg, s.qrCodes, id, s.reservations[id]);
  }

  /** What `checkIn` answers, told from the reservation alone: a code that is spent or too late is gone. */
  lemma CheckInAnswer(cfg: Config, s: State, token: Uuid, exitToken: Uuid, id: Uuid)
    requires Inv(cfg, s) && id in s.reservations && CodeFor(s, token, CheckInCode, id)
    ensures var r := s.reservations[id];
      CheckInOutcome(cfg, s, token, exitToken) ==
        if r.status != Confirmed || s.now > r.startTime + cfg.grace then Refused(Gone)
        else if s.now < r.startTime - cfg.early then Refused(BadRequest)
        else if exitToken in s.qrCodes then Refused(Conflict)
        else Accepted
  {
    EntryCodeOf(cfg, s, token, id);
  }

  lemma CheckOutAnswer(cfg: Config, s: State, token: Uuid, id: Uuid)
    requires Inv(cfg, s) && id in s.reservations && CodeFor(s, token, CheckOutCode, id)
    ensures var r := s.reservations[id];
      CheckOutOutcome(s, token) ==
        if r.status == Completed then Refused(Gone) else if CardPays(s, r.user) then Accepted else Declined
  {
    ExitCodeOf(cfg, s, token, id);
    assert TimesOk(cfg, s.now, s.reservations[id]);
  }

  /** A token that no row has, or one for the other gate. */
  lemma WrongCodeAnswer(cfg: Config, s: State, token: Uuid, exitToken: Uuid)
    requires Inv(cfg, s)
    ensures token !in s.qrCodes ==>
      CheckInOutcome(cfg, s, token, exitToken) == Refused(NotFound) == CheckOutOutcome(s, token)
    ensures token in s.qrCodes && s.qrCodes[token].kind == CheckOutCode ==>
      CheckInOutcome(cfg, s, token, exitToken) == Refused(BadRequest)
    ensures token in s.qrCodes && s.qrCodes[token].kind == CheckInCode ==>
      CheckOutOutcome(s, token) == Refused(BadRequest)
  {
  }

  lemma ScanInRowNext(cfg: Config, s: State, token: Uuid, exitToken: Uuid, id: Uuid)
    requires Inv(cfg, s) && id in s.reservations
    ensures var t := CheckIn(cfg, s, token, exitToken);
      id in t.reservations && t.reservations[id] == RowNext(cfg, s, ScanIn(token, exitToken), id)
  {
    WrongCodeAnswer(cfg, s, token, exitToken);
    if token in s.qrCodes && s.qrCodes[token].kind == CheckInCode {
      CheckInAnswer(cfg, s, token, exitToken, s.qrCodes[token].reservation);
    }
  }

  lemma ScanOutRowNext(cfg: Config, s: State, token: Uuid, id: Uuid)
    requires Inv(cfg, s) && id in s.reservations
    ensures var t := CheckOut(s, token);
      id in t.reservations && t.reservations[id] == RowNext(cfg, s, ScanOut(token), id)
  {
    WrongCodeAnswer(cfg, s, token, token);
    if token in s.qrCodes && s.qrCodes[token].kind == CheckOutCode {
      CheckOutAnswer(cfg, s, token, s.qrCodes[token].reservation);
      ExitCodeOf(cfg, s, token, s.qrCodes[token].reservation);
    }
  }

  lemma CancelRowNext(cfg: Config, s: State, x: Uuid, requester: Uuid, isStaff: bool, id: Uuid)
    requires id in s.reservations
    ensures var t := Cancel(s, x, requester, isStaff);
      id in t.reservations && t.reservations[id] == RowNext(cfg, s, CancelBooking(x, requester, isStaff), id)
  {
  }

  lemma BlockRowNext(cfg: Config, s: State, user: Uuid, requester: Uuid, id: Uuid)
    requires id in s.reservations
    ensures var t := Block(s, user, requester);
      id in t.reservations && t.reservations[id] == RowNext(cfg, s, BlockUser(user, requester), id)
  {
  }

  lemma RequestRowNext(cfg: Config, s: State, a: Action, id: Uuid)
    requires IsRequest(a) && Inv(cfg, s) && id in s.reservations
    ensures var t := NextRequest(cfg, s, a); id in t.reservations && t.reservations[id] == RowNext(cfg, s, a, id)
  {
    match a
    case Book(req) => CreateLeavesRow(cfg, s, req, id);
    case CancelBooking(x, requester, isStaff) => CancelRowNext(cfg, s, x, requester, isStaff, id);
    case BlockUser(user, requester) => BlockRowNext(cfg, s, user, requester, id);
    case ScanIn(token, exitToken) => ScanInRowNext(cfg, s, token, exitToken, id);
    case ScanOut(token) => ScanOutRowNext(cfg, s, token, id);
    case ConfirmCheckout(x, user) => ReportRowNext(cfg, s, x, user, id);
    case FailCheckout(x, user) => ReportRowNext(cfg, s, x, user, id);
  }

  lemma ReportRowNext(cfg: Config, s: State, x: Uuid, user: Uuid, id: Uuid)
    requires Inv(cfg, s) && id in s.reservations
    ensures ConfirmPayment(s, x, user) == s == FailPayment(s, x, user)
    ensures RowNext(cfg, s, ConfirmCheckout(x, user), id) == s.reservations[id]
    ensures RowNext(cfg, s, FailCheckout(x, user), id) == s.reservations[id]
  {
    PendingPaymentUnreachable(cfg, s, x, user);
  }

  /** Every action does to every reservation exactly what its life cycle says. */
  lemma ReservationFollows(cfg: Config, s: State, a: Action, id: Uuid)
    requires Inv(cfg, s) && id in s.reservations
    ensures id in Next(cfg, s, a).reservations && Next(cfg, s, a).reservations[id] == RowNext(cfg, s, a, id)
  {
    if IsSurrounding(a) {
      SurroundingStep(cfg, s, a);
      SurroundingRowNext(cfg, s, a, id);
    } else if IsTickWrite(a) {
      TickWriteRowNext(cfg, s, a, id);
    } else {
      RequestRowNext(cfg, s, a, id);
    }
  }

  lemma SurroundingRowNext(cfg: Config, s: State, a: Action, id: Uuid)
    requires IsSurrounding(a) && id in s.reservations
    ensures RowNext(cfg, s, a, id) == s.reservations[id]
  {
  }

  lemma TickWriteRowNext(cfg: Config, s: State, a: Action, id: Uuid)
    requires IsTickWrite(a) && Inv(cfg, s) && id in s.reservations
    ensures var t := NextTickWrite(cfg, s, a); id in t.reservations && t.reservations[id] == RowNext(cfg, s, a, id)
  {
    match a
    case Monitor =>
      if s.tick == Idle {
        TickRowNext(cfg, s, id);
      }
    case SweepWrite(x) => SweepRowNext(cfg, s, x, id);
    case ResolveWrite(x) => ResolveRowNext(cfg, s, x, id);
  }

  // ------------------------------------------------------------------ new reservations

  predicate WhenAllowed(s: State, req: BookingRequest) {
    15 <= req.durationMinutes <= 1440 && s.now <= req.arrivalTime < req.latestArrival
  }

  predicate LotOpen(s: State, slot: Uuid)
    requires slot in s.slots
  {
    s.slots[slot].lot in s.lotActive && s.lotActive[s.slots[slot].lot]
  }

  /** No reservation of the slot that is not over comes within the buffer of the requested time. */
  ghost predicate TimeFree(cfg: Config, s: State, req: BookingRequest) {
    forall x :: x in s.reservations && s.reservations[x].slot == req.slot && !IsOver(s.reservations[x]) ==>
      s.reservations[x].endTime + cfg.buffer <= req.arrivalTime
      || req.arrivalTime + 60_000 * req.durationMinutes + cfg.buffer <= s.reservations[x].startTime
  }

  predicate IsOver(r: Reservation) {
    r.status == Cancelled || r.status == Completed
  }

  /** Foreign keys exist, unique keys are new. */
  predicate KeysOk(s: State, req: BookingRequest) {
    req.user in s.users && req.id !in s.reservations && req.token !in s.qrCodes
  }

  ghost predicate Bookable(cfg: Config, s: State, req: BookingRequest) {
    WhenAllowed(s, req) && req.slot in s.slots && LotOpen(s, req.slot) && TimeFree(cfg, s, req) && KeysOk(s, req)
  }

  /** Each answer of `create`, and exactly when it is given. */
  lemma BookingAnswer(cfg: Config, s: State, req: BookingRequest)
    ensures CreateOutcome(cfg, s, req) ==
      if !WhenAllowed(s, req) then Refused(BadRequest)
      else if req.slot !in s.slots then Refused(NotFound)
      else if !LotOpen(s, req.slot) then Refused(Conflict)
      else if !TimeFree(cfg, s, req) then Refused(SlotUnavailable)
      else if KeysOk(s, req) then Accepted else Refused(Conflict)
  {
    if Overlapping(cfg, s.reservations, req.slot, req.arrivalTime, req.Checkout()) {
      var x :| x in s.reservations && s.reservations[x].slot == req.slot && Live(s.reservations[x])
        && s.reservations[x].startTime < req.Checkout() + cfg.buffer
        && s.reservations[x].endTime > req.arrivalTime - cfg.buffer;
      assert !TimeFree(cfg, s, req);
    }
  }

  /** What a booking leaves behind: the row, its audit record and its check-in code. */
  ghost predicate HasBooked(cfg: Config, s: State, t: State, req: BookingRequest)
    requires req.slot in s.slots
  {
    && req.id in t.reservations
    && var r, end := t.reservations[req.id], req.arrivalTime + 60_000 * req.durationMinutes;
    && r == Reservation(req.user, req.slot, req.arrivalTime, end, r.totalPrice, Confirmed, None)
    && PricedByStartedHours(s.slots[req.slot].basePrice, req.durationMinutes, r.totalPrice)
    && t.bookings == s.bookings[req.id := BookingRecord(req.slot, req.arrivalTime, end, r.totalPrice)]
    && t.qrCodes == s.qrCodes[req.token := QrCode(req.id, CheckInCode, Active, Some(req.arrivalTime + cfg.grace))]
  }

  /** The rate times the hours started; no whole number of hours covers the time for less. */
  ghost predicate PricedByStartedHours(rate: int, minutes: int, price: int) {
    && (exists hours :: StartedHours(hours, minutes) && price == rate * hours)
    && (rate >= 0 ==> forall hours :: hours >= 1 && 60 * hours >= minutes ==> price <= rate * hours)
  }

  /** A reservation comes into being exactly by a booking of a free time, and as it was asked for. */
  lemma NewReservation(cfg: Config, s: State, a: Action, id: Uuid)
    requires Inv(cfg, s) && id !in s.reservations
    ensures id in Next(cfg, s, a).reservations <==> a.Book? && a.req.id == id && Bookable(cfg, s, a.req)
    ensures id in Next(cfg, s, a).reservations ==> HasBooked(cfg, s, Next(cfg, s, a), a.req)
  {
    if IsSurrounding(a) {
      SurroundingStep(cfg, s, a);
    } else if IsTickWrite(a) {
      TickWriteAddsNoRows(cfg, s, a);
    } else if a.Book? {
      BookingAnswer(cfg, s, a.req);
      BookingMade(cfg, s, a.req);
    } else {
      RequestAddsNoRow(cfg, s, a, id);
    }
  }

  lemma RequestAddsNoRow(cfg: Config, s: State, a: Action, id: Uuid)
    requires IsRequest(a) && !a.Book? && id !in s.reservations
    ensures id !in NextRequest(cfg, s, a).reservations
  {
    match a
    case CancelBooking(_, _, _) =>
    case BlockUser(user, _) =>
    case ScanIn(token, exitToken) =>
    case ScanOut(token) =>
    case ConfirmCheckout(x, user) =>
    case FailCheckout(x, user) =>
  }

  lemma BookingMade(cfg: Config, s: State, req: BookingRequest)
    ensures CreateOutcome(cfg, s, req) == Accepted ==> HasBooked(cfg, s, Create(cfg, s, req), req)
    ensures CreateOutcome(cfg, s, req) != Accepted ==> Create(cfg, s, req) == s
    ensures forall id :: id in Create(cfg, s, req).reservations ==> id in s.reservations || id == req.id
  {
    if CreateOutcome(cfg, s, req) == Accepted {
      BaseChargeIsStartedHours(s.slots[req.slot].basePrice, req.durationMinutes);
    }
  }

  // ------------------------------------------------------------------ blocking a user

  /** Blocking is for one user: all his confirmed bookings are cancelled, and nothing of anybody else's changes. */
  lemma BlockIsForOneUser(cfg: Config, s: State, user: Uuid, requester: Uuid)
    requires Inv(cfg, s) && requester != user && user in s.users
    ensures var t := Block(s, user, requester);
      && BlockOutcome(s, user, requester) == Accepted
      && t.reservations.Keys == s.reservations.Keys && t.qrCodes.Keys == s.qrCodes.Keys
      && (forall id :: id in s.reservations ==>
            t.reservations[id] == if s.reservations[id].user == user && s.reservations[id].status == Confirmed
                                  then s.reservations[id].(status := Cancelled) else s.reservations[id])
      && (forall c :: c in s.qrCodes && s.reservations[s.qrCodes[c].reservation].user != user ==>
            t.qrCodes[c] == s.qrCodes[c])
      && t.users == s.users[user := s.users[user].(isBlocked := true)]
      && t.payments == s.payments && t.challans == s.challans
  {
  }
}
