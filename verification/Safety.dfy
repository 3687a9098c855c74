/** What holds in every state of every run. */
module Safety {
  import opened Model
  import opened Lifecycle
  import opened Monitoring
  import opened Invariants
  import opened Preservation
  import opened Runs

  // ------------------------------------------------------------------ what a running tick remembers stays true

  predicate IsRequest(a: Action) {
    !IsTickWrite(a) && !IsSurrounding(a)
  }

  lemma RequestLeavesTick(cfg: Config, s: State, a: Action)
    requires IsRequest(a)
    ensures NextRequest(cfg, s, a).tick == s.tick && NextRequest(cfg, s, a).now == s.now
  {
    match a
    case Book(req) => assert Create(cfg, s, req).tick == s.tick;
    case CancelBooking(_, _, _) =>
    case BlockUser(_, _) =>
    case ScanIn(token, exitToken) => ScansLeaveTick(cfg, s, token, exitToken);
    case ScanOut(token) => ScansLeaveTick(cfg, s, token, token);
    case ConfirmCheckout(x, user) => PaymentsLeaveTick(s, x, user);
    case FailCheckout(x, user) => PaymentsLeaveTick(s, x, user);
  }

  lemma ScansLeaveTick(cfg: Config, s: State, token: Uuid, exitToken: Uuid)
    ensures CheckIn(cfg, s, token, exitToken).tick == s.tick && CheckIn(cfg, s, token, exitToken).now == s.now
    ensures CheckOut(s, token).tick == s.tick && CheckOut(s, token).now == s.now
  {
  }

  lemma PaymentsLeaveTick(s: State, id: Uuid, user: Uuid)
    ensures ConfirmPayment(s, id, user).tick == s.tick && ConfirmPayment(s, id, user).now == s.now
    ensures FailPayment(s, id, user).tick == s.tick && FailPayment(s, id, user).now == s.now
  {
  }

  lemma CheckInLeavesEntered(cfg: Config, s: State, token: Uuid, exitToken: Uuid, id: Uuid)
    requires id in s.reservations && s.reservations[id].status == CheckedIn
    ensures var t := CheckIn(cfg, s, token, exitToken);
      id in t.reservations && t.reservations[id] == s.reservations[id]
  {
  }

  lemma CheckOutLeavesOthers(s: State, token: Uuid, id: Uuid)
    requires id in s.reservations && !(CheckOutOutcome(s, token) == Accepted && s.qrCodes[token].reservation == id)
    ensures var t := CheckOut(s, token);
      id in t.reservations && t.reservations[id] == s.reservations[id]
  {
  }

  /** A request moves a checked-in row only by a paid check-out. */
  lemma RequestKeepsCheckedIn(cfg: Config, s: State, a: Action, id: Uuid)
    requires IsRequest(a) && AllTimesOk(cfg, s.now, s.reservations) && CodesOk(cfg, s.qrCodes, s.reservations)
    requires id in s.reservations && s.reservations[id].status == CheckedIn
    requires !(a.ScanOut? && CheckOutOutcome(s, a.token) == Accepted && s.qrCodes[a.token].reservation == id)
    ensures id in NextRequest(cfg, s, a).reservations && NextRequest(cfg, s, a).reservations[id] == s.reservations[id]
  {
    match a
    case Book(req) => CreateLeavesRow(cfg, s, req, id);
    case CancelBooking(_, _, _) =>
    case BlockUser(_, _) =>
    case ScanIn(token, exitToken) => CheckInLeavesEntered(cfg, s, token, exitToken, id);
    case ScanOut(token) => CheckOutLeavesOthers(s, token, id);
    case ConfirmCheckout(x, user) => PendingPaymentUnreachable(cfg, s, x, user);
    case FailCheckout(x, user) => PendingPaymentUnreachable(cfg, s, x, user);
  }

  /** A request never moves an end time. */
  lemma RequestLeavesEnd(cfg: Config, s: State, a: Action, id: Uuid)
    requires IsRequest(a) && id in s.reservations
    ensures id in NextRequest(cfg, s, a).reservations
    ensures NextRequest(cfg, s, a).reservations[id].endTime == s.reservations[id].endTime
  {
    match a
    case Book(req) => CreateLeavesRow(cfg, s, req, id);
    case CancelBooking(_, _, _) =>
    case BlockUser(_, _) =>
    case ScanIn(token, exitToken) => ScansLeaveEnd(cfg, s, token, exitToken, id);
    case ScanOut(token) => ScansLeaveEnd(cfg, s, token, token, id);
    case ConfirmCheckout(x, user) => PaymentsLeaveEnd(s, x, user, id);
    case FailCheckout(x, user) => PaymentsLeaveEnd(s, x, user, id);
  }

  lemma CreateLeavesRow(cfg: Config, s: State, req: BookingRequest, id: Uuid)
    requires id in s.reservations
    ensures id in Create(cfg, s, req).reservations && Create(cfg, s, req).reservations[id] == s.reservations[id]
  {
  }

  lemma ScansLeaveEnd(cfg: Config, s: State, token: Uuid, exitToken: Uuid, id: Uuid)
    requires id in s.reservations
    ensures var t := CheckIn(cfg, s, token, exitToken);
      id in t.reservations && t.reservations[id].endTime == s.reservations[id].endTime
    ensures var t := CheckOut(s, token);
      id in t.reservations && t.reservations[id].endTime == s.reservations[id].endTime
  {
  }

  lemma PaymentsLeaveEnd(s: State, x: Uuid, user: Uuid, id: Uuid)
    requires id in s.reservations
    ensures var t := ConfirmPayment(s, x, user);
      id in t.reservations && t.reservations[id].endTime == s.reservations[id].endTime
    ensures FailPayment(s, x, user).reservations == s.reservations
  {
  }

  lemma RequestKeepsRemembered(cfg: Config, s: State, a: Action, id: Uuid)
    requires IsRequest(a) && Inv(cfg, s) && !RacesTick(cfg, s, a) && s.tick.Resolving? && id in s.tick.active
    ensures Remembered(cfg, NextRequest(cfg, s, a).reservations, id, s.tick.active[id], s.tick.at)
  {
    RequestLeavesEnd(cfg, s, a, id);
    RequestMovesRows(cfg, s, a);
    assert RowMove(cfg, s.now, s.reservations[id], NextRequest(cfg, s, a).reservations[id]);
    if GraceExpired(cfg, s.tick.active[id], s.tick.at) {
      RequestKeepsCheckedIn(cfg, s, a, id);
    }
  }

  lemma SweepStepKeepsTick(cfg: Config, s: State, x: Uuid)
    requires TickOk(cfg, s)
    ensures TickOk(cfg, SweepStep(s, x))
  {
  }

  lemma ResolveStepKeepsTick(cfg: Config, s: State, x: Uuid)
    requires TickOk(cfg, s)
    ensures TickOk(cfg, ResolveStep(cfg, s, x))
  {
    if s.tick.Resolving? && x in s.tick.active {
      ResolveKeepsRemembered(cfg, s, s.tick.active, x, s.tick.at);
      ResolveLeavesClock(cfg, s, x, s.tick.active[x], s.tick.at);
      RememberedTick(cfg, Resolve(cfg, s, x, s.tick.active[x], s.tick.at), s.tick.at, s.tick.active - {x});
    }
  }

  lemma ResolveLeavesClock(cfg: Config, s: State, id: Uuid, row: ActiveRow, at: int)
    ensures var t := Resolve(cfg, s, id, row, at);
      t.now == s.now && t.tick == s.tick && t.bookings == s.bookings && t.payments == s.payments
  {
  }

  lemma RememberedTick(cfg: Config, s: State, at: int, active: map<Uuid, ActiveRow>)
    requires at <= s.now && AllRemembered(cfg, s.reservations, active, at)
    ensures TickOk(cfg, s.(tick := Resolving(at, active)))
  {
  }

  lemma TickWriteKeepsTick(cfg: Config, s: State, a: Action)
    requires IsTickWrite(a) && TickOk(cfg, s)
    ensures TickOk(cfg, NextTickWrite(cfg, s, a))
  {
    match a
    case Monitor =>
    case SweepWrite(x) => SweepStepKeepsTick(cfg, s, x);
    case ResolveWrite(x) => ResolveStepKeepsTick(cfg, s, x);
  }

  lemma SurroundingKeepsTick(cfg: Config, s: State, a: Action)
    requires IsSurrounding(a) && TickOk(cfg, s)
    ensures TickOk(cfg, NextSurrounding(cfg, s, a))
  {
    if IsSlotEdit(a) {
      SlotEditLeavesTick(s, a);
    } else {
      OtherKeepsTick(cfg, s, a);
    }
  }

  lemma SlotEditLeavesTick(s: State, a: Action)
    requires IsSlotEdit(a)
    ensures NextSlots(s, a) == s.(slots := NextSlots(s, a).slots)
  {
  }

  lemma OtherKeepsTick(cfg: Config, s: State, a: Action)
    requires IsSurrounding(a) && !IsSlotEdit(a) && TickOk(cfg, s)
    ensures TickOk(cfg, NextOther(cfg, s, a))
  {
    match a
    case BeginSweep => assert TickOk(cfg, s.(tick := Sweeping(NoShows(cfg, s))));
    case BeginResolve => assert TickOk(cfg, s.(tick := Resolving(s.now, ActiveRows(s))));
    case EndTick =>
    case AddUser(user) =>
    case SaveCard(user, last4) =>
    case SetLotActive(lot, active) =>
    case Advance(elapsed) =>
  }

  /**
   * The sweep's memory is safe without any assumption: a remembered no-show cannot check in, because
   * its code expired before the sweep began.
   */
  lemma RequestKeepsTick(cfg: Config, s: State, a: Action)
    requires IsRequest(a) && Inv(cfg, s) && !RacesTick(cfg, s, a)
    ensures TickOk(cfg, NextRequest(cfg, s, a))
  {
    var t := NextRequest(cfg, s, a);
    RequestLeavesTick(cfg, s, a);
    match s.tick
    case Idle =>
    case Sweeping(noShows) =>
      RequestMovesRows(cfg, s, a);
      forall id | id in noShows
        ensures NoShowRow(cfg, t, id)
      {
        assert RowMove(cfg, s.now, s.reservations[id], t.reservations[id]);
      }
    case Resolving(at, active) =>
      forall id | id in active
        ensures Remembered(cfg, t.reservations, id, active[id], at)
      {
        RequestKeepsRemembered(cfg, s, a, id);
      }
  }

  lemma StepKeepsInv(cfg: Config, s: State, a: Action)
    requires Inv(cfg, s) && !RacesTick(cfg, s, a)
    ensures Inv(cfg, Next(cfg, s, a))
  {
    StepKeepsCore(cfg, s, a);
    if IsSurrounding(a) {
      SurroundingKeepsTick(cfg, s, a);
    } else if IsTickWrite(a) {
      TickWriteKeepsTick(cfg, s, a);
    } else {
      RequestKeepsTick(cfg, s, a);
    }
  }

  // ------------------------------------------------------------------ confirmed windows

  lemma ScanKeepsApart(cfg: Config, s: State, token: Uuid, exitToken: Uuid)
    requires ConfirmedApart(cfg, s.reservations)
    ensures ConfirmedApart(cfg, CheckIn(cfg, s, token, exitToken).reservations)
    ensures ConfirmedApart(cfg, CheckOut(s, token).reservations)
  {
    if CheckInOutcome(cfg, s, token, exitToken) == Accepted {
      CheckInKeepsApart(cfg, s.reservations, s.qrCodes[token].reservation, s.now);
    }
    if CheckOutOutcome(s, token) == Accepted {
      CheckOutKeepsApart(cfg, s.reservations, s.qrCodes[token].reservation);
    }
  }

  lemma BlockKeepsApart(cfg: Config, s: State, user: Uuid, requester: Uuid)
    requires Core(cfg, s) && ConfirmedApart(cfg, s.reservations)
    ensures ConfirmedApart(cfg, Block(s, user, requester).reservations)
  {
    CancelAllKeeps(cfg, s, ConfirmedOf(s.reservations, user));
  }

  lemma RequestKeepsApart(cfg: Config, s: State, a: Action)
    requires IsRequest(a) && Core(cfg, s) && ConfirmedApart(cfg, s.reservations)
    ensures ConfirmedApart(cfg, NextRequest(cfg, s, a).reservations)
  {
    match a
    case Book(req) =>
      if CreateOutcome(cfg, s, req) == Accepted {
        CreateKeepsApart(cfg, s, req);
      }
    case CancelBooking(id, _, _) =>
      if id in s.reservations && s.reservations[id].status == Confirmed {
        CancelKeepsApart(cfg, s.reservations, id);
      }
    case BlockUser(user, requester) => BlockKeepsApart(cfg, s, user, requester);
    case ScanIn(token, exitToken) => ScanKeepsApart(cfg, s, token, exitToken);
    case ScanOut(token) => ScanKeepsApart(cfg, s, token, token);
    case ConfirmCheckout(x, user) => PendingPaymentUnreachable(cfg, s, x, user);
    case FailCheckout(x, user) => PendingPaymentUnreachable(cfg, s, x, user);
  }

  lemma TickWriteKeepsApart(cfg: Config, s: State, a: Action)
    requires IsTickWrite(a) && Inv(cfg, s) && ConfirmedApart(cfg, s.reservations) && cfg.buffer > 0
    ensures ConfirmedApart(cfg, NextTickWrite(cfg, s, a).reservations)
  {
    match a
    case Monitor => TickKeeps(cfg, s);
    case SweepWrite(x) =>
      if s.tick.Sweeping? && x in s.tick.noShows {
        CancelKeepsApart(cfg, s.reservations, x);
      }
    case ResolveWrite(x) =>
      if s.tick.Resolving? && x in s.tick.active {
        ResolveKeepsApart(cfg, s, x, s.tick.active[x], s.tick.at);
      }
  }

  lemma StepKeepsApart(cfg: Config, s: State, a: Action)
    requires Inv(cfg, s) && ConfirmedApart(cfg, s.reservations) && cfg.buffer > 0
    ensures ConfirmedApart(cfg, Next(cfg, s, a).reservations)
  {
    if IsSurrounding(a) {
      SurroundingStep(cfg, s, a);
    } else if IsTickWrite(a) {
      TickWriteKeepsApart(cfg, s, a);
    } else {
      RequestKeepsApart(cfg, s, a);
    }
  }

  // ------------------------------------------------------------------ whole runs

  /** The joint invariant holds at the end of every run that starts in it. */
  lemma {:induction false} RunKeepsInv(cfg: Config, s: State, actions: seq<Action>)
    requires Inv(cfg, s) && Undisturbed(cfg, s, actions)
    ensures Inv(cfg, Run(cfg, s, actions))
    ensures cfg.buffer > 0 && ConfirmedApart(cfg, s.reservations) ==>
      ConfirmedApart(cfg, Run(cfg, s, actions).reservations)
    decreases |actions|
  {
    if actions != [] {
      StepKeepsInv(cfg, s, actions[0]);
      if cfg.buffer > 0 && ConfirmedApart(cfg, s.reservations) {
        StepKeepsApart(cfg, s, actions[0]);
      }
      RunKeepsInv(cfg, Next(cfg, s, actions[0]), actions[1..]);
    }
  }

  lemma InitialInv(cfg: Config, now: int)
    ensures Inv(cfg, Initial(now)) && ConfirmedApart(cfg, Initial(now).reservations)
  {
  }

  ghost predicate Reachable(cfg: Config, s: State) {
    exists now: int, actions: seq<Action> {:trigger Run(cfg, Initial(now), actions)} ::
      Undisturbed(cfg, Initial(now), actions) && Run(cfg, Initial(now), actions) == s
  }

  /** Every reachable state satisfies the joint invariant; with a positive buffer, confirmed windows are safe. */
  lemma ReachableInv(cfg: Config, s: State)
    requires Reachable(cfg, s)
    ensures Inv(cfg, s)
    ensures cfg.buffer > 0 ==> ConfirmedApart(cfg, s.reservations)
  {
    var now: int, actions: seq<Action> :|
      Undisturbed(cfg, Initial(now), actions) && Run(cfg, Initial(now), actions) == s;
    InitialInv(cfg, now);
    RunKeepsInv(cfg, Initial(now), actions);
  }

  // ------------------------------------------------------------------ booking records are append-only

  lemma StepKeepsBookings(cfg: Config, s: State, a: Action, id: Uuid)
    requires Inv(cfg, s) && id in s.bookings
    ensures id in Next(cfg, s, a).bookings && Next(cfg, s, a).bookings[id] == s.bookings[id]
  {
    if IsSurrounding(a) {
      SurroundingStep(cfg, s, a);
    } else if IsTickWrite(a) {
      TickWriteLeavesBookings(cfg, s, a);
    } else {
      RequestKeepsBookings(cfg, s, a, id);
    }
  }

  lemma TickLeavesBookings(cfg: Config, s: State)
    ensures Tick(cfg, s).bookings == s.bookings && Tick(cfg, s).payments == s.payments
  {
  }

  lemma TickWriteLeavesBookings(cfg: Config, s: State, a: Action)
    requires IsTickWrite(a)
    ensures NextTickWrite(cfg, s, a).bookings == s.bookings && NextTickWrite(cfg, s, a).payments == s.payments
  {
    match a
    case Monitor => TickLeavesBookings(cfg, s);
    case SweepWrite(x) => assert SweepStep(s, x).bookings == s.bookings && SweepStep(s, x).payments == s.payments;
    case ResolveWrite(x) =>
      if s.tick.Resolving? && x in s.tick.active {
        ResolveLeavesClock(cfg, s, x, s.tick.active[x], s.tick.at);
      }
  }

  lemma RequestKeepsBookings(cfg: Config, s: State, a: Action, id: Uuid)
    requires IsRequest(a) && id in s.bookings && s.bookings.Keys == s.reservations.Keys
    ensures id in NextRequest(cfg, s, a).bookings && NextRequest(cfg, s, a).bookings[id] == s.bookings[id]
  {
    match a
    case Book(req) =>
    case CancelBooking(_, _, _) =>
    case BlockUser(_, _) =>
    case ScanIn(token, exitToken) =>
    case ScanOut(token) =>
    case ConfirmCheckout(x, user) =>
    case FailCheckout(x, user) =>
  }

  /** Identity, slot, start, base price and booking record never change in a run. */
  lemma {:induction false} RunKeepsBooking(cfg: Config, s: State, actions: seq<Action>, id: Uuid)
    requires Inv(cfg, s) && Undisturbed(cfg, s, actions) && id in s.reservations
    ensures var t := Run(cfg, s, actions);
      && id in t.reservations && id in t.bookings && t.bookings[id] == s.bookings[id]
      && t.reservations[id].user == s.reservations[id].user && t.reservations[id].slot == s.reservations[id].slot
      && t.reservations[id].startTime == s.reservations[id].startTime
      && t.reservations[id].totalPrice == s.reservations[id].totalPrice
    decreases |actions|
  {
    if actions != [] {
      var a := actions[0];
      StepKeepsInv(cfg, s, a);
      StepMovesRows(cfg, s, a);
      assert RowMove(cfg, s.now, s.reservations[id], Next(cfg, s, a).reservations[id]);
      StepKeepsBookings(cfg, s, a, id);
      RunKeepsBooking(cfg, Next(cfg, s, a), actions[1..], id);
    }
  }

  // ------------------------------------------------------------------ new rows

  /** A row that was not there before is a fresh booking. */
  lemma NewRowsAreConfirmed(cfg: Config, s: State, a: Action, id: Uuid)
    requires References(s) && id !in s.reservations
    ensures id in Next(cfg, s, a).reservations ==> Next(cfg, s, a).reservations[id].status == Confirmed
  {
    if IsSurrounding(a) {
      SurroundingStep(cfg, s, a);
    } else if IsTickWrite(a) {
      TickWriteAddsNoRows(cfg, s, a);
    } else {
      RequestAddsConfirmed(cfg, s, a, id);
    }
  }

  lemma TickWriteAddsNoRows(cfg: Config, s: State, a: Action)
    requires IsTickWrite(a)
    ensures NextTickWrite(cfg, s, a).reservations.Keys == s.reservations.Keys
  {
    match a
    case Monitor => TickAddsNoRows(cfg, s);
    case SweepWrite(x) =>
    case ResolveWrite(x) => ResolveStepAddsNoRows(cfg, s, x);
  }

  lemma TickAddsNoRows(cfg: Config, s: State)
    ensures Tick(cfg, s).reservations.Keys == s.reservations.Keys
  {
  }

  lemma ResolveStepAddsNoRows(cfg: Config, s: State, id: Uuid)
    ensures ResolveStep(cfg, s, id).reservations.Keys == s.reservations.Keys
  {
    if s.tick.Resolving? && id in s.tick.active {
      ResolveAddsNoRows(cfg, s, id, s.tick.active[id], s.tick.at);
    }
  }

  lemma ResolveAddsNoRows(cfg: Config, s: State, id: Uuid, row: ActiveRow, at: int)
    ensures Resolve(cfg, s, id, row, at).reservations.Keys == s.reservations.Keys
  {
  }

  lemma RequestAddsConfirmed(cfg: Config, s: State, a: Action, id: Uuid)
    requires IsRequest(a) && id !in s.reservations
    ensures id in NextRequest(cfg, s, a).reservations ==> NextRequest(cfg, s, a).reservations[id].status == Confirmed
  {
    match a
    case Book(req) =>
    case CancelBooking(_, _, _) =>
    case BlockUser(user, _) =>
    case ScanIn(token, exitToken) =>
    case ScanOut(token) =>
    case ConfirmCheckout(x, user) =>
    case FailCheckout(x, user) =>
  }
}
