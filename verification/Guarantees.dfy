/** The promises of the reservation system, for every reachable state and every run. */
module Guarantees {
  import opened Collections
  import opened Model
  import opened Billing
  import opened Lifecycle
  import opened Monitoring
  import opened Invariants
  import opened Preservation
  import opened Runs
  import opened Safety
  import opened Money

  // ------------------------------------------------------------------ QR codes and status

  function CodesWith(qrCodes: map<Uuid, QrCode>, id: Uuid, kind: QrType): set<Uuid> {
    set t | t in qrCodes && qrCodes[t].reservation == id && qrCodes[t].kind == kind
  }

  /** What the status of a reservation says about its codes. */
  lemma CodesFollowStatus(cfg: Config, s: State, id: Uuid)
    requires Reachable(cfg, s) && id in s.reservations
    ensures var r := s.reservations[id];
      var entry, exit := CodesWith(s.qrCodes, id, CheckInCode), CodesWith(s.qrCodes, id, CheckOutCode);
      && (exists t :: entry == {t}
            && s.qrCodes[t].expiresAt == Some(r.startTime + cfg.grace)
            && s.qrCodes[t].status ==
                 (if r.status == Confirmed then Active else if r.status == Cancelled then Expired else Used))
      && (Entered(r) ==>
        exists t :: exit == {t} && s.qrCodes[t].expiresAt == None
          && s.qrCodes[t].status == (if r.status == Completed then Used else Active))
      && (!Entered(r) ==> exit == {})
  {
    ReachableInv(cfg, s);
    var r := s.reservations[id];
    assert CodesOf(cfg, s.qrCodes, id, r);
    var t :| t in s.qrCodes && s.qrCodes[t] == EntryCode(cfg, id, r);
    assert CodesWith(s.qrCodes, id, CheckInCode) == {t};
    if Entered(r) {
      var u :| u in s.qrCodes && s.qrCodes[u] == ExitCode(id, r);
      assert CodesWith(s.qrCodes, id, CheckOutCode) == {u};
    }
  }

  /** Codes are never reissued: a spent code stays spent. */
  ghost predicate CodesMove(a: map<Uuid, QrCode>, b: map<Uuid, QrCode>) {
    forall t :: t in a ==>
      t in b && b[t] == a[t].(status := b[t].status) && (b[t].status == Active ==> a[t].status == Active)
  }

  lemma CancelMovesCodes(s: State, ids: set<Uuid>)
    ensures CodesMove(s.qrCodes, CancelAll(s, ids).qrCodes)
  {
  }

  lemma CheckInMovesCodes(cfg: Config, s: State, token: Uuid, exitToken: Uuid)
    ensures CodesMove(s.qrCodes, CheckIn(cfg, s, token, exitToken).qrCodes)
  {
  }

  lemma CheckOutMovesCodes(s: State, token: Uuid)
    ensures CodesMove(s.qrCodes, CheckOut(s, token).qrCodes)
  {
  }

  lemma CancelOneMovesCodes(s: State, id: Uuid, requester: Uuid, isStaff: bool)
    ensures CodesMove(s.qrCodes, Cancel(s, id, requester, isStaff).qrCodes)
  {
  }

  lemma BlockMovesCodes(s: State, user: Uuid, requester: Uuid)
    ensures CodesMove(s.qrCodes, Block(s, user, requester).qrCodes)
  {
    CancelMovesCodes(s, ConfirmedOf(s.reservations, user));
  }

  lemma RequestMovesCodes(cfg: Config, s: State, a: Action)
    requires IsRequest(a)
    ensures CodesMove(s.qrCodes, NextRequest(cfg, s, a).qrCodes)
  {
    match a
    case Book(req) => CreateMovesCodes(cfg, s, req);
    case CancelBooking(id, requester, isStaff) => CancelOneMovesCodes(s, id, requester, isStaff);
    case BlockUser(user, requester) => BlockMovesCodes(s, user, requester);
    case ScanIn(token, exitToken) => CheckInMovesCodes(cfg, s, token, exitToken);
    case ScanOut(token) => CheckOutMovesCodes(s, token);
    case ConfirmCheckout(x, user) => PaymentsMoveCodes(s, x, user);
    case FailCheckout(x, user) => PaymentsMoveCodes(s, x, user);
  }

  lemma PaymentsMoveCodes(s: State, id: Uuid, user: Uuid)
    ensures CodesMove(s.qrCodes, ConfirmPayment(s, id, user).qrCodes)
    ensures CodesMove(s.qrCodes, FailPayment(s, id, user).qrCodes)
  {
  }

  lemma CreateMovesCodes(cfg: Config, s: State, req: BookingRequest)
    ensures CodesMove(s.qrCodes, Create(cfg, s, req).qrCodes)
  {
  }

  lemma TickWriteMovesCodes(cfg: Config, s: State, a: Action)
    requires IsTickWrite(a)
    ensures CodesMove(s.qrCodes, NextTickWrite(cfg, s, a).qrCodes)
  {
    match a
    case Monitor => CancelMovesCodes(s, NoShows(cfg, s));
    case SweepWrite(x) => assert CodesMove(s.qrCodes, SweepStep(s, x).qrCodes);
    case ResolveWrite(x) => assert ResolveStep(cfg, s, x).qrCodes == s.qrCodes;
  }

  lemma StepMovesCodes(cfg: Config, s: State, a: Action)
    requires References(s)
    ensures CodesMove(s.qrCodes, Next(cfg, s, a).qrCodes)
  {
    if IsSurrounding(a) {
      SurroundingStep(cfg, s, a);
    } else if IsTickWrite(a) {
      TickWriteMovesCodes(cfg, s, a);
    } else {
      RequestMovesCodes(cfg, s, a);
    }
  }

  lemma {:induction false} RunMovesCodes(cfg: Config, s: State, actions: seq<Action>)
    requires Inv(cfg, s) && Undisturbed(cfg, s, actions)
    ensures CodesMove(s.qrCodes, Run(cfg, s, actions).qrCodes)
    decreases |actions|
  {
    if actions != [] {
      StepKeepsInv(cfg, s, actions[0]);
      StepMovesCodes(cfg, s, actions[0]);
      RunMovesCodes(cfg, Next(cfg, s, actions[0]), actions[1..]);
    }
  }

  /** A token that has let a vehicle in or out is refused at every later scan of the run. */
  lemma TokenWorksOnce(cfg: Config, s: State, scan: Action, token: Uuid, actions: seq<Action>)
    requires Inv(cfg, s) && !RacesTick(cfg, s, scan)
    requires (scan.ScanIn? && scan.token == token && CheckInOutcome(cfg, s, token, scan.exitToken) == Accepted)
          || (scan.ScanOut? && scan.token == token && CheckOutOutcome(s, token) == Accepted)
    requires Undisturbed(cfg, Next(cfg, s, scan), actions)
    ensures var t := Run(cfg, Next(cfg, s, scan), actions);
      forall kind: QrType :: ScanOutcome(t, token, kind).Refused?
  {
    StepKeepsInv(cfg, s, scan);
    RunMovesCodes(cfg, Next(cfg, s, scan), actions);
    SpentByScan(cfg, s, scan, token);
    SpentIsRefused(Run(cfg, Next(cfg, s, scan), actions), token);
  }

  lemma SpentIsRefused(s: State, token: Uuid)
    requires token in s.qrCodes && s.qrCodes[token].status != Active
    ensures forall kind: QrType :: ScanOutcome(s, token, kind).Refused?
  {
  }

  lemma SpentByScan(cfg: Config, s: State, scan: Action, token: Uuid)
    requires (scan.ScanIn? && scan.token == token && CheckInOutcome(cfg, s, token, scan.exitToken) == Accepted)
          || (scan.ScanOut? && scan.token == token && CheckOutOutcome(s, token) == Accepted)
    ensures var t := Next(cfg, s, scan); token in t.qrCodes && t.qrCodes[token].status == Used
  {
  }

  // ------------------------------------------------------------------ terminal states

  /** A completed or cancelled reservation never changes again. */
  lemma {:induction false} TerminalForGood(cfg: Config, s: State, actions: seq<Action>, id: Uuid)
    requires Inv(cfg, s) && Undisturbed(cfg, s, actions)
    requires id in s.reservations && !Live(s.reservations[id])
    ensures id in Run(cfg, s, actions).reservations && Run(cfg, s, actions).reservations[id] == s.reservations[id]
    decreases |actions|
  {
    if actions != [] {
      StepKeepsInv(cfg, s, actions[0]);
      StepMovesRows(cfg, s, actions[0]);
      assert RowMove(cfg, s.now, s.reservations[id], Next(cfg, s, actions[0]).reservations[id]);
      TerminalForGood(cfg, Next(cfg, s, actions[0]), actions[1..], id);
    }
  }

  lemma RequestKeepsPaid(cfg: Config, s: State, a: Action, id: Uuid)
    requires IsRequest(a) && AllTimesOk(cfg, s.now, s.reservations)
    requires id in s.reservations && s.reservations[id].status == Completed && id in s.payments
    ensures id in NextRequest(cfg, s, a).payments && NextRequest(cfg, s, a).payments[id] == s.payments[id]
  {
    match a
    case Book(req) =>
    case CancelBooking(_, _, _) =>
    case BlockUser(_, _) =>
    case ScanIn(token, exitToken) =>
    case ScanOut(token) => CheckOutKeepsPaid(s, token, id);
    case ConfirmCheckout(x, user) => PendingPaymentUnreachable(cfg, s, x, user);
    case FailCheckout(x, user) => PendingPaymentUnreachable(cfg, s, x, user);
  }

  /** A check-out writes the payment of the reservation it scans, which is in use. */
  lemma CheckOutKeepsPaid(s: State, token: Uuid, id: Uuid)
    requires id in s.reservations && s.reservations[id].status == Completed && id in s.payments
    ensures id in CheckOut(s, token).payments && CheckOut(s, token).payments[id] == s.payments[id]
  {
  }

  lemma StepKeepsPaid(cfg: Config, s: State, a: Action, id: Uuid)
    requires Inv(cfg, s) && id in s.reservations && s.reservations[id].status == Completed && id in s.payments
    ensures id in Next(cfg, s, a).payments && Next(cfg, s, a).payments[id] == s.payments[id]
  {
    if IsSurrounding(a) {
      SurroundingStep(cfg, s, a);
    } else if IsTickWrite(a) {
      TickWriteLeavesBookings(cfg, s, a);
    } else {
      RequestKeepsPaid(cfg, s, a, id);
    }
  }

  /**
   * A completed reservation has been paid, once and successfully, exactly what its row and challans
   * add up to; row, payment and bill stay that way for the rest of the run.
   */
  lemma {:induction false} PaidForGood(cfg: Config, s: State, actions: seq<Action>, id: Uuid)
    requires Inv(cfg, s) && Undisturbed(cfg, s, actions)
    requires id in s.reservations && s.reservations[id].status == Completed
    ensures var t := Run(cfg, s, actions);
      && id in s.payments && s.payments[id] == Payment(FinalCharge(s, id), Successful)
      && id in t.reservations && t.reservations[id] == s.reservations[id]
      && id in t.payments && t.payments[id] == s.payments[id]
      && FinalCharge(t, id) == FinalCharge(s, id)
    decreases |actions|
  {
    assert PaymentOk(s.challans, s.payments, id, s.reservations[id]);
    TerminalForGood(cfg, s, actions, id);
    if actions != [] {
      var next := Next(cfg, s, actions[0]);
      StepKeepsInv(cfg, s, actions[0]);
      StepKeepsPaid(cfg, s, actions[0], id);
      TerminalForGood(cfg, s, [actions[0]], id);
      assert Run(cfg, s, [actions[0]]) == next by {
        assert [actions[0]][1..] == [];
      }
      PaidForGood(cfg, next, actions[1..], id);
    }
  }

  // ------------------------------------------------------------------ what the atomicity assumption buys

  /**
   * The turn of a booking that has been paid for since the tick's read leaves its row alone exactly if it
   * was not due.
   */
  lemma TurnSparesCompletedIffNotDue(cfg: Config, s: State, token: Uuid)
    requires Inv(cfg, s) && CheckOutOutcome(s, token) == Accepted
    requires s.tick.Resolving? && s.qrCodes[token].reservation in s.tick.active
    ensures var id := s.qrCodes[token].reservation;
      var paid := CheckOut(s, token);
      ResolveStep(cfg, paid, id).reservations[id] == paid.reservations[id]
      <==> !GraceExpired(cfg, s.tick.active[id], s.tick.at)
  {
    var id := s.qrCodes[token].reservation;
    var row, paid := s.tick.active[id], CheckOut(s, token);
    PaidRow(s, token);
    if GraceExpired(cfg, row, s.tick.at) {
      NeverAlreadyProcessed(cfg, s, id, row, s.tick.at);
      var d := if Queued(paid.reservations, row.slot, row.endTime) then Penalise else Extend;
      assert Decide(cfg, paid, id, row, s.tick.at) == d;
      ApplyEffect(cfg, paid, id, row, d);
    }
  }

  lemma PaidRow(s: State, token: Uuid)
    requires CheckOutOutcome(s, token) == Accepted
    ensures var id := s.qrCodes[token].reservation;
      var paid := CheckOut(s, token);
      && id in s.reservations && paid.reservations == s.reservations[id := s.reservations[id].(status := Completed)]
      && paid.challans == s.challans && paid.tick == s.tick
  {
  }

  ghost predicate RowStays(cfg: Config, s: State, actions: seq<Action>, id: Uuid)
    requires id in s.reservations
  {
    id in Run(cfg, s, actions).reservations && Run(cfg, s, actions).reservations[id] == s.reservations[id]
  }

  /** A race is followed by a turn that changes the completed row. */
  lemma RaceUndoesCompletion(cfg: Config, s: State, token: Uuid)
    requires Inv(cfg, s) && RacesTick(cfg, s, ScanOut(token))
    ensures var id := s.qrCodes[token].reservation;
      var paid := CheckOut(s, token);
      && id in paid.reservations
      && Undisturbed(cfg, paid, [ResolveWrite(id)]) && !RowStays(cfg, paid, [ResolveWrite(id)], id)
  {
    var id := s.qrCodes[token].reservation;
    var paid := CheckOut(s, token);
    PaidRow(s, token);
    TurnSparesCompletedIffNotDue(cfg, s, token);
    RunOfOneTurn(cfg, paid, id);
  }

  lemma RunOfOneTurn(cfg: Config, s: State, id: Uuid)
    ensures Undisturbed(cfg, s, [ResolveWrite(id)]) && Run(cfg, s, [ResolveWrite(id)]) == ResolveStep(cfg, s, id)
  {
    var next := Next(cfg, s, ResolveWrite(id));
    assert [ResolveWrite(id)][1..] == [];
    assert Run(cfg, next, []) == next && Undisturbed(cfg, next, []);
  }

  /**
   * The exact condition: a paid check-out completes its reservation for good, over every later run,
   * unless the tick has read the booking as overdue and not yet come to it; then some run undoes it.
   */
  lemma CompletionIsFinalIffNoRace(cfg: Config, s: State, token: Uuid)
    requires Inv(cfg, s) && CheckOutOutcome(s, token) == Accepted
    ensures var id := s.qrCodes[token].reservation;
      var paid := CheckOut(s, token);
      id in paid.reservations
      && ((forall actions :: Undisturbed(cfg, paid, actions) ==> RowStays(cfg, paid, actions, id))
          <==> !RacesTick(cfg, s, ScanOut(token)))
  {
    var id := s.qrCodes[token].reservation;
    var paid := CheckOut(s, token);
    PaidRow(s, token);
    if RacesTick(cfg, s, ScanOut(token)) {
      RaceUndoesCompletion(cfg, s, token);
    } else {
      NextScanOut(cfg, s, token);
      StepKeepsInv(cfg, s, ScanOut(token));
      forall actions | Undisturbed(cfg, paid, actions)
        ensures RowStays(cfg, paid, actions, id)
      {
        TerminalForGood(cfg, paid, actions, id);
      }
    }
  }

  lemma NextScanOut(cfg: Config, s: State, token: Uuid)
    ensures Next(cfg, s, ScanOut(token)) == CheckOut(s, token)
  {
  }

  /** In no reachable state is a reservation in PENDING_PAYMENT, and the endpoints that wait for it change nothing. */
  lemma PendingPaymentNeverReached(cfg: Config, s: State, id: Uuid, user: Uuid)
    requires Reachable(cfg, s)
    ensures id in s.reservations ==> s.reservations[id].status != PendingPayment
    ensures Next(cfg, s, ConfirmCheckout(id, user)) == s == Next(cfg, s, FailCheckout(id, user))
  {
    ReachableInv(cfg, s);
    PendingPaymentUnreachable(cfg, s, id, user);
  }

  /** The only check-out code of the reservation that can still be used. */
  predicate OnlyExitCode(s: State, token: Uuid, id: Uuid) {
    && token in s.qrCodes && s.qrCodes[token] == QrCode(id, CheckOutCode, Active, None)
    && forall t :: t in CodesWith(s.qrCodes, id, CheckOutCode) && s.qrCodes[t].status == Active ==> t == token
  }

  /**
   * Were there such a reservation, confirming its pending payment would end exactly where a paid scan of
   * its check-out code would, had it still been checked in.
   */
  lemma ConfirmIsPaidCheckOut(s: State, id: Uuid, token: Uuid)
    requires id in s.reservations && s.reservations[id].status == PendingPayment
    requires id in s.payments && s.payments[id].amount == FinalCharge(s, id)
    requires OnlyExitCode(s, token, id)
    ensures var r := s.reservations[id];
      var unpaid := s.(reservations := s.reservations[id := r.(status := CheckedIn)]);
      CheckOutOutcome(unpaid, token) == Accepted ==>
        && ConfirmPaymentOutcome(s, id, r.user) == Accepted
        && ConfirmPayment(s, id, r.user) == CheckOut(unpaid, token)
  {
    var r := s.reservations[id];
    var unpaid := s.(reservations := s.reservations[id := r.(status := CheckedIn)]);
    if CheckOutOutcome(unpaid, token) == Accepted {
      var paid, confirmed := CheckOut(unpaid, token), ConfirmPayment(s, id, r.user);
      assert paid.reservations == confirmed.reservations;
      assert paid.qrCodes == confirmed.qrCodes;
      assert FinalCharge(unpaid, id) == FinalCharge(s, id);
    }
  }

  /** A failed payment changes nothing but its own status; nobody but the customer can report either result. */
  lemma FailWritesOnePayment(s: State, id: Uuid, user: Uuid)
    requires id in s.reservations && s.reservations[id].status == PendingPayment && id in s.payments
    ensures FailPayment(s, id, s.reservations[id].user)
         == s.(payments := s.payments[id := Payment(s.payments[id].amount, Failed)])
    ensures user != s.reservations[id].user ==>
      ConfirmPayment(s, id, user) == s == FailPayment(s, id, user)
      && ConfirmPaymentOutcome(s, id, user) == Refused(Forbidden) == FailPaymentOutcome(s, id, user)
  {
  }

  // ------------------------------------------------------------------ the extension ladder

  function KeysOfKind(challans: map<ChallanKey, int>, id: Uuid, kind: ChallanType): set<ChallanKey> {
    set k | k in challans && k.reservation == id && k.kind == kind
  }

  /**
   * The end time has moved by whole hours, each hour was charged exactly once under the end time it
   * extended, and there is at most one penalty, keyed by the current end time.
   */
  lemma ExtensionLadder(cfg: Config, s: State, id: Uuid)
    requires Reachable(cfg, s) && id in s.reservations
    ensures id in s.bookings
    ensures var b, r := s.bookings[id], s.reservations[id];
      var penalties := KeysOfKind(s.challans, id, OvertimePenalty);
      && b.slot == r.slot && b.arrivalTime == r.startTime
      && Rungs(b, r) >= 0 && r.endTime == RungAt(b, Rungs(b, r))
      && KeysOfKind(s.challans, id, Extension) == RungKeys(id, b, Rungs(b, r))
      && penalties <= {ChallanKey(id, OvertimePenalty, r.endTime)}
      && (r.status == Overtime ==> penalties != {})
      && (r.status == Confirmed || r.status == CheckedIn || r.status == Cancelled ==> penalties == {})
  {
    ReachableInv(cfg, s);
    var b, r := s.bookings[id], s.reservations[id];
    assert Ladder(s.challans, id, b, r);
    ChallansOnLadder(s.challans, id, b, r);
    var extensions := KeysOfKind(s.challans, id, Extension);
    assert forall k :: k in extensions <==> k in ChallansOf(s.challans, id) && k.kind == Extension;
    assert forall k :: k in RungKeys(id, b, Rungs(b, r)) ==> k.kind == Extension;
    assert extensions == RungKeys(id, b, Rungs(b, r));
    if r.status == Overtime {
      assert ChallanKey(id, OvertimePenalty, r.endTime) in KeysOfKind(s.challans, id, OvertimePenalty);
    }
  }

  /** A booking whose grace period has expired when its turn comes is always either penalised or extended. */
  lemma NeverStuck(cfg: Config, s: State, id: Uuid)
    requires Reachable(cfg, s) && s.tick.Resolving? && id in s.tick.active
    requires GraceExpired(cfg, s.tick.active[id], s.tick.at)
    ensures id in s.reservations && s.reservations[id].status == CheckedIn
    ensures var t, r := Resolve(cfg, s, id, s.tick.active[id], s.tick.at), s.reservations[id];
      var queued := Queued(s.reservations, r.slot, r.endTime);
      var key := ChallanKey(id, if queued then OvertimePenalty else Extension, r.endTime);
      && t.reservations
        == s.reservations[id := if queued then r.(status := Overtime) else r.(endTime := r.endTime + HOUR)]
      && key !in s.challans && t.challans.Keys == s.challans.Keys + {key}
  {
    ReachableInv(cfg, s);
    var row := s.tick.active[id];
    var d := if Queued(s.reservations, row.slot, row.endTime) then Penalise else Extend;
    NeverAlreadyProcessed(cfg, s, id, row, s.tick.at);
    ApplyEffect(cfg, s, id, row, d);
  }

  lemma ApplyEffect(cfg: Config, s: State, id: Uuid, row: ActiveRow, d: Decision)
    requires id in s.reservations && d != Leave
    ensures var t := Apply(cfg, s, id, row, d);
      && t.reservations == s.reservations[id := RowAfter(s.reservations[id], row, d)]
      && t.challans.Keys == s.challans.Keys + {KeyOf(id, row, d)}
  {
  }

  // ------------------------------------------------------------------ the no-show sweep

  /**
   * However long a sweep takes and whatever happens in between, a remembered no-show has not checked
   * in and cannot, so the unconditional CANCELLED write never hits a vehicle.
   */
  lemma SweepNeverHitsAVehicle(cfg: Config, s: State, id: Uuid)
    requires Reachable(cfg, s) && s.tick.Sweeping? && id in s.tick.noShows
    ensures id in s.reservations
    ensures s.reservations[id].status == Confirmed || s.reservations[id].status == Cancelled
    ensures forall token, exitToken: Uuid :: token in s.qrCodes && s.qrCodes[token].reservation == id ==>
      CheckInOutcome(cfg, s, token, exitToken).Refused?
    ensures Next(cfg, s, SweepWrite(id)).reservations == s.reservations[id := s.reservations[id].(status := Cancelled)]
  {
    ReachableInv(cfg, s);
    assert NoShowRow(cfg, s, id);
    forall token, exitToken: Uuid | token in s.qrCodes && s.qrCodes[token].reservation == id
      ensures CheckInOutcome(cfg, s, token, exitToken).Refused?
    {
      if ScanOutcome(s, token, CheckInCode) == Accepted {
        ScannedEntryCode(cfg, s, token);
      }
    }
  }

  // ------------------------------------------------------------------ slot status

  /** A slot shown RESERVED has a confirmed booking, a slot shown OCCUPIED has a vehicle. */
  lemma SlotStatusIsHonest(cfg: Config, s: State, slot: Uuid)
    requires Reachable(cfg, s) && slot in s.slots
    ensures s.slots[slot].status == Reserved ==>
      exists id :: id in s.reservations && s.reservations[id].slot == slot && s.reservations[id].status == Confirmed
    ensures s.slots[slot].status == Occupied ==>
      exists id :: id in s.reservations && s.reservations[id].slot == slot && InUse(s.reservations[id])
  {
    ReachableInv(cfg, s);
    assert SlotCacheOk(s.slots[slot].status, s.reservations, slot);
  }
}
