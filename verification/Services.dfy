/**
 * The services themselves: each method changes the tables step by step, as its source does, and is
 * proved to have exactly the effect of its specification in Lifecycle or Monitoring.
 */
module Services {
  import opened Collections
  import opened Model
  import opened Billing
  import opened Lifecycle
  import opened Monitoring

  /** What is still to be done in state `s` ends in `goal`. */
  ghost predicate LeadsTo(cfg: Config, s: State, rest: map<Uuid, ActiveRow>, at: int, goal: State) {
    ResolveAll(cfg, s, rest, at) == goal
  }

  lemma TurnLeadsOn(cfg: Config, s: State, rest: map<Uuid, ActiveRow>, id: Uuid, at: int, goal: State)
    requires LeadsTo(cfg, s, rest, at, goal) && id in rest
    requires forall x :: x in rest && x in s.reservations ==> s.reservations[x].status != Confirmed
    ensures LeadsTo(cfg, Resolve(cfg, s, id, rest[id], at), rest - {id}, at, goal)
  {
    ResolveAllSplit(cfg, s, rest, id, at);
  }

  class ParkingDatabase {
    const cfg: Config
    var now: int
    var users: map<Uuid, User>
    var lotActive: map<Uuid, bool>
    var slots: map<Uuid, Slot>
    var reservations: map<Uuid, Reservation>
    var qrCodes: map<Uuid, QrCode>
    var challans: map<ChallanKey, int>
    var payments: map<Uuid, Payment>
    var bookings: map<Uuid, BookingRecord>
    var isRunning: bool

    ghost function Snapshot(): State
      reads this
    {
      State(now, users, lotActive, slots, reservations, qrCodes, challans, payments, bookings, Idle)
    }

    constructor (cfg: Config, now: int)
      ensures this.cfg == cfg && !isRunning
      ensures Snapshot() == State(now, map[], map[], map[], map[], map[], map[], map[], map[], Idle)
    {
      this.cfg, this.now, isRunning := cfg, now, false;
      users, lotActive, slots, reservations := map[], map[], map[], map[];
      qrCodes, challans, payments, bookings := map[], map[], map[], map[];
    }

    // ---------------------------------------------------------------- ReservationService

    method Create(req: BookingRequest) returns (outcome: Outcome)
      modifies this
      ensures outcome == CreateOutcome(cfg, old(Snapshot()), req)
      ensures Snapshot() == Lifecycle.Create(cfg, old(Snapshot()), req)
      ensures isRunning == old(isRunning)
    {
      if req.durationMinutes < MIN_DURATION_MINUTES || req.durationMinutes > MAX_DURATION_MINUTES {
        return Refused(BadRequest);
      }
      if req.arrivalTime < now || req.arrivalTime >= req.latestArrival {
        return Refused(BadRequest);
      }
      var expectedCheckout := req.arrivalTime + req.durationMinutes * MINUTE;
      if req.slot !in slots {
        return Refused(NotFound);
      }
      var slot := slots[req.slot];
      if slot.lot !in lotActive || !lotActive[slot.lot] {
        return Refused(Conflict);
      }
      if Overlapping(cfg, reservations, req.slot, req.arrivalTime, expectedCheckout) {
        return Refused(SlotUnavailable);
      }
      var totalPrice := BaseCharge(slot.basePrice, req.durationMinutes);
      // Foreign and unique keys.
      if req.user !in users || req.id in reservations || req.token in qrCodes {
        return Refused(Conflict);
      }
      reservations := reservations[req.id :=
        Reservation(req.user, req.slot, req.arrivalTime, expectedCheckout, totalPrice, Confirmed, None)];
      if slots[req.slot].status == Available {
        slots := slots[req.slot := slots[req.slot].(status := Reserved)];
      }
      qrCodes := qrCodes[req.token := QrCode(req.id, CheckInCode, Active, Some(req.arrivalTime + cfg.grace))];
      bookings := bookings[req.id := BookingRecord(req.slot, req.arrivalTime, expectedCheckout, totalPrice)];
      outcome := Accepted;
    }

    method Cancel(id: Uuid, requester: Uuid, isStaff: bool) returns (outcome: Outcome)
      modifies this
      ensures outcome == CancelOutcome(old(Snapshot()), id, requester, isStaff)
      ensures Snapshot() == Lifecycle.Cancel(old(Snapshot()), id, requester, isStaff)
      ensures isRunning == old(isRunning)
    {
      if id !in reservations {
        return Refused(NotFound);
      }
      var reservation := reservations[id];
      if !isStaff && reservation.user != requester {
        return Refused(Forbidden);
      }
      if reservation.status != Confirmed {
        return Refused(Conflict);
      }
      CancelRow(id);
      outcome := Accepted;
    }

    /** The three updates of a cancellation, in order; three services repeat them. */
    method CancelRow(id: Uuid)
      requires id in reservations
      modifies this
      ensures Snapshot() == CancelWrites(old(Snapshot()), id)
      ensures isRunning == old(isRunning)
    {
      var reservation := reservations[id];
      reservations := reservations[id := reservation.(status := Cancelled)];
      if reservation.slot in slots && slots[reservation.slot].status == Reserved {
        slots := slots[reservation.slot := slots[reservation.slot].(status := Available)];
      }
      qrCodes := map t | t in qrCodes ::
        if qrCodes[t].reservation == id && qrCodes[t].kind == CheckInCode && qrCodes[t].status == Active
        then qrCodes[t].(status := Expired) else qrCodes[t];
    }

    method ConfirmCheckoutPayment(id: Uuid, user: Uuid) returns (outcome: Outcome)
      modifies this
      ensures outcome == ConfirmPaymentOutcome(old(Snapshot()), id, user)
      ensures Snapshot() == ConfirmPayment(old(Snapshot()), id, user)
      ensures isRunning == old(isRunning)
    {
      if id !in reservations {
        return Refused(NotFound);
      }
      var reservation := reservations[id];
      if reservation.user != user {
        return Refused(Forbidden);
      }
      if reservation.status != PendingPayment {
        return Refused(Conflict);
      }
      if id !in payments || reservation.slot !in slots {
        return Refused(NotFound);
      }
      payments := payments[id := payments[id].(status := Successful)];
      reservations := reservations[id := reservation.(status := Completed)];
      qrCodes := map t | t in qrCodes ::
        if qrCodes[t].reservation == id && qrCodes[t].kind == CheckOutCode && qrCodes[t].status == Active
        then qrCodes[t].(status := Used) else qrCodes[t];
      slots := slots[reservation.slot := slots[reservation.slot].(status := Available)];
      outcome := Accepted;
    }

    method FailCheckoutPayment(id: Uuid, user: Uuid) returns (outcome: Outcome)
      modifies this
      ensures outcome == FailPaymentOutcome(old(Snapshot()), id, user)
      ensures Snapshot() == FailPayment(old(Snapshot()), id, user)
      ensures isRunning == old(isRunning)
    {
      if id !in reservations {
        return Refused(NotFound);
      }
      if reservations[id].user != user {
        return Refused(Forbidden);
      }
      if reservations[id].status != PendingPayment {
        return Refused(Conflict);
      }
      if id !in payments {
        return Refused(NotFound);
      }
      payments := payments[id := payments[id].(status := Failed)];
      outcome := Accepted;
    }

    // ---------------------------------------------------------------- UsersService

    method Block(user: Uuid, requester: Uuid) returns (outcome: Outcome)
      modifies this
      ensures outcome == BlockOutcome(old(Snapshot()), user, requester)
      ensures Snapshot() == Lifecycle.Block(old(Snapshot()), user, requester)
      ensures isRunning == old(isRunning)
    {
      if user == requester {
        return Refused(BadRequest);
      }
      if user !in users {
        return Refused(NotFound);
      }
      users := users[user := users[user].(isBlocked := true)];
      var activeReservations := ConfirmedOf(reservations, user);
      CancelEach(activeReservations);
      outcome := Accepted;
    }

    /** A loop of cancellations, in whatever order the rows come back. */
    method CancelEach(ids: set<Uuid>)
      requires ids <= reservations.Keys
      modifies this
      ensures Snapshot() == CancelAll(old(Snapshot()), ids)
      ensures isRunning == old(isRunning)
    {
      ghost var done := {};
      var rest := ids;
      CancelAllNone(Snapshot());
      while rest != {}
        invariant rest + done == ids && rest !! done
        invariant reservations.Keys == old(reservations).Keys
        invariant Snapshot() == CancelAll(old(Snapshot()), done)
        invariant isRunning == old(isRunning)
        decreases rest
      {
        var id :| id in rest;
        CancelAllNext(old(Snapshot()), done, id);
        CancelRow(id);
        rest, done := rest - {id}, done + {id};
      }
      assert done == ids;
    }

    // ---------------------------------------------------------------- CheckpointService

    method LoadValidQrCode(token: Uuid, expected: QrType) returns (outcome: Outcome)
      modifies this
      ensures outcome == ScanOutcome(old(Snapshot()), token, expected)
      ensures Snapshot() == old(Snapshot()) && isRunning == old(isRunning)
    {
      if token !in qrCodes || qrCodes[token].reservation !in reservations {
        return Refused(NotFound);
      }
      var qr := qrCodes[token];
      if qr.kind != expected {
        return Refused(BadRequest);
      }
      if qr.status != Active {
        return Refused(Gone);
      }
      if qr.expiresAt.Some? && qr.expiresAt.value < now {
        var saved := qrCodes;
        qrCodes := qrCodes[token := qr.(status := Expired)];
        // The exception that follows rolls the enclosing transaction back.
        qrCodes := saved;
        return Refused(Gone);
      }
      outcome := Accepted;
    }

    method CheckIn(token: Uuid, exitToken: Uuid) returns (outcome: Outcome)
      modifies this
      ensures outcome == CheckInOutcome(cfg, old(Snapshot()), token, exitToken)
      ensures Snapshot() == Lifecycle.CheckIn(cfg, old(Snapshot()), token, exitToken)
      ensures isRunning == old(isRunning)
    {
      outcome := LoadValidQrCode(token, CheckInCode);
      if outcome != Accepted {
        return;
      }
      var qr := qrCodes[token];
      var reservation := reservations[qr.reservation];
      if reservation.status != Confirmed {
        return Refused(Conflict);
      }
      if now < reservation.startTime - cfg.early {
        return Refused(BadRequest);
      }
      if reservation.slot !in slots {
        return Refused(NotFound);
      }
      if exitToken in qrCodes {
        return Refused(Conflict);
      }
      qrCodes := qrCodes[token := qr.(status := Used)];
      reservations := reservations[qr.reservation := reservation.(status := CheckedIn, checkedInAt := Some(now))];
      slots := slots[reservation.slot := slots[reservation.slot].(status := Occupied)];
      qrCodes := qrCodes[exitToken := QrCode(qr.reservation, CheckOutCode, Active, None)];
    }

    method CheckOut(token: Uuid) returns (outcome: Outcome)
      modifies this
      ensures outcome == CheckOutOutcome(old(Snapshot()), token)
      ensures Snapshot() == Lifecycle.CheckOut(old(Snapshot()), token)
      ensures isRunning == old(isRunning)
    {
      outcome := LoadValidQrCode(token, CheckOutCode);
      if outcome != Accepted {
        return;
      }
      var qr := qrCodes[token];
      var id := qr.reservation;
      var reservation := reservations[id];
      if reservation.status == PendingPayment {
        return Refused(Conflict);
      }
      if reservation.status != CheckedIn && reservation.status != Overtime {
        return Refused(Conflict);
      }
      var totalCharge := CalculateFinalCharge(reservation.totalPrice, challans, id);
      var declined := CardDeclines(users, reservation.user);
      if !declined && reservation.slot !in slots {
        return Refused(NotFound);
      }
      payments := payments[id := Payment(totalCharge, if declined then Failed else Successful)];
      if declined {
        return Declined;
      }
      reservations := reservations[id := reservation.(status := Completed)];
      qrCodes := qrCodes[token := qr.(status := Used)];
      slots := slots[reservation.slot := slots[reservation.slot].(status := Available)];
    }

    // ---------------------------------------------------------------- ParkingSlotService

    /**
     * The rows found are counted against the list, so a list that repeats a slot is refused like one that
     * names no slot.
     */
    method BulkUpdateStatus(slotIds: seq<Uuid>, maintenance: bool) returns (outcome: Outcome)
      modifies this
      ensures !Distinct(slotIds) ==> outcome == Refused(NotFound) && Snapshot() == old(Snapshot())
      ensures Distinct(slotIds) ==>
        && outcome == RestrictOutcome(old(Snapshot()), Members(slotIds))
        && Snapshot() == Restrict(old(Snapshot()), Members(slotIds), maintenance)
      ensures isRunning == old(isRunning)
    {
      var ids := set id | id in slotIds && id in slots;
      MembersCount(slotIds);
      if |ids| != |slotIds| {
        if Distinct(slotIds) {
          assert ids != Members(slotIds);
        }
        return Refused(NotFound);
      }
      SubsetSize(ids, Members(slotIds));
      if exists id :: id in ids && (slots[id].status == Reserved || slots[id].status == Occupied) {
        return Refused(Conflict);
      }
      slots := map id | id in slots ::
        if id in ids then slots[id].(status := if maintenance then Maintenance else Available) else slots[id];
      outcome := Accepted;
    }

    // ---------------------------------------------------------------- ReservationMonitoringService

    /** One cron tick; a tick that finds the previous one still running does nothing. */
    method Monitor()
      modifies this
      ensures Snapshot() == if old(isRunning) then old(Snapshot()) else Tick(cfg, old(Snapshot()))
      ensures isRunning == old(isRunning)
    {
      if isRunning {
        return;
      }
      isRunning := true;
      CancelNoShows();
      ProcessActiveBookings();
      isRunning := false;
    }

    method CancelNoShows()
      modifies this
      ensures Snapshot() == SweepAll(cfg, old(Snapshot())) && isRunning == old(isRunning)
    {
      var cutoff := now - cfg.grace;
      var noShows := set id | id in reservations && reservations[id].status == Confirmed
        && reservations[id].startTime < cutoff;
      assert noShows == NoShows(cfg, Snapshot());
      CancelEach(noShows);
    }

    /** The `findMany` with its joined slots. */
    method FindActive() returns (active: map<Uuid, ActiveRow>)
      ensures active == ActiveRows(Snapshot())
    {
      active := map id | id in reservations && reservations[id].status == CheckedIn && reservations[id].slot in slots ::
        ActiveRow(reservations[id].slot, reservations[id].endTime, slots[reservations[id].slot].basePrice);
    }

    method ProcessActiveBookings()
      modifies this
      ensures Snapshot() == ResolveAll(cfg, old(Snapshot()), ActiveRows(old(Snapshot())), old(now))
      ensures isRunning == old(isRunning)
    {
      var active := FindActive();
      var at := now;
      var rest := active;
      ghost var reached := Snapshot();
      ghost var goal := ResolveAll(cfg, reached, active, at);
      while rest.Keys != {}
        invariant rest.Keys <= reservations.Keys && forall id :: id in rest ==> reservations[id].status != Confirmed
        invariant Snapshot() == reached && LeadsTo(cfg, reached, rest, at, goal)
        invariant isRunning == old(isRunning)
        decreases rest.Keys
      {
        var id :| id in rest.Keys;
        var row := rest[id];
        TurnLeadsOn(cfg, reached, rest, id, at, goal);
        TakeTurn(id, row, at);
        reached := Resolve(cfg, reached, id, row, at);
        rest := rest - {id};
      }
      assert rest == map[];
      ResolveAllNone(cfg, reached, at);
    }

    /** One pass of the loop, without its notifications. */
    method TakeTurn(id: Uuid, row: ActiveRow, at: int)
      requires id in reservations && reservations[id].status != Confirmed
      modifies this
      ensures Snapshot() == Resolve(cfg, old(Snapshot()), id, row, at)
      ensures reservations.Keys == old(reservations).Keys
      ensures forall x :: x in reservations && old(reservations)[x].status != Confirmed ==>
        reservations[x].status != Confirmed
      ensures isRunning == old(isRunning)
    {
      TurnAt(cfg, Snapshot(), id, row, at);
      if at >= row.endTime + cfg.buffer {
        ResolveGraceExpiry(id, row);
      }
    }

    method ResolveGraceExpiry(id: Uuid, row: ActiveRow)
      requires id in reservations && reservations[id].status != Confirmed
      modifies this
      ensures Snapshot() == Resolve(cfg, old(Snapshot()), id, row, row.endTime + cfg.buffer)
      ensures reservations.Keys == old(reservations).Keys
      ensures forall x :: x in reservations && old(reservations)[x].status != Confirmed ==>
        reservations[x].status != Confirmed
      ensures isRunning == old(isRunning)
    {
      if Queued(reservations, row.slot, row.endTime) {
        var key := ChallanKey(id, OvertimePenalty, row.endTime);
        if key !in challans {
          challans := challans[key := OvertimeCharge(cfg, row.basePrice)];
          reservations := reservations[id := reservations[id].(status := Overtime)];
        }
      } else {
        var key := ChallanKey(id, Extension, row.endTime);
        if key !in challans {
          challans := challans[key := row.basePrice];
          reservations := reservations[id := reservations[id].(endTime := row.endTime + HOUR)];
        }
      }
    }
  }
}
