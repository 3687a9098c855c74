/**
 * What staff discipline adds: when nobody is let into a slot that still holds a vehicle, the live
 * windows of a slot are pairwise disjoint and the slot status tells exactly whether it is taken.
 */
module OneCar {
  import opened Model
  import opened Lifecycle
  import opened Monitoring
  import opened Invariants
  import opened Preservation
  import opened Runs
  import opened Safety

  /** The discipline: the scanned reservation's slot is empty. `checkIn` itself does not test this. */
  predicate Disciplined(s: State, a: Action) {
    a.ScanIn? && a.token in s.qrCodes && s.qrCodes[a.token].reservation in s.reservations ==>
      !exists id :: id in s.reservations && InUse(s.reservations[id])
        && s.reservations[id].slot == s.reservations[s.qrCodes[a.token].reservation].slot
  }

  ghost predicate DisciplinedRun(cfg: Config, s: State, actions: seq<Action>)
    decreases |actions|
  {
    actions == [] || (Disciplined(s, actions[0]) && DisciplinedRun(cfg, Next(cfg, s, actions[0]), actions[1..]))
  }

  predicate Neighbours(a: Reservation, b: Reservation) {
    a.slot == b.slot && Live(a) && Live(b)
  }

  ghost predicate LiveWindowsApart(cfg: Config, rows: map<Uuid, Reservation>) {
    forall a, b :: a in rows && b in rows && a != b && Neighbours(rows[a], rows[b]) ==>
      Apart(cfg.buffer, rows[a], rows[b])
  }

  ghost predicate OneVehicle(rows: map<Uuid, Reservation>) {
    forall a, b :: a in rows && b in rows && InUse(rows[a]) && InUse(rows[b]) && rows[a].slot == rows[b].slot ==> a == b
  }

  ghost predicate TakenIsOccupied(rows: map<Uuid, Reservation>, slots: map<Uuid, Slot>) {
    forall id :: id in rows && InUse(rows[id]) ==>
      rows[id].slot in slots && slots[rows[id].slot].status == Occupied
  }

  /** A slot is OCCUPIED exactly if a vehicle is in it. */
  ghost predicate OccupiedExactly(s: State) {
    forall slot :: slot in s.slots ==> (s.slots[slot].status == Occupied <==> SomeInUse(s.reservations, slot))
  }

  ghost predicate Separate(s: State) {
    OneVehicle(s.reservations) && TakenIsOccupied(s.reservations, s.slots)
  }

  /** The reservation an accepted scan lets in. */
  predicate LetsIn(cfg: Config, s: State, a: Action, id: Uuid) {
    a.ScanIn? && CheckInOutcome(cfg, s, a.token, a.exitToken) == Accepted && s.qrCodes[a.token].reservation == id
  }

  predicate LetsOut(s: State, a: Action, id: Uuid) {
    a.ScanOut? && CheckOutOutcome(s, a.token) == Accepted && s.qrCodes[a.token].reservation == id
  }

  // ------------------------------------------------------------------ where a vehicle comes from

  lemma RequestVehicles(cfg: Config, s: State, a: Action, id: Uuid)
    requires IsRequest(a) && AllTimesOk(cfg, s.now, s.reservations)
    requires id in NextRequest(cfg, s, a).reservations && InUse(NextRequest(cfg, s, a).reservations[id])
    ensures id in s.reservations && (LetsIn(cfg, s, a, id) || (InUse(s.reservations[id]) && !LetsOut(s, a, id)))
  {
    match a
    case Book(req) =>
    case CancelBooking(_, _, _) =>
    case BlockUser(_, _) =>
    case ScanIn(token, exitToken) =>
    case ScanOut(token) =>
    case ConfirmCheckout(x, user) => PendingPaymentUnreachable(cfg, s, x, user);
    case FailCheckout(x, user) => PendingPaymentUnreachable(cfg, s, x, user);
  }

  lemma TickVehicles(cfg: Config, s: State, id: Uuid)
    requires id in Tick(cfg, s).reservations && InUse(Tick(cfg, s).reservations[id])
    ensures id in s.reservations && InUse(s.reservations[id])
  {
  }

  lemma ResolveVehicles(cfg: Config, s: State, x: Uuid, row: ActiveRow, at: int, id: Uuid)
    requires Remembered(cfg, s.reservations, x, row, at)
    requires id in Resolve(cfg, s, x, row, at).reservations && InUse(Resolve(cfg, s, x, row, at).reservations[id])
    ensures id in s.reservations && InUse(s.reservations[id])
  {
  }

  /** Every vehicle in a slot was there before, or this very scan let it in. */
  lemma StepVehicles(cfg: Config, s: State, a: Action, id: Uuid)
    requires Inv(cfg, s)
    requires id in Next(cfg, s, a).reservations && InUse(Next(cfg, s, a).reservations[id])
    ensures id in s.reservations && (LetsIn(cfg, s, a, id) || (InUse(s.reservations[id]) && !LetsOut(s, a, id)))
  {
    if IsSurrounding(a) {
      SurroundingStep(cfg, s, a);
    } else if IsTickWrite(a) {
      match a
      case Monitor =>
        if s.tick.Idle? {
          TickVehicles(cfg, s, id);
        }
      case SweepWrite(x) =>
      case ResolveWrite(x) =>
        if s.tick.Resolving? && x in s.tick.active {
          ResolveVehicles(cfg, s, x, s.tick.active[x], s.tick.at, id);
        }
    } else {
      RequestVehicles(cfg, s, a, id);
    }
  }

  // ------------------------------------------------------------------ an occupied slot stays occupied

  lemma RequestOccupied(cfg: Config, s: State, a: Action, slot: Uuid)
    requires IsRequest(a) && AllTimesOk(cfg, s.now, s.reservations)
    requires slot in s.slots && s.slots[slot].status == Occupied
    requires !(a.ScanOut? && CheckOutOutcome(s, a.token) == Accepted
               && s.reservations[s.qrCodes[a.token].reservation].slot == slot)
    ensures slot in NextRequest(cfg, s, a).slots && NextRequest(cfg, s, a).slots[slot].status == Occupied
  {
    match a
    case Book(req) =>
    case CancelBooking(_, _, _) =>
    case BlockUser(_, _) =>
    case ScanIn(token, exitToken) =>
    case ScanOut(token) =>
    case ConfirmCheckout(x, user) => PendingPaymentUnreachable(cfg, s, x, user);
    case FailCheckout(x, user) => PendingPaymentUnreachable(cfg, s, x, user);
  }

  lemma SlotEditOccupied(s: State, a: Action, slot: Uuid)
    requires IsSlotEdit(a) && slot in s.slots && s.slots[slot].status == Occupied && SlotReferenced(s, slot)
    ensures slot in NextSlots(s, a).slots && NextSlots(s, a).slots[slot].status == Occupied
  {
    match a
    case RestrictSlots(slots, maintenance) =>
    case AddSlot(_, _, _) =>
    case RemoveSlot(_) =>
    case RepriceSlots(_, _) =>
  }

  lemma TickWriteOccupied(cfg: Config, s: State, a: Action, slot: Uuid)
    requires IsTickWrite(a) && slot in s.slots && s.slots[slot].status == Occupied
    ensures slot in NextTickWrite(cfg, s, a).slots && NextTickWrite(cfg, s, a).slots[slot].status == Occupied
  {
    match a
    case Monitor => assert Tick(cfg, s).slots == SweepAll(cfg, s).slots;
    case SweepWrite(x) =>
    case ResolveWrite(x) =>
      if s.tick.Resolving? && x in s.tick.active {
        assert Resolve(cfg, s, x, s.tick.active[x], s.tick.at).slots == s.slots;
      }
  }

  lemma StepOccupied(cfg: Config, s: State, a: Action, slot: Uuid)
    requires Inv(cfg, s) && slot in s.slots && s.slots[slot].status == Occupied && SlotReferenced(s, slot)
    requires !(a.ScanOut? && CheckOutOutcome(s, a.token) == Accepted
               && s.reservations[s.qrCodes[a.token].reservation].slot == slot)
    ensures slot in Next(cfg, s, a).slots && Next(cfg, s, a).slots[slot].status == Occupied
  {
    if IsSlotEdit(a) {
      SlotEditOccupied(s, a, slot);
    } else if IsSurrounding(a) {
      OtherStep(cfg, s, a);
    } else if IsTickWrite(a) {
      TickWriteOccupied(cfg, s, a, slot);
    } else {
      RequestOccupied(cfg, s, a, slot);
    }
  }

  // ------------------------------------------------------------------ discipline keeps vehicles apart

  lemma StepKeepsOneVehicle(cfg: Config, s: State, a: Action)
    requires Inv(cfg, s) && Disciplined(s, a) && OneVehicle(s.reservations)
    ensures OneVehicle(Next(cfg, s, a).reservations)
  {
    var rows := Next(cfg, s, a).reservations;
    StepMovesRows(cfg, s, a);
    forall x, y | x in rows && y in rows && InUse(rows[x]) && InUse(rows[y]) && rows[x].slot == rows[y].slot
      ensures x == y
    {
      StepVehicles(cfg, s, a, x);
      StepVehicles(cfg, s, a, y);
      assert RowMove(cfg, s.now, s.reservations[x], rows[x]) && RowMove(cfg, s.now, s.reservations[y], rows[y]);
    }
  }

  /** The exact condition: a check-in puts a second vehicle into a slot unless the slot is empty. */
  lemma CheckInSafeIffSlotEmpty(cfg: Config, s: State, token: Uuid, exitToken: Uuid)
    requires Inv(cfg, s) && OneVehicle(s.reservations) && CheckInOutcome(cfg, s, token, exitToken) == Accepted
    ensures OneVehicle(CheckIn(cfg, s, token, exitToken).reservations) <==> Disciplined(s, ScanIn(token, exitToken))
  {
    if Disciplined(s, ScanIn(token, exitToken)) {
      StepKeepsOneVehicle(cfg, s, ScanIn(token, exitToken));
      NextScanIn(cfg, s, token, exitToken);
    } else {
      var other :| other in s.reservations && InUse(s.reservations[other])
        && s.reservations[other].slot == s.reservations[s.qrCodes[token].reservation].slot;
      SecondVehicle(cfg, s, token, exitToken, other);
    }
  }

  lemma NextScanIn(cfg: Config, s: State, token: Uuid, exitToken: Uuid)
    ensures Next(cfg, s, ScanIn(token, exitToken)) == CheckIn(cfg, s, token, exitToken)
  {
  }

  lemma SecondVehicle(cfg: Config, s: State, token: Uuid, exitToken: Uuid, other: Uuid)
    requires CheckInOutcome(cfg, s, token, exitToken) == Accepted
    requires other in s.reservations && InUse(s.reservations[other])
    requires s.reservations[other].slot == s.reservations[s.qrCodes[token].reservation].slot
    ensures !OneVehicle(CheckIn(cfg, s, token, exitToken).reservations)
  {
    var id := s.qrCodes[token].reservation;
    var rows := CheckIn(cfg, s, token, exitToken).reservations;
    assert id != other && InUse(rows[id]) && rows[other] == s.reservations[other];
  }

  lemma StepKeepsTaken(cfg: Config, s: State, a: Action)
    requires Inv(cfg, s) && Separate(s)
    ensures TakenIsOccupied(Next(cfg, s, a).reservations, Next(cfg, s, a).slots)
  {
    var t := Next(cfg, s, a);
    StepMovesRows(cfg, s, a);
    forall id | id in t.reservations && InUse(t.reservations[id])
      ensures t.reservations[id].slot in t.slots && t.slots[t.reservations[id].slot].status == Occupied
    {
      StepVehicles(cfg, s, a, id);
      assert RowMove(cfg, s.now, s.reservations[id], t.reservations[id]);
      if LetsIn(cfg, s, a, id) {
        ScanOccupies(cfg, s, a);
      } else {
        StepOccupied(cfg, s, a, s.reservations[id].slot);
      }
    }
  }

  lemma ScanOccupies(cfg: Config, s: State, a: Action)
    requires a.ScanIn? && CheckInOutcome(cfg, s, a.token, a.exitToken) == Accepted
    ensures var slot := s.reservations[s.qrCodes[a.token].reservation].slot;
      slot in Next(cfg, s, a).slots && Next(cfg, s, a).slots[slot].status == Occupied
  {
  }

  lemma {:induction false} RunKeepsSeparate(cfg: Config, s: State, actions: seq<Action>)
    requires Inv(cfg, s) && Separate(s) && Undisturbed(cfg, s, actions) && DisciplinedRun(cfg, s, actions)
    ensures Separate(Run(cfg, s, actions))
    decreases |actions|
  {
    if actions != [] {
      StepKeepsInv(cfg, s, actions[0]);
      StepKeepsOneVehicle(cfg, s, actions[0]);
      StepKeepsTaken(cfg, s, actions[0]);
      RunKeepsSeparate(cfg, Next(cfg, s, actions[0]), actions[1..]);
    }
  }

  /**
   * After any disciplined run, with a positive buffer: live windows of a slot are pairwise disjoint,
   * at most one vehicle is in a slot, and the slot is OCCUPIED exactly if one is.
   */
  lemma DisciplineSeparates(cfg: Config, now: int, actions: seq<Action>)
    requires cfg.buffer > 0
    requires Undisturbed(cfg, Initial(now), actions) && DisciplinedRun(cfg, Initial(now), actions)
    ensures var t := Run(cfg, Initial(now), actions);
      && LiveWindowsApart(cfg, t.reservations)
      && OneVehicle(t.reservations)
      && OccupiedExactly(t)
  {
    var t := Run(cfg, Initial(now), actions);
    InitialInv(cfg, now);
    RunKeepsInv(cfg, Initial(now), actions);
    RunKeepsSeparate(cfg, Initial(now), actions);
    forall slot | slot in t.slots
      ensures t.slots[slot].status == Occupied <==> SomeInUse(t.reservations, slot)
    {
      assert SlotCacheOk(t.slots[slot].status, t.reservations, slot);
    }
    LiveApart(cfg, t);
  }

  lemma LiveApart(cfg: Config, s: State)
    requires AllTimesOk(cfg, s.now, s.reservations) && ConfirmedApart(cfg, s.reservations) && OneVehicle(s.reservations)
    ensures LiveWindowsApart(cfg, s.reservations)
  {
    var rows := s.reservations;
    forall a, b | a in rows && b in rows && a != b && Neighbours(rows[a], rows[b])
      ensures Apart(cfg.buffer, rows[a], rows[b])
    {
      assert TimesOk(cfg, s.now, rows[a]) && TimesOk(cfg, s.now, rows[b]);
      if rows[a].status == Confirmed {
        assert Rivals(rows[a], rows[b]);
      } else {
        assert rows[b].status == Confirmed && Rivals(rows[b], rows[a]);
      }
    }
  }

  // ------------------------------------------------------------------ the actions that break it, and exactly when

  /** Another vehicle in the slot whose booking begins before the buffered end of an extension by one hour. */
  ghost predicate VehicleAhead(cfg: Config, rows: map<Uuid, Reservation>, id: Uuid, row: ActiveRow) {
    exists x :: x in rows && x != id && InUse(rows[x]) && rows[x].slot == row.slot
      && row.endTime < rows[x].startTime < row.endTime + HOUR + cfg.buffer
  }

  /**
   * The exact condition: the queue query looks for confirmed bookings only, so an extension makes live
   * windows meet if and only if another vehicle is already in the slot for a booking that begins before
   * the buffered end of the extension.
   */
  lemma ExtensionSafeIffNoVehicleAhead(cfg: Config, s: State, id: Uuid, row: ActiveRow, at: int)
    requires Core(cfg, s) && LiveWindowsApart(cfg, s.reservations) && cfg.buffer > 0
    requires FreshRow(s.reservations, id, row) && Decide(cfg, s, id, row, at) == Extend
    ensures LiveWindowsApart(cfg, Resolve(cfg, s, id, row, at).reservations)
       <==> !VehicleAhead(cfg, s.reservations, id, row)
  {
    var rows := s.reservations;
    ResolveExtends(cfg, s, id, row, at);
    if VehicleAhead(cfg, rows, id, row) {
      var x :| x in rows && x != id && InUse(rows[x]) && rows[x].slot == row.slot
        && row.endTime < rows[x].startTime < row.endTime + HOUR + cfg.buffer;
      ExtensionMeetsVehicle(cfg, s, id, x);
    } else {
      ExtensionKeepsLiveApart(cfg, s, id, row);
    }
  }

  lemma ExtensionMeetsVehicle(cfg: Config, s: State, id: Uuid, x: Uuid)
    requires Core(cfg, s) && cfg.buffer > 0 && id in s.reservations && s.reservations[id].status == CheckedIn
    requires x in s.reservations && x != id
    requires InUse(s.reservations[x]) && s.reservations[x].slot == s.reservations[id].slot
    requires s.reservations[id].endTime < s.reservations[x].startTime < s.reservations[id].endTime + HOUR + cfg.buffer
    ensures var longer := s.reservations[id].(endTime := s.reservations[id].endTime + HOUR);
      !LiveWindowsApart(cfg, s.reservations[id := longer])
  {
    var rows := s.reservations;
    var longer := rows[id].(endTime := rows[id].endTime + HOUR);
    LadderBound(cfg, s, id);
    LadderBound(cfg, s, x);
    assert Neighbours(rows[id := longer][id], rows[id := longer][x]);
  }

  lemma ResolveExtends(cfg: Config, s: State, id: Uuid, row: ActiveRow, at: int)
    requires FreshRow(s.reservations, id, row) && Decide(cfg, s, id, row, at) == Extend
    ensures Resolve(cfg, s, id, row, at).reservations
         == s.reservations[id := s.reservations[id].(endTime := s.reservations[id].endTime + HOUR)]
    ensures !Queued(s.reservations, row.slot, row.endTime)
  {
  }

  lemma ExtensionKeepsLiveApart(cfg: Config, s: State, id: Uuid, row: ActiveRow)
    requires Core(cfg, s) && LiveWindowsApart(cfg, s.reservations) && cfg.buffer > 0
    requires FreshRow(s.reservations, id, row) && !Queued(s.reservations, row.slot, row.endTime)
    requires !VehicleAhead(cfg, s.reservations, id, row)
    ensures var longer := s.reservations[id].(endTime := s.reservations[id].endTime + HOUR);
      LiveWindowsApart(cfg, s.reservations[id := longer])
  {
    var rows := s.reservations;
    var longer := rows[id].(endTime := rows[id].endTime + HOUR);
    forall x | x in rows && x != id && Neighbours(rows[x], longer)
      ensures Apart(cfg.buffer, rows[x], longer)
    {
      assert Neighbours(rows[x], rows[id]);
      assert TimesOk(cfg, s.now, rows[x]);
      assert InUse(rows[x]) || rows[x].status == Confirmed;
    }
    forall a, b | a in rows && b in rows && a != b && Neighbours(rows[id := longer][a], rows[id := longer][b])
      ensures Apart(cfg.buffer, rows[id := longer][a], rows[id := longer][b])
    {
      assert a != id && b != id ==> Neighbours(rows[a], rows[b]);
    }
  }

  /** Another vehicle in the slot of reservation `id`. */
  predicate SharesSlot(rows: map<Uuid, Reservation>, id: Uuid)
    requires id in rows
  {
    exists x :: x in rows && x != id && InUse(rows[x]) && rows[x].slot == rows[id].slot
  }

  lemma ExactlyIfTakenIsOccupied(cfg: Config, s: State)
    requires Core(cfg, s)
    ensures OccupiedExactly(s) <==> TakenIsOccupied(s.reservations, s.slots)
  {
    forall slot | slot in s.slots
      ensures SlotCacheOk(s.slots[slot].status, s.reservations, slot)
    {
    }
    if OccupiedExactly(s) {
      forall id | id in s.reservations && InUse(s.reservations[id])
        ensures s.slots[s.reservations[id].slot].status == Occupied
      {
        assert SomeInUse(s.reservations, s.reservations[id].slot);
      }
    }
  }

  /**
   * The exact condition: a paid check-out marks its slot AVAILABLE without looking, so OCCUPIED still
   * means that a vehicle is in if and only if no other vehicle was in that slot.
   */
  lemma CheckOutHonestIffAlone(cfg: Config, s: State, token: Uuid)
    requires Inv(cfg, s) && OccupiedExactly(s) && CheckOutOutcome(s, token) == Accepted
    ensures OccupiedExactly(CheckOut(s, token)) <==> !SharesSlot(s.reservations, s.qrCodes[token].reservation)
  {
    ExactlyIfTakenIsOccupied(cfg, s);
    CheckOutKeepsCore(cfg, s, token);
    ExactlyIfTakenIsOccupied(cfg, CheckOut(s, token));
    CheckOutKeepsTakenIffAlone(s, token);
  }

  lemma CheckOutKeepsTakenIffAlone(s: State, token: Uuid)
    requires TakenIsOccupied(s.reservations, s.slots) && CheckOutOutcome(s, token) == Accepted
    ensures TakenIsOccupied(CheckOut(s, token).reservations, CheckOut(s, token).slots)
       <==> !SharesSlot(s.reservations, s.qrCodes[token].reservation)
  {
    var id := s.qrCodes[token].reservation;
    var slot := s.reservations[id].slot;
    CheckOutWrites(s, token);
    if SharesSlot(s.reservations, id) {
      var x :| x in s.reservations && x != id && InUse(s.reservations[x]) && s.reservations[x].slot == slot;
      assert CheckOut(s, token).reservations[x] == s.reservations[x];
    }
  }

  lemma CheckOutWrites(s: State, token: Uuid)
    requires CheckOutOutcome(s, token) == Accepted
    ensures var id := s.qrCodes[token].reservation;
      var t, r := CheckOut(s, token), s.reservations[id];
      && t.reservations == s.reservations[id := r.(status := Completed)]
      && r.slot in s.slots && t.slots == s.slots[r.slot := s.slots[r.slot].(status := Available)]
  {
  }
}
