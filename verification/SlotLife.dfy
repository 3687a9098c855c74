/**
 * The other rows, one at a time: what each action does to a slot, to the codes, the challans and the
 * payment of a reservation, again without the functions of the services.
 */
module SlotLife {
  import opened Collections
  import opened Model
  import opened Billing
  import opened Lifecycle
  import opened Monitoring
  import opened Invariants
  import opened Runs
  import opened Safety
  import opened Money
  import opened Locality
  import opened Automaton

  // ------------------------------------------------------------------ one slot

  /** A vehicle is let into the slot. */
  ghost predicate VehicleComes(cfg: Config, s: State, a: Action, slot: Uuid) {
    exists id :: OnSlot(s, slot, id) && s.reservations[id].status == Confirmed && LetInBy(cfg, s, a, id)
  }

  ghost predicate VehicleLeaves(s: State, a: Action, slot: Uuid) {
    exists id :: OnSlot(s, slot, id) && InUse(s.reservations[id]) && PaidBy(s, a, id)
  }

  /** A booking of the slot is cancelled. A sweep that comes late frees the slot even if it was cancelled before. */
  ghost predicate BookingGoes(cfg: Config, s: State, a: Action, slot: Uuid) {
    exists id :: OnSlot(s, slot, id) && CancelledBy(cfg, s, a, id)
      && (s.reservations[id].status == Confirmed || a.SweepWrite?)
  }

  predicate Restrictable(s: State, ids: set<Uuid>) {
    forall id :: id in ids ==> id in s.slots && (s.slots[id].status == Available || s.slots[id].status == Maintenance)
  }

  ghost function SlotNext(cfg: Config, s: State, a: Action, slot: Uuid): Slot
    requires slot in s.slots
  {
    var w := s.slots[slot];
    match a
    case Book(req) =>
      if req.slot == slot && w.status == Available && Bookable(cfg, s, req) then w.(status := Reserved) else w
    case ScanIn(_, _) => if VehicleComes(cfg, s, a, slot) then w.(status := Occupied) else w
    case ScanOut(_) => if VehicleLeaves(s, a, slot) then w.(status := Available) else w
    case RestrictSlots(ids, maintenance) =>
      if slot in ids && Restrictable(s, ids) then w.(status := if maintenance then Maintenance else Available) else w
    case RepriceSlots(ids, price) => if slot in ids then w.(basePrice := price) else w
    case _ => if w.status == Reserved && BookingGoes(cfg, s, a, slot) then w.(status := Available) else w
  }

  lemma CancelSlotNext(cfg: Config, s: State, x: Uuid, requester: Uuid, isStaff: bool, slot: Uuid)
    requires slot in s.slots
    ensures var t := Cancel(s, x, requester, isStaff);
      slot in t.slots && t.slots[slot] == SlotNext(cfg, s, CancelBooking(x, requester, isStaff), slot)
  {
    if CancelOutcome(s, x, requester, isStaff) == Accepted && s.reservations[x].slot == slot {
      assert OnSlot(s, slot, x);
    }
  }

  lemma BlockSlotNext(cfg: Config, s: State, user: Uuid, requester: Uuid, slot: Uuid)
    requires slot in s.slots
    ensures var t := Block(s, user, requester);
      slot in t.slots && t.slots[slot] == SlotNext(cfg, s, BlockUser(user, requester), slot)
  {
    if BlockOutcome(s, user, requester) == Accepted {
      var ids := ConfirmedOf(s.reservations, user);
      CancelledSlot(s, slot, ids);
      SetOnSlot(cfg, s, BlockUser(user, requester), slot, ids);
    }
  }

  lemma SetOnSlot(cfg: Config, s: State, a: Action, slot: Uuid, ids: set<Uuid>)
    requires forall id :: id in s.reservations ==>
      (id in ids <==> s.reservations[id].status == Confirmed && CancelledBy(cfg, s, a, id))
    requires !a.SweepWrite?
    ensures SomeOnSlot(s, slot, ids) <==> BookingGoes(cfg, s, a, slot)
  {
    if SomeOnSlot(s, slot, ids) {
      var id :| id in ids && OnSlot(s, slot, id);
      assert CancelledBy(cfg, s, a, id);
    }
    if BookingGoes(cfg, s, a, slot) {
      var id :| OnSlot(s, slot, id) && CancelledBy(cfg, s, a, id) && s.reservations[id].status == Confirmed;
      assert id in ids;
    }
  }

  lemma TickSlotNext(cfg: Config, s: State, slot: Uuid)
    requires slot in s.slots && s.tick == Idle
    ensures slot in Tick(cfg, s).slots && Tick(cfg, s).slots[slot] == SlotNext(cfg, s, Monitor, slot)
  {
    CancelledSlot(s, slot, NoShows(cfg, s));
    SetOnSlot(cfg, s, Monitor, slot, NoShows(cfg, s));
  }

  lemma SweepSlotNext(cfg: Config, s: State, x: Uuid, slot: Uuid)
    requires TickOk(cfg, s) && slot in s.slots
    ensures slot in SweepStep(s, x).slots && SweepStep(s, x).slots[slot] == SlotNext(cfg, s, SweepWrite(x), slot)
  {
    if s.tick.Sweeping? && x in s.tick.noShows {
      assert OnSlot(s, s.reservations[x].slot, x) && CancelledBy(cfg, s, SweepWrite(x), x);
    }
  }

  lemma ScanInSlotNext(cfg: Config, s: State, token: Uuid, exitToken: Uuid, slot: Uuid)
    requires Inv(cfg, s) && slot in s.slots
    ensures var t := CheckIn(cfg, s, token, exitToken);
      slot in t.slots && t.slots[slot] == SlotNext(cfg, s, ScanIn(token, exitToken), slot)
  {
    WrongCodeAnswer(cfg, s, token, exitToken);
    if token in s.qrCodes && s.qrCodes[token].kind == CheckInCode {
      var id := s.qrCodes[token].reservation;
      CheckInAnswer(cfg, s, token, exitToken, id);
      assert OnSlot(s, s.reservations[id].slot, id);
    }
  }

  lemma ScanOutSlotNext(cfg: Config, s: State, token: Uuid, slot: Uuid)
    requires Inv(cfg, s) && slot in s.slots
    ensures var t := CheckOut(s, token);
      slot in t.slots && t.slots[slot] == SlotNext(cfg, s, ScanOut(token), slot)
  {
    WrongCodeAnswer(cfg, s, token, token);
    if token in s.qrCodes && s.qrCodes[token].kind == CheckOutCode {
      var id := s.qrCodes[token].reservation;
      CheckOutAnswer(cfg, s, token, id);
      ExitCodeOf(cfg, s, token, id);
      assert OnSlot(s, s.reservations[id].slot, id);
    }
  }

  lemma BookSlotNext(cfg: Config, s: State, req: BookingRequest, slot: Uuid)
    requires slot in s.slots
    ensures slot in Create(cfg, s, req).slots && Create(cfg, s, req).slots[slot] == SlotNext(cfg, s, Book(req), slot)
  {
    BookingAnswer(cfg, s, req);
  }

  lemma RequestSlotNext(cfg: Config, s: State, a: Action, slot: Uuid)
    requires IsRequest(a) && Inv(cfg, s) && slot in s.slots
    ensures var t := NextRequest(cfg, s, a); slot in t.slots && t.slots[slot] == SlotNext(cfg, s, a, slot)
  {
    match a
    case Book(req) => BookSlotNext(cfg, s, req, slot);
    case CancelBooking(x, requester, isStaff) => CancelSlotNext(cfg, s, x, requester, isStaff, slot);
    case BlockUser(user, requester) => BlockSlotNext(cfg, s, user, requester, slot);
    case ScanIn(token, exitToken) => ScanInSlotNext(cfg, s, token, exitToken, slot);
    case ScanOut(token) => ScanOutSlotNext(cfg, s, token, slot);
    case ConfirmCheckout(x, user) => PendingPaymentUnreachable(cfg, s, x, user);
    case FailCheckout(x, user) => PendingPaymentUnreachable(cfg, s, x, user);
  }

  lemma TickWriteSlotNext(cfg: Config, s: State, a: Action, slot: Uuid)
    requires IsTickWrite(a) && Inv(cfg, s) && slot in s.slots
    ensures var t := NextTickWrite(cfg, s, a); slot in t.slots && t.slots[slot] == SlotNext(cfg, s, a, slot)
  {
    match a
    case Monitor =>
      if s.tick == Idle {
        TickSlotNext(cfg, s, slot);
      }
    case SweepWrite(x) => SweepSlotNext(cfg, s, x, slot);
    case ResolveWrite(x) => TurnLeavesSlots(cfg, s, x);
  }

  lemma TurnLeavesSlots(cfg: Config, s: State, x: Uuid)
    requires Inv(cfg, s)
    ensures ResolveStep(cfg, s, x).slots == s.slots && ResolveStep(cfg, s, x).qrCodes == s.qrCodes
  {
  }

  /** Only a floor edit removes a slot, and only one that no reservation names. */
  predicate Removes(s: State, a: Action, slot: Uuid) {
    a == RemoveSlot(slot) && forall id :: id in s.reservations ==> s.reservations[id].slot != slot
  }

  lemma SlotEditNext(cfg: Config, s: State, a: Action, slot: Uuid)
    requires IsSlotEdit(a) && slot in s.slots
    ensures slot in NextSlots(s, a).slots <==> !Removes(s, a, slot)
    ensures slot in NextSlots(s, a).slots ==> NextSlots(s, a).slots[slot] == SlotNext(cfg, s, a, slot)
  {
    match a
    case RestrictSlots(ids, maintenance) => RestrictSlotNext(cfg, s, ids, maintenance, slot);
    case AddSlot(_, _, _) =>
    case RemoveSlot(other) => RemovalSlotNext(s, other, slot);
    case RepriceSlots(ids, price) => RepriceSlotNext(cfg, s, ids, price, slot);
  }

  lemma RestrictSlotNext(cfg: Config, s: State, ids: set<Uuid>, maintenance: bool, slot: Uuid)
    requires slot in s.slots
    ensures var t := Restrict(s, ids, maintenance);
      slot in t.slots && t.slots[slot] == SlotNext(cfg, s, RestrictSlots(ids, maintenance), slot)
  {
    if RestrictOutcome(s, ids) == Accepted {
      RestrictedSlots(s, ids, maintenance);
    }
  }

  lemma RemovalSlotNext(s: State, other: Uuid, slot: Uuid)
    requires slot in s.slots
    ensures var t := NextSlots(s, RemoveSlot(other));
      && (slot in t.slots <==> !Removes(s, RemoveSlot(other), slot))
      && (slot in t.slots ==> t.slots[slot] == s.slots[slot])
  {
    assert SlotReferenced(s, slot) <==> exists id :: id in s.reservations && s.reservations[id].slot == slot;
  }

  lemma RepriceSlotNext(cfg: Config, s: State, ids: set<Uuid>, price: int, slot: Uuid)
    requires slot in s.slots
    ensures var t := Reprice(s, ids, price);
      slot in t.slots && t.slots[slot] == SlotNext(cfg, s, RepriceSlots(ids, price), slot)
  {
  }

  lemma OtherSlotNext(cfg: Config, s: State, a: Action, slot: Uuid)
    requires IsSurrounding(a) && !IsSlotEdit(a) && slot in s.slots
    ensures SlotNext(cfg, s, a, slot) == s.slots[slot] && !Removes(s, a, slot)
  {
  }

  /** Every action does to every slot exactly what its life says. */
  lemma SlotFollows(cfg: Config, s: State, a: Action, slot: Uuid)
    requires Inv(cfg, s) && slot in s.slots
    ensures slot in Next(cfg, s, a).slots <==> !Removes(s, a, slot)
    ensures slot in Next(cfg, s, a).slots ==> Next(cfg, s, a).slots[slot] == SlotNext(cfg, s, a, slot)
  {
    if IsSlotEdit(a) {
      SlotEditNext(cfg, s, a, slot);
    } else if IsSurrounding(a) {
      OtherStep(cfg, s, a);
      OtherSlotNext(cfg, s, a, slot);
    } else if IsTickWrite(a) {
      TickWriteSlotNext(cfg, s, a, slot);
    } else {
      RequestSlotNext(cfg, s, a, slot);
    }
  }

  /** A slot comes into being exactly by a floor edit, and AVAILABLE. */
  lemma NewSlot(cfg: Config, s: State, a: Action, slot: Uuid)
    requires slot !in s.slots && Inv(cfg, s)
    ensures slot in Next(cfg, s, a).slots <==> a.AddSlot? && a.slot == slot
    ensures slot in Next(cfg, s, a).slots ==> Next(cfg, s, a).slots[slot] == Slot(a.lot, Available, a.basePrice)
  {
    if IsSlotEdit(a) {
      SlotEditAdds(s, a, slot);
    } else if IsSurrounding(a) {
      OtherStep(cfg, s, a);
    } else if IsTickWrite(a) {
      TickWriteAddsNoSlot(cfg, s, a, slot);
    } else {
      RequestAddsNoSlot(cfg, s, a, slot);
    }
  }

  lemma SlotEditAdds(s: State, a: Action, slot: Uuid)
    requires IsSlotEdit(a) && slot !in s.slots
    ensures slot in NextSlots(s, a).slots <==> a.AddSlot? && a.slot == slot
    ensures slot in NextSlots(s, a).slots ==> NextSlots(s, a).slots[slot] == Slot(a.lot, Available, a.basePrice)
  {
    match a
    case RestrictSlots(ids, maintenance) =>
    case AddSlot(_, _, _) =>
    case RemoveSlot(_) =>
    case RepriceSlots(_, _) =>
  }

  lemma TickWriteAddsNoSlot(cfg: Config, s: State, a: Action, slot: Uuid)
    requires IsTickWrite(a) && slot !in s.slots && Inv(cfg, s)
    ensures slot !in NextTickWrite(cfg, s, a).slots
  {
    match a
    case Monitor => CancelledSlot(s, slot, NoShows(cfg, s));
    case SweepWrite(x) =>
    case ResolveWrite(x) => TurnLeavesSlots(cfg, s, x);
  }

  lemma RequestAddsNoSlot(cfg: Config, s: State, a: Action, slot: Uuid)
    requires IsRequest(a) && slot !in s.slots && Inv(cfg, s)
    ensures slot !in NextRequest(cfg, s, a).slots
  {
    match a
    case Book(req) =>
    case CancelBooking(_, _, _) =>
    case BlockUser(user, _) => CancelledSlot(s, slot, ConfirmedOf(s.reservations, user));
    case ScanIn(token, exitToken) => ScansAddNoSlot(cfg, s, token, exitToken, slot);
    case ScanOut(token) => ScansAddNoSlot(cfg, s, token, token, slot);
    case ConfirmCheckout(x, user) => PendingPaymentUnreachable(cfg, s, x, user);
    case FailCheckout(x, user) => PendingPaymentUnreachable(cfg, s, x, user);
  }

  lemma ScansAddNoSlot(cfg: Config, s: State, token: Uuid, exitToken: Uuid, slot: Uuid)
    requires slot !in s.slots
    ensures slot !in CheckIn(cfg, s, token, exitToken).slots && slot !in CheckOut(s, token).slots
  {
  }

  // ------------------------------------------------------------------ the challans of one reservation

  function TickPrice(s: State, a: Action, id: Uuid): int
    requires id in s.reservations
  {
    if a.ResolveWrite? && s.tick.Resolving? && id in s.tick.active then s.tick.active[id].basePrice
    else if s.reservations[id].slot in s.slots then s.slots[s.reservations[id].slot].basePrice else 0
  }

  ghost predicate ChallansStay(s: State, t: State, id: Uuid) {
    forall k: ChallanKey :: k.reservation == id ==> SameChallan(s, t, k)
  }

  ghost predicate ChallansNext(cfg: Config, s: State, t: State, a: Action, id: Uuid)
    requires id in s.reservations
  {
    if s.reservations[id].status == CheckedIn && FoundOverdueBy(cfg, s, a, id)
    then Charged(cfg, s, t, id, Waited(cfg, s, a, id), TickPrice(s, a, id))
    else ChallansStay(s, t, id)
  }

  /**
   * A reservation is charged by nothing but a tick that finds its vehicle overdue: one challan, the
   * penalty or one hour, at the price of its slot as the tick has read it.
   */
  lemma ChallansFollow(cfg: Config, s: State, a: Action, id: Uuid)
    requires Inv(cfg, s) && id in s.reservations
    ensures ChallansNext(cfg, s, Next(cfg, s, a), a, id)
  {
    if IsTickWrite(a) {
      TickWriteCharges(cfg, s, a, id);
    } else {
      OthersLeaveChallans(cfg, s, a);
      SameChallansNext(cfg, s, Next(cfg, s, a), a, id);
    }
  }

  lemma OthersLeaveChallans(cfg: Config, s: State, a: Action)
    requires Inv(cfg, s) && !IsTickWrite(a)
    ensures Next(cfg, s, a).challans == s.challans
  {
    if IsSurrounding(a) {
      SurroundingStep(cfg, s, a);
    } else {
      RequestLeavesChallans(cfg, s, a);
    }
  }

  lemma SameChallansNext(cfg: Config, s: State, t: State, a: Action, id: Uuid)
    requires id in s.reservations && !IsTickWrite(a) && t.challans == s.challans
    ensures ChallansNext(cfg, s, t, a, id)
  {
  }

  lemma TickWriteCharges(cfg: Config, s: State, a: Action, id: Uuid)
    requires IsTickWrite(a) && Inv(cfg, s) && id in s.reservations
    ensures ChallansNext(cfg, s, NextTickWrite(cfg, s, a), a, id)
  {
    match a
    case Monitor =>
      if s.tick == Idle {
        TickCharges(cfg, s, id);
      }
    case SweepWrite(x) => SweepCharges(cfg, s, x, id);
    case ResolveWrite(x) => TurnCharges(cfg, s, x, id);
  }

  lemma SweepCharges(cfg: Config, s: State, x: Uuid, id: Uuid)
    requires id in s.reservations
    ensures ChallansNext(cfg, s, SweepStep(s, x), SweepWrite(x), id)
  {
  }

  lemma TickCharges(cfg: Config, s: State, id: Uuid)
    requires Inv(cfg, s) && id in s.reservations && s.tick == Idle
    ensures ChallansNext(cfg, s, Tick(cfg, s), Monitor, id)
  {
    var r := s.reservations[id];
    if r.status == CheckedIn && s.now >= r.endTime + cfg.buffer {
      OverdueTick(cfg, s, id);
      DueChallansNext(cfg, s, Tick(cfg, s), id);
    } else {
      NotDueLeavesChallans(cfg, s, id);
      NotDueChallansNext(cfg, s, Tick(cfg, s), id);
    }
  }

  lemma DueChallansNext(cfg: Config, s: State, t: State, id: Uuid)
    requires id in s.reservations && s.tick == Idle && s.reservations[id].slot in s.slots
    requires s.reservations[id].status == CheckedIn && s.now >= s.reservations[id].endTime + cfg.buffer
    requires Charged(cfg, s, t, id, SomebodyWaits(s.reservations, id, s.now - cfg.grace),
                     s.slots[s.reservations[id].slot].basePrice)
    ensures ChallansNext(cfg, s, t, Monitor, id)
  {
  }

  lemma NotDueChallansNext(cfg: Config, s: State, t: State, id: Uuid)
    requires id in s.reservations && ChallansStay(s, t, id)
    requires s.reservations[id].status == CheckedIn ==> s.now < s.reservations[id].endTime + cfg.buffer
    ensures ChallansNext(cfg, s, t, Monitor, id)
  {
  }

  lemma NotDueLeavesChallans(cfg: Config, s: State, id: Uuid)
    requires id in s.reservations
    requires s.reservations[id].status == CheckedIn ==> s.now < s.reservations[id].endTime + cfg.buffer
    ensures ChallansStay(s, Tick(cfg, s), id)
  {
    var swept := SweepAll(cfg, s);
    SweptRow(cfg, s, id);
    forall k: ChallanKey | k.reservation == id
      ensures SameChallan(s, Tick(cfg, s), k)
    {
      ChallanOfResolveAll(cfg, swept, ActiveRows(swept), s.now, k);
    }
  }

  lemma TurnCharges(cfg: Config, s: State, x: Uuid, id: Uuid)
    requires Inv(cfg, s) && id in s.reservations
    ensures ChallansNext(cfg, s, ResolveStep(cfg, s, x), ResolveWrite(x), id)
  {
    if s.tick.Resolving? && x in s.tick.active {
      assert Remembered(cfg, s.reservations, x, s.tick.active[x], s.tick.at);
      if id == x && s.tick.at >= s.reservations[x].endTime + cfg.buffer {
        OverdueTurn(cfg, s, x);
      } else {
        TurnLeavesChallans(cfg, s, x, s.tick.active[x], s.tick.at, id);
      }
    }
  }

  lemma TurnLeavesChallans(cfg: Config, s: State, x: Uuid, row: ActiveRow, at: int, id: Uuid)
    requires id != x || !GraceExpired(cfg, row, at)
    ensures ChallansStay(s, Resolve(cfg, s, x, row, at), id)
  {
  }

  // ------------------------------------------------------------------ payments

  /** A payment row is written exactly by a scan of the check-out code of a vehicle that is in. */
  lemma PaymentsFollow(cfg: Config, s: State, a: Action)
    requires Inv(cfg, s)
    ensures Next(cfg, s, a).payments ==
      if a.ScanOut? && a.token in s.qrCodes && s.qrCodes[a.token].kind == CheckOutCode
         && s.reservations[s.qrCodes[a.token].reservation].status != Completed
      then var id := s.qrCodes[a.token].reservation;
           s.payments[id := Payment(s.reservations[id].totalPrice + ChallanTotal(s.challans, id),
                                    if CardPays(s, s.reservations[id].user) then Successful else Failed)]
      else s.payments
  {
    if IsSurrounding(a) {
      SurroundingStep(cfg, s, a);
    } else if IsTickWrite(a) {
      TickWriteLeavesBookings(cfg, s, a);
    } else if a.ScanOut? {
      ScanOutPays(cfg, s, a.token);
    } else {
      RequestLeavesPayments(cfg, s, a);
    }
  }

  lemma ScanOutPays(cfg: Config, s: State, token: Uuid)
    requires Inv(cfg, s)
    ensures CheckOut(s, token).payments ==
      if token in s.qrCodes && s.qrCodes[token].kind == CheckOutCode
         && s.reservations[s.qrCodes[token].reservation].status != Completed
      then var id := s.qrCodes[token].reservation;
           s.payments[id := Payment(FinalCharge(s, id),
                                    if CardPays(s, s.reservations[id].user) then Successful else Failed)]
      else s.payments
  {
    WrongCodeAnswer(cfg, s, token, token);
    if token in s.qrCodes && s.qrCodes[token].kind == CheckOutCode {
      CheckOutAnswer(cfg, s, token, s.qrCodes[token].reservation);
    }
  }

  lemma RequestLeavesPayments(cfg: Config, s: State, a: Action)
    requires IsRequest(a) && !a.ScanOut? && Inv(cfg, s)
    ensures NextRequest(cfg, s, a).payments == s.payments
  {
    match a
    case Book(req) =>
    case CancelBooking(_, _, _) =>
    case BlockUser(_, _) =>
    case ScanIn(token, exitToken) =>
    case ConfirmCheckout(x, user) => PendingPaymentUnreachable(cfg, s, x, user);
    case FailCheckout(x, user) => PendingPaymentUnreachable(cfg, s, x, user);
  }

  // ------------------------------------------------------------------ codes

  /** A code is issued exactly by a booking or by letting a vehicle in. */
  lemma NewCode(cfg: Config, s: State, a: Action, code: Uuid)
    requires Inv(cfg, s) && code !in s.qrCodes
    ensures code in Next(cfg, s, a).qrCodes <==>
      (a.Book? && a.req.token == code && Bookable(cfg, s, a.req))
      || (a.ScanIn? && a.exitToken == code && exists id :: Enters(cfg, s, a, id))
    ensures a.ScanIn? && code in Next(cfg, s, a).qrCodes ==>
      exists id :: Enters(cfg, s, a, id) && Next(cfg, s, a).qrCodes[code] == QrCode(id, CheckOutCode, Active, None)
  {
    if IsSurrounding(a) {
      SurroundingStep(cfg, s, a);
    } else if IsTickWrite(a) {
      TickWriteAddsNoCode(cfg, s, a, code);
    } else {
      RequestCode(cfg, s, a, code);
    }
  }

  ghost predicate Enters(cfg: Config, s: State, a: Action, id: Uuid) {
    id in s.reservations && s.reservations[id].status == Confirmed && LetInBy(cfg, s, a, id)
  }

  lemma TickWriteAddsNoCode(cfg: Config, s: State, a: Action, code: Uuid)
    requires IsTickWrite(a) && Inv(cfg, s) && code !in s.qrCodes
    ensures code !in NextTickWrite(cfg, s, a).qrCodes
  {
    match a
    case Monitor =>
    case SweepWrite(x) =>
    case ResolveWrite(x) => TurnLeavesSlots(cfg, s, x);
  }

  lemma RequestCode(cfg: Config, s: State, a: Action, code: Uuid)
    requires IsRequest(a) && Inv(cfg, s) && code !in s.qrCodes
    ensures code in NextRequest(cfg, s, a).qrCodes <==>
      (a.Book? && a.req.token == code && Bookable(cfg, s, a.req))
      || (a.ScanIn? && a.exitToken == code && exists id :: Enters(cfg, s, a, id))
    ensures var t := NextRequest(cfg, s, a);
      a.ScanIn? && code in t.qrCodes ==>
      exists id :: Enters(cfg, s, a, id) && t.qrCodes[code] == QrCode(id, CheckOutCode, Active, None)
  {
    match a
    case Book(req) => BookingAnswer(cfg, s, req);
    case CancelBooking(_, _, _) =>
    case BlockUser(_, _) =>
    case ScanIn(token, exitToken) => ScanInCode(cfg, s, token, exitToken, code);
    case ScanOut(token) => CheckOutKeepsCodeSet(s, token);
    case ConfirmCheckout(x, user) => PendingPaymentUnreachable(cfg, s, x, user);
    case FailCheckout(x, user) => PendingPaymentUnreachable(cfg, s, x, user);
  }

  lemma CheckOutKeepsCodeSet(s: State, token: Uuid)
    ensures CheckOut(s, token).qrCodes.Keys == s.qrCodes.Keys
  {
  }

  lemma ScanInCode(cfg: Config, s: State, token: Uuid, exitToken: Uuid, code: Uuid)
    requires Inv(cfg, s) && code !in s.qrCodes
    ensures var t, a := CheckIn(cfg, s, token, exitToken), ScanIn(token, exitToken);
      && (code in t.qrCodes <==> exitToken == code && exists id :: Enters(cfg, s, a, id))
      && (code in t.qrCodes ==>
            exists id :: Enters(cfg, s, a, id) && t.qrCodes[code] == QrCode(id, CheckOutCode, Active, None))
  {
    WrongCodeAnswer(cfg, s, token, exitToken);
    if token in s.qrCodes && s.qrCodes[token].kind == CheckInCode {
      var id := s.qrCodes[token].reservation;
      CheckInAnswer(cfg, s, token, exitToken, id);
      assert CheckInOutcome(cfg, s, token, exitToken) == Accepted ==> Enters(cfg, s, ScanIn(token, exitToken), id);
    }
  }

  // ------------------------------------------------------------------ users

  function UserNext(s: State, a: Action, user: Uuid): User
    requires user in s.users
  {
    match a
    case BlockUser(x, requester) =>
      if x == user && requester != user then s.users[user].(isBlocked := true) else s.users[user]
    case SaveCard(x, last4) => if x == user then s.users[user].(cardLast4 := Some(last4)) else s.users[user]
    case _ => s.users[user]
  }

  /** A user row changes only by blocking that user or saving a card, and never disappears. */
  lemma UsersFollow(cfg: Config, s: State, a: Action, user: Uuid)
    requires Inv(cfg, s)
    ensures var t := Next(cfg, s, a).users;
      && (user in t <==> user in s.users || a == AddUser(user))
      && (user in t ==> t[user] == if user in s.users then UserNext(s, a, user) else User(false, None))
  {
    if IsSlotEdit(a) {
      SlotEditLeavesTick(s, a);
    } else if IsSurrounding(a) {
      OtherUsers(cfg, s, a, user);
    } else if IsTickWrite(a) {
      TickWriteLeavesUsers(cfg, s, a);
    } else if a.BlockUser? {
      BlockUsers(s, a.user, a.requester, user);
    } else {
      RequestLeavesUsers(cfg, s, a);
    }
  }

  lemma BlockUsers(s: State, blocked: Uuid, requester: Uuid, user: Uuid)
    ensures var t := Block(s, blocked, requester).users;
      t.Keys == s.users.Keys && (user in t ==> t[user] == UserNext(s, BlockUser(blocked, requester), user))
  {
  }

  lemma OtherUsers(cfg: Config, s: State, a: Action, user: Uuid)
    requires IsSurrounding(a) && !IsSlotEdit(a)
    ensures var t := NextOther(cfg, s, a).users;
      && (user in t <==> user in s.users || a == AddUser(user))
      && (user in t ==> t[user] == if user in s.users then UserNext(s, a, user) else User(false, None))
  {
    if a.AddUser? {
      UserAdded(cfg, s, a.user);
    } else if a.SaveCard? {
      CardSaved(cfg, s, a.user, a.last4);
    } else {
      OtherLeavesUsers(cfg, s, a);
    }
  }

  lemma UserAdded(cfg: Config, s: State, user: Uuid)
    ensures NextOther(cfg, s, AddUser(user)).users
         == if user in s.users then s.users else s.users[user := User(false, None)]
  {
  }

  lemma CardSaved(cfg: Config, s: State, user: Uuid, last4: string)
    ensures NextOther(cfg, s, SaveCard(user, last4)).users
         == if user in s.users then s.users[user := s.users[user].(cardLast4 := Some(last4))] else s.users
  {
  }

  lemma OtherLeavesUsers(cfg: Config, s: State, a: Action)
    requires IsSurrounding(a) && !IsSlotEdit(a) && !a.AddUser? && !a.SaveCard?
    ensures NextOther(cfg, s, a).users == s.users
  {
    match a
    case BeginSweep => assert s.(tick := Sweeping(NoShows(cfg, s))).users == s.users;
    case BeginResolve => assert s.(tick := Resolving(s.now, ActiveRows(s))).users == s.users;
    case EndTick =>
    case SetLotActive(lot, active) =>
    case Advance(elapsed) =>
  }

  lemma TickWriteLeavesUsers(cfg: Config, s: State, a: Action)
    requires IsTickWrite(a)
    ensures NextTickWrite(cfg, s, a).users == s.users
  {
    match a
    case Monitor =>
    case SweepWrite(x) =>
    case ResolveWrite(x) => TurnLeavesUsers(cfg, s, x);
  }

  lemma TurnLeavesUsers(cfg: Config, s: State, x: Uuid)
    ensures ResolveStep(cfg, s, x).users == s.users
  {
  }

  lemma RequestLeavesUsers(cfg: Config, s: State, a: Action)
    requires IsRequest(a) && !a.BlockUser? && Inv(cfg, s)
    ensures NextRequest(cfg, s, a).users == s.users
  {
    match a
    case Book(req) =>
    case CancelBooking(_, _, _) =>
    case ScanIn(token, exitToken) =>
    case ScanOut(token) =>
    case ConfirmCheckout(x, user) => PendingPaymentUnreachable(cfg, s, x, user);
    case FailCheckout(x, user) => PendingPaymentUnreachable(cfg, s, x, user);
  }
}
