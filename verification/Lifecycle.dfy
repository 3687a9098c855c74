/**
 * What each service operation does to the database, as functions on the whole state: first the
 * outcome the guards decide, in source order, then the writes of an accepted call. A refused call
 * rolls its transaction back, so the state is unchanged.
 */
module Lifecycle {
  import opened Collections
  import opened Model
  import opened Billing

  // ------------------------------------------------------------------ shared writes

  /** `updateMany` RESERVED -> AVAILABLE on one slot. */
  function Release(slots: map<Uuid, Slot>, slot: Uuid): map<Uuid, Slot> {
    if slot in slots && slots[slot].status == Reserved
    then slots[slot := slots[slot].(status := Available)]
    else slots
  }

  /** `updateMany` ACTIVE -> EXPIRED on the check-in codes of one reservation. */
  function ExpireCheckIn(qrCodes: map<Uuid, QrCode>, id: Uuid): map<Uuid, QrCode> {
    map t | t in qrCodes ::
      if qrCodes[t].reservation == id && qrCodes[t].kind == CheckInCode && qrCodes[t].status == Active
      then qrCodes[t].(status := Expired)
      else qrCodes[t]
  }

  /** The three writes that end a reservation without a stay. */
  function CancelWrites(s: State, id: Uuid): State
    requires id in s.reservations
  {
    var r := s.reservations[id];
    s.(reservations := s.reservations[id := r.(status := Cancelled)],
       slots := Release(s.slots, r.slot),
       qrCodes := ExpireCheckIn(s.qrCodes, id))
  }

  // ------------------------------------------------------------------ ReservationService.create

  // `latestArrival` is the calendar-day limit; `id` and `token` are the generated identifiers.
  datatype BookingRequest = BookingRequest(
    user: Uuid, slot: Uuid, arrivalTime: int, durationMinutes: int, latestArrival: int, id: Uuid, token: Uuid)
  {
    function Checkout(): int { arrivalTime + durationMinutes * MINUTE }
  }

  function CreateOutcome(cfg: Config, s: State, req: BookingRequest): Outcome {
    if !(MIN_DURATION_MINUTES <= req.durationMinutes <= MAX_DURATION_MINUTES) then Refused(BadRequest)
    else if req.arrivalTime < s.now then Refused(BadRequest)
    else if req.arrivalTime >= req.latestArrival then Refused(BadRequest)
    else if req.slot !in s.slots then Refused(NotFound)
    else if s.slots[req.slot].lot !in s.lotActive || !s.lotActive[s.slots[req.slot].lot] then Refused(Conflict)
    else if Overlapping(cfg, s.reservations, req.slot, req.arrivalTime, req.Checkout()) then Refused(SlotUnavailable)
    else if req.user !in s.users || req.id in s.reservations || req.token in s.qrCodes then Refused(Conflict)
    else Accepted
  }

  function Create(cfg: Config, s: State, req: BookingRequest): State {
    if CreateOutcome(cfg, s, req) != Accepted then s else
    var slot := s.slots[req.slot];
    var price := BaseCharge(slot.basePrice, req.durationMinutes);
    s.(reservations := s.reservations[req.id :=
         Reservation(req.user, req.slot, req.arrivalTime, req.Checkout(), price, Confirmed, None)],
       slots := if slot.status == Available then s.slots[req.slot := slot.(status := Reserved)] else s.slots,
       qrCodes := s.qrCodes[req.token := QrCode(req.id, CheckInCode, Active, Some(req.arrivalTime + cfg.grace))],
       bookings := s.bookings[req.id := BookingRecord(req.slot, req.arrivalTime, req.Checkout(), price)])
  }

  // ------------------------------------------------------------------ ReservationService.cancel

  function CancelOutcome(s: State, id: Uuid, requester: Uuid, isStaff: bool): Outcome {
    if id !in s.reservations then Refused(NotFound)
    else if !isStaff && s.reservations[id].user != requester then Refused(Forbidden)
    else if s.reservations[id].status != Confirmed then Refused(Conflict)
    else Accepted
  }

  function Cancel(s: State, id: Uuid, requester: Uuid, isStaff: bool): State {
    if CancelOutcome(s, id, requester, isStaff) == Accepted then CancelWrites(s, id) else s
  }

  // ------------------------------------------------------------------ cancelling a whole set of rows

  /** The combined effect of the cancel writes on a set of reservations: a closed form without any order. */
  function CancelAll(s: State, ids: set<Uuid>): State {
    s.(reservations := map id | id in s.reservations ::
         if id in ids then s.reservations[id].(status := Cancelled) else s.reservations[id],
       slots := map slot | slot in s.slots ::
         if s.slots[slot].status == Reserved
            && exists id :: id in ids && id in s.reservations && s.reservations[id].slot == slot
         then s.slots[slot].(status := Available) else s.slots[slot],
       qrCodes := map t | t in s.qrCodes ::
         if s.qrCodes[t].reservation in ids && s.qrCodes[t].kind == CheckInCode && s.qrCodes[t].status == Active
         then s.qrCodes[t].(status := Expired) else s.qrCodes[t])
  }

  lemma CancelAllNone(s: State)
    ensures CancelAll(s, {}) == s
  {
    var c := CancelAll(s, {});
    assert c.reservations == s.reservations && c.slots == s.slots && c.qrCodes == s.qrCodes;
  }

  /** One more cancel after a set of them is the larger set, whichever row comes next. */
  lemma CancelAllNext(s: State, ids: set<Uuid>, id: Uuid)
    requires id in s.reservations
    ensures id in CancelAll(s, ids).reservations
    ensures CancelWrites(CancelAll(s, ids), id) == CancelAll(s, ids + {id})
  {
    var all, more := CancelAll(s, ids), CancelAll(s, ids + {id});
    ReleaseNext(s, ids, id);
    assert all.reservations[id := s.reservations[id].(status := Cancelled)] == more.reservations;
    assert ExpireCheckIn(all.qrCodes, id) == more.qrCodes;
  }

  lemma ReleaseNext(s: State, ids: set<Uuid>, id: Uuid)
    requires id in s.reservations
    ensures Release(CancelAll(s, ids).slots, s.reservations[id].slot) == CancelAll(s, ids + {id}).slots
  {
    var before, after := CancelAll(s, ids).slots, CancelAll(s, ids + {id}).slots;
    forall slot | slot in s.slots
      ensures Release(before, s.reservations[id].slot)[slot] == after[slot]
    {
      if slot == s.reservations[id].slot {
        assert id in ids + {id};
      } else {
        assert Release(before, s.reservations[id].slot)[slot] == before[slot];
      }
    }
  }

  // ------------------------------------------------------------------ UsersService.block

  function ConfirmedOf(reservations: map<Uuid, Reservation>, user: Uuid): set<Uuid> {
    set id | id in reservations && reservations[id].user == user && reservations[id].status == Confirmed
  }

  function BlockOutcome(s: State, user: Uuid, requester: Uuid): Outcome {
    if user == requester then Refused(BadRequest)
    else if user !in s.users then Refused(NotFound)
    else Accepted
  }

  function Block(s: State, user: Uuid, requester: Uuid): State {
    if BlockOutcome(s, user, requester) != Accepted then s
    else CancelAll(s, ConfirmedOf(s.reservations, user)).(users := s.users[user := s.users[user].(isBlocked := true)])
  }

  // ------------------------------------------------------------------ CheckpointService

  /** `loadValidQrCode`. Its EXPIRED write is undone by the exception that follows it. */
  function ScanOutcome(s: State, token: Uuid, expected: QrType): Outcome {
    if token !in s.qrCodes || s.qrCodes[token].reservation !in s.reservations then Refused(NotFound)
    else
      var qr := s.qrCodes[token];
      if qr.kind != expected then Refused(BadRequest)
      else if qr.status != Active then Refused(Gone)
      else if qr.expiresAt.Some? && qr.expiresAt.value < s.now then Refused(Gone)
      else Accepted
  }

  function CheckInOutcome(cfg: Config, s: State, token: Uuid, exitToken: Uuid): Outcome {
    var scan := ScanOutcome(s, token, CheckInCode);
    if scan != Accepted then scan else
    var r := s.reservations[s.qrCodes[token].reservation];
    if r.status != Confirmed then Refused(Conflict)
    else if s.now < r.startTime - cfg.early then Refused(BadRequest)
    else if r.slot !in s.slots then Refused(NotFound)
    else if exitToken in s.qrCodes then Refused(Conflict)
    else Accepted
  }

  function CheckIn(cfg: Config, s: State, token: Uuid, exitToken: Uuid): State {
    if CheckInOutcome(cfg, s, token, exitToken) != Accepted then s else
    var qr := s.qrCodes[token];
    var r := s.reservations[qr.reservation];
    s.(qrCodes := s.qrCodes[token := qr.(status := Used)]
                           [exitToken := QrCode(qr.reservation, CheckOutCode, Active, None)],
       reservations := s.reservations[qr.reservation := r.(status := CheckedIn, checkedInAt := Some(s.now))],
       slots := s.slots[r.slot := s.slots[r.slot].(status := Occupied)])
  }

  /** No card on file, or the test card ending in 0000. */
  predicate CardDeclines(users: map<Uuid, User>, user: Uuid) {
    user !in users || users[user].cardLast4.None? || users[user].cardLast4.value == "0000"
  }

  function CheckOutOutcome(s: State, token: Uuid): Outcome {
    var scan := ScanOutcome(s, token, CheckOutCode);
    if scan != Accepted then scan else
    var r := s.reservations[s.qrCodes[token].reservation];
    if r.status == PendingPayment then Refused(Conflict)
    else if r.status != CheckedIn && r.status != Overtime then Refused(Conflict)
    else if CardDeclines(s.users, r.user) then Declined
    else if r.slot !in s.slots then Refused(NotFound)
    else Accepted
  }

  ghost function FinalCharge(s: State, id: Uuid): int
    requires id in s.reservations
  {
    s.reservations[id].totalPrice + ChallanTotal(s.challans, id)
  }

  ghost function CheckOut(s: State, token: Uuid): State {
    var outcome := CheckOutOutcome(s, token);
    if outcome.Refused? then s else
    var qr := s.qrCodes[token];
    var id := qr.reservation;
    var r := s.reservations[id];
    var charged := s.(payments := s.payments[id :=
      Payment(FinalCharge(s, id), if outcome == Declined then Failed else Successful)]);
    if outcome == Declined then charged
    else
      charged.(reservations := s.reservations[id := r.(status := Completed)],
               qrCodes := s.qrCodes[token := qr.(status := Used)],
               slots := s.slots[r.slot := s.slots[r.slot].(status := Available)])
  }

  // ------------------------------------------------------------------ confirm / fail checkout payment

  function ConfirmPaymentOutcome(s: State, id: Uuid, user: Uuid): Outcome {
    if id !in s.reservations then Refused(NotFound)
    else if s.reservations[id].user != user then Refused(Forbidden)
    else if s.reservations[id].status != PendingPayment then Refused(Conflict)
    else if id !in s.payments || s.reservations[id].slot !in s.slots then Refused(NotFound)
    else Accepted
  }

  function ConfirmPayment(s: State, id: Uuid, user: Uuid): State {
    if ConfirmPaymentOutcome(s, id, user) != Accepted then s else
    var r := s.reservations[id];
    s.(payments := s.payments[id := s.payments[id].(status := Successful)],
       reservations := s.reservations[id := r.(status := Completed)],
       qrCodes := map t | t in s.qrCodes ::
         if s.qrCodes[t].reservation == id && s.qrCodes[t].kind == CheckOutCode && s.qrCodes[t].status == Active
         then s.qrCodes[t].(status := Used) else s.qrCodes[t],
       slots := s.slots[r.slot := s.slots[r.slot].(status := Available)])
  }

  function FailPaymentOutcome(s: State, id: Uuid, user: Uuid): Outcome {
    if id !in s.reservations then Refused(NotFound)
    else if s.reservations[id].user != user then Refused(Forbidden)
    else if s.reservations[id].status != PendingPayment then Refused(Conflict)
    else if id !in s.payments then Refused(NotFound)
    else Accepted
  }

  function FailPayment(s: State, id: Uuid, user: Uuid): State {
    if FailPaymentOutcome(s, id, user) != Accepted then s
    else s.(payments := s.payments[id := s.payments[id].(status := Failed)])
  }

  // ------------------------------------------------------------------ ParkingSlotService

  /** `updateStatus` is the one-slot case of `bulkUpdateStatus`: all or nothing. */
  function RestrictOutcome(s: State, ids: set<Uuid>): Outcome {
    if !(ids <= s.slots.Keys) then Refused(NotFound)
    else if exists id :: id in ids && (s.slots[id].status == Reserved || s.slots[id].status == Occupied)
    then Refused(Conflict)
    else Accepted
  }

  /** The `updateMany` alone; it does not look at the status again. */
  function RestrictWrites(slots: map<Uuid, Slot>, ids: set<Uuid>, maintenance: bool): map<Uuid, Slot> {
    map id | id in slots ::
      if id in ids then slots[id].(status := if maintenance then Maintenance else Available) else slots[id]
  }

  function Restrict(s: State, ids: set<Uuid>, maintenance: bool): State {
    if RestrictOutcome(s, ids) != Accepted then s else s.(slots := RestrictWrites(s.slots, ids, maintenance))
  }

  lemma RestrictedSlots(s: State, ids: set<Uuid>, maintenance: bool)
    requires RestrictOutcome(s, ids) == Accepted
    ensures var t := Restrict(s, ids, maintenance);
      && t == s.(slots := t.slots) && t.slots.Keys == s.slots.Keys
      && (forall id :: id in ids ==>
            t.slots[id] == s.slots[id].(status := if maintenance then Maintenance else Available))
      && (forall id :: id in s.slots && id !in ids ==> t.slots[id] == s.slots[id])
  {
  }

  /** The `basePrice` updateMany of a floor edit. */
  function Reprice(s: State, ids: set<Uuid>, price: int): State {
    s.(slots := map id | id in s.slots ::
      if id in ids then s.slots[id].(basePrice := price) else s.slots[id])
  }

  /** Slot removal by a floor edit: the foreign key refuses it while any reservation row names the slot. */
  predicate SlotReferenced(s: State, slot: Uuid) {
    exists id :: id in s.reservations && s.reservations[id].slot == slot
  }
}
