/** The joint invariant of the reservation tables. */
module Invariants {
  import opened Collections
  import opened Model
  import opened Billing
  import opened Monitoring

  // ------------------------------------------------------------------ references between tables

  ghost predicate BookingMatches(b: BookingRecord, r: Reservation) {
    && b.slot == r.slot && b.arrivalTime == r.startTime && b.totalPrice == r.totalPrice
    && b.expectedCheckout >= b.arrivalTime + MIN_DURATION_MINUTES * MINUTE
  }

  ghost predicate References(s: State) {
    && s.bookings.Keys == s.reservations.Keys
    && (forall id :: id in s.reservations ==> s.reservations[id].slot in s.slots)
    && (forall id :: id in s.reservations ==> BookingMatches(s.bookings[id], s.reservations[id]))
    && (forall t :: t in s.qrCodes ==> s.qrCodes[t].reservation in s.reservations)
    && (forall k :: k in s.challans ==> k.reservation in s.reservations)
    && (forall id :: id in s.payments ==> id in s.reservations)
  }

  // ------------------------------------------------------------------ status and clock

  ghost predicate TimesOk(cfg: Config, now: int, r: Reservation) {
    && r.status != PendingPayment
    && (r.status == Confirmed || r.status == Cancelled ==> r.checkedInAt == None)
    && (InUse(r) || r.status == Completed ==>
          r.checkedInAt.Some? && r.startTime - cfg.early <= r.checkedInAt.value <= r.startTime + cfg.grace
          && r.checkedInAt.value <= now)
  }

  ghost predicate AllTimesOk(cfg: Config, now: int, reservations: map<Uuid, Reservation>) {
    forall id {:trigger TimesOk(cfg, now, reservations[id])} :: id in reservations ==>
      TimesOk(cfg, now, reservations[id])
  }

  // ------------------------------------------------------------------ the extension ladder

  /** The end time after `i` one-hour extensions of a booking. */
  function RungAt(b: BookingRecord, i: int): int {
    b.expectedCheckout + i * HOUR
  }

  /** How many whole hours `endTime` has moved past the booked end. */
  function Rungs(b: BookingRecord, r: Reservation): int {
    (r.endTime - b.expectedCheckout) / HOUR
  }

  /**
   * Each extension is charged once, keyed by the end time it extended; the overtime penalty is keyed
   * by the current end time and comes with the OVERTIME status.
   */
  ghost predicate Ladder(challans: map<ChallanKey, int>, id: Uuid, b: BookingRecord, r: Reservation) {
    && Rungs(b, r) >= 0 && r.endTime == RungAt(b, Rungs(b, r))
    && (r.status == Confirmed || r.status == Cancelled ==> Rungs(b, r) == 0)
    && (forall i :: 0 <= i < Rungs(b, r) ==> ChallanKey(id, Extension, RungAt(b, i)) in challans)
    && (forall k :: k in challans && k.reservation == id && k.kind == Extension ==>
          exists i :: 0 <= i < Rungs(b, r) && k.forCheckoutAt == RungAt(b, i))
    && (forall k :: k in challans && k.reservation == id && k.kind == OvertimePenalty ==>
          k.forCheckoutAt == r.endTime && (r.status == Overtime || r.status == Completed))
    && (r.status == Overtime ==> ChallanKey(id, OvertimePenalty, r.endTime) in challans)
  }

  ghost predicate Ladders(challans: map<ChallanKey, int>, bookings: map<Uuid, BookingRecord>, rows: map<Uuid,
                          Reservation>)
    requires bookings.Keys == rows.Keys
  {
    forall id {:trigger Ladder(challans, id, bookings[id], rows[id])} :: id in rows ==>
      Ladder(challans, id, bookings[id], rows[id])
  }

  // ------------------------------------------------------------------ QR codes

  ghost predicate HasCode(qrCodes: map<Uuid, QrCode>, code: QrCode) {
    exists t :: t in qrCodes && qrCodes[t] == code
  }

  function EntryCode(cfg: Config, id: Uuid, r: Reservation): QrCode {
    QrCode(id, CheckInCode,
           if r.status == Confirmed then Active else if r.status == Cancelled then Expired else Used,
           Some(r.startTime + cfg.grace))
  }

  function ExitCode(id: Uuid, r: Reservation): QrCode {
    QrCode(id, CheckOutCode, if r.status == Completed then Used else Active, None)
  }

  predicate Entered(r: Reservation) {
    InUse(r) || r.status == Completed
  }

  /** One check-in code, and a check-out code once the vehicle has entered, each in the state the status calls for. */
  ghost predicate CodesOf(cfg: Config, qrCodes: map<Uuid, QrCode>, id: Uuid, r: Reservation) {
    && HasCode(qrCodes, EntryCode(cfg, id, r))
    && (Entered(r) ==> HasCode(qrCodes, ExitCode(id, r)))
    && (!Entered(r) ==> forall t :: t in qrCodes && qrCodes[t].reservation == id ==> qrCodes[t].kind == CheckInCode)
  }

  ghost predicate OneCodePerKind(qrCodes: map<Uuid, QrCode>) {
    forall t, u :: t in qrCodes && u in qrCodes && t != u ==>
      qrCodes[t].reservation != qrCodes[u].reservation || qrCodes[t].kind != qrCodes[u].kind
  }

  ghost predicate CodesOk(cfg: Config, qrCodes: map<Uuid, QrCode>, reservations: map<Uuid, Reservation>) {
    && OneCodePerKind(qrCodes)
    && forall id {:trigger CodesOf(cfg, qrCodes, id, reservations[id])} :: id in reservations ==>
         CodesOf(cfg, qrCodes, id, reservations[id])
  }

  // ------------------------------------------------------------------ slot status cache

  ghost predicate SomeConfirmed(reservations: map<Uuid, Reservation>, slot: Uuid) {
    exists id :: id in reservations && reservations[id].slot == slot && reservations[id].status == Confirmed
  }

  ghost predicate SomeInUse(reservations: map<Uuid, Reservation>, slot: Uuid) {
    exists id :: id in reservations && reservations[id].slot == slot && InUse(reservations[id])
  }

  ghost predicate SlotCacheOk(status: SlotStatus, reservations: map<Uuid, Reservation>, slot: Uuid) {
    && (status == Reserved ==> SomeConfirmed(reservations, slot))
    && (status == Occupied ==> SomeInUse(reservations, slot))
  }

  ghost predicate CacheOk(slots: map<Uuid, Slot>, reservations: map<Uuid, Reservation>) {
    forall slot {:trigger SlotCacheOk(slots[slot].status, reservations, slot)} :: slot in slots ==>
      SlotCacheOk(slots[slot].status, reservations, slot)
  }

  // ------------------------------------------------------------------ payments

  ghost predicate PaymentOk(challans: map<ChallanKey, int>, payments: map<Uuid, Payment>, id: Uuid, r: Reservation) {
    && (id in payments ==> payments[id].status == Successful || payments[id].status == Failed)
    && (r.status == Completed <==> id in payments && payments[id].status == Successful)
    && (r.status == Completed ==> payments[id].amount == r.totalPrice + ChallanTotal(challans, id))
  }

  ghost predicate PaymentsOk(challans: map<ChallanKey, int>, payments: map<Uuid, Payment>, rows: map<Uuid,
                             Reservation>) {
    forall id {:trigger PaymentOk(challans, payments, id, rows[id])} :: id in rows ==>
      PaymentOk(challans, payments, id, rows[id])
  }

  // ------------------------------------------------------------------ buffered windows

  predicate Rivals(a: Reservation, b: Reservation) {
    a.slot == b.slot && a.status == Confirmed && Live(b)
  }

  /** The window of a confirmed reservation meets the window of no other live reservation of its slot. */
  ghost predicate ConfirmedApart(cfg: Config, reservations: map<Uuid, Reservation>) {
    forall a, b :: a in reservations && b in reservations && a != b && Rivals(reservations[a], reservations[b]) ==>
      Apart(cfg.buffer, reservations[a], reservations[b])
  }

  // ------------------------------------------------------------------ what a running tick remembers

  ghost predicate NoShowRow(cfg: Config, s: State, id: Uuid) {
    && id in s.reservations
    && (s.reservations[id].status == Confirmed || s.reservations[id].status == Cancelled)
    && s.reservations[id].startTime + cfg.grace < s.now
  }

  ghost predicate FreshRow(reservations: map<Uuid, Reservation>, id: Uuid, row: ActiveRow) {
    && id in reservations
    && reservations[id].status == CheckedIn
    && reservations[id].slot == row.slot && reservations[id].endTime == row.endTime
  }

  /**
   * A row the tick read at time `at` and has not come to yet: its slot and end time are still current,
   * and it is still checked in if its turn will write. A row that is not due may have left meanwhile.
   */
  ghost predicate Remembered(cfg: Config, reservations: map<Uuid, Reservation>, id: Uuid, row: ActiveRow, at: int) {
    && id in reservations && Entered(reservations[id])
    && reservations[id].slot == row.slot && reservations[id].endTime == row.endTime
    && (GraceExpired(cfg, row, at) ==> reservations[id].status == CheckedIn)
  }

  ghost predicate TickOk(cfg: Config, s: State) {
    match s.tick
    case Idle => true
    case Sweeping(noShows) => forall id :: id in noShows ==> NoShowRow(cfg, s, id)
    case Resolving(at, active) =>
      at <= s.now && forall id :: id in active ==> Remembered(cfg, s.reservations, id, active[id], at)
  }

  ghost predicate Core(cfg: Config, s: State) {
    && References(s)
    && AllTimesOk(cfg, s.now, s.reservations)
    && Ladders(s.challans, s.bookings, s.reservations)
    && CodesOk(cfg, s.qrCodes, s.reservations)
    && CacheOk(s.slots, s.reservations)
    && PaymentsOk(s.challans, s.payments, s.reservations)
  }

  ghost predicate Inv(cfg: Config, s: State) {
    Core(cfg, s) && TickOk(cfg, s)
  }
}
