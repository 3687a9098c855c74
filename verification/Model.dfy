/** The database rows, the configuration and the queries that several services share. */
module Model {
  import opened Collections

  // Primary keys and QR tokens are random identifiers; only their equality matters.
  type Uuid = nat

  // Times are milliseconds, money is cents.
  const MINUTE := 60_000
  const HOUR := 3_600_000
  const MIN_DURATION_MINUTES := 15
  const MAX_DURATION_MINUTES := 1440

  datatype SlotStatus = Available | Reserved | Occupied | Maintenance
  datatype ReservationStatus = Confirmed | CheckedIn | Overtime | PendingPayment | Completed | Cancelled
  datatype QrType = CheckInCode | CheckOutCode
  datatype QrStatus = Active | Used | Expired
  datatype ChallanType = Extension | OvertimePenalty
  datatype PaymentStatus = Pending | Successful | Failed | Refunded

  datatype User = User(isBlocked: bool, cardLast4: Option<string>)
  datatype Slot = Slot(lot: Uuid, status: SlotStatus, basePrice: int)
  datatype Reservation = Reservation(
    user: Uuid, slot: Uuid, startTime: int, endTime: int, totalPrice: int,
    status: ReservationStatus, checkedInAt: Option<int>)
  datatype QrCode = QrCode(reservation: Uuid, kind: QrType, status: QrStatus, expiresAt: Option<int>)
  datatype ChallanKey = ChallanKey(reservation: Uuid, kind: ChallanType, forCheckoutAt: int)
  datatype Payment = Payment(amount: int, status: PaymentStatus)

  // The append-only audit row RESERVATION_CREATED.
  datatype BookingRecord = BookingRecord(slot: Uuid, arrivalTime: int, expectedCheckout: int, totalPrice: int)

  // What the monitoring tick keeps in memory between its queries and its writes.
  datatype ActiveRow = ActiveRow(slot: Uuid, endTime: int, basePrice: int)
  datatype TickPhase =
    | Idle
    | Sweeping(noShows: set<Uuid>)
    | Resolving(at: int, active: map<Uuid, ActiveRow>)

  datatype Config = Config(buffer: nat, grace: nat, early: nat, overtimeMultiplier: real)
  const DEFAULT_CONFIG := Config(30 * MINUTE, 60 * MINUTE, 15 * MINUTE, 1.5)

  datatype State = State(
    now: int,
    users: map<Uuid, User>,
    lotActive: map<Uuid, bool>,
    slots: map<Uuid, Slot>,
    reservations: map<Uuid, Reservation>,
    qrCodes: map<Uuid, QrCode>,
    challans: map<ChallanKey, int>,
    payments: map<Uuid, Payment>,
    bookings: map<Uuid, BookingRecord>,
    tick: TickPhase)

  datatype Error = NotFound | BadRequest | Forbidden | Conflict | Gone | SlotUnavailable
  datatype Outcome = Accepted | Declined | Refused(error: Error)

  /** Not finished: such a reservation still claims its slot. */
  predicate Live(r: Reservation) {
    r.status != Cancelled && r.status != Completed
  }

  /** A vehicle is in the slot. */
  predicate InUse(r: Reservation) {
    r.status == CheckedIn || r.status == Overtime
  }

  /** The buffered windows [start, end + buffer) of two reservations do not meet. */
  predicate Apart(buffer: int, a: Reservation, b: Reservation) {
    a.endTime + buffer <= b.startTime || b.endTime + buffer <= a.startTime
  }

  /** The `findFirst` of the booking check: some live reservation of the slot meets the requested window. */
  predicate Overlapping(cfg: Config, reservations: map<Uuid, Reservation>, slot: Uuid, arrival: int, checkout: int) {
    exists id :: id in reservations
      && reservations[id].slot == slot && Live(reservations[id])
      && reservations[id].startTime < checkout + cfg.buffer
      && reservations[id].endTime > arrival - cfg.buffer
  }

  /** The `findFirst` of the grace-expiry decision: a confirmed reservation of the slot starts after `endTime`. */
  predicate Queued(reservations: map<Uuid, Reservation>, slot: Uuid, endTime: int) {
    exists id :: id in reservations
      && reservations[id].slot == slot && reservations[id].status == Confirmed
      && reservations[id].startTime > endTime
  }
}
