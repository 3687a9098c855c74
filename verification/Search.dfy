/** The window form of the slot search in backend/src/modules/parking-slot/parking-slot.service.ts. */
module Search {
  import opened Collections
  import opened Model
  import opened Lifecycle

  datatype SlotQuery = SlotQuery(lot: Uuid, status: Option<SlotStatus>, arrivalTime: int, durationMinutes: int) {
    function Checkout(): int { arrivalTime + durationMinutes * MINUTE }
  }

  function Matching(s: State, q: SlotQuery): set<Uuid> {
    set slot | slot in s.slots && s.slots[slot].lot == q.lot
      && (q.status.None? || q.status.value == s.slots[slot].status)
  }

  /** The reservations the single batch query returns, for all matching slots at once. */
  function Blocking(cfg: Config, s: State, q: SlotQuery): set<Uuid> {
    set id | id in s.reservations && s.reservations[id].slot in Matching(s, q) && Live(s.reservations[id])
      && s.reservations[id].startTime < q.Checkout() + cfg.buffer
      && s.reservations[id].endTime > q.arrivalTime - cfg.buffer
  }

  function BlockedSlots(cfg: Config, s: State, q: SlotQuery): set<Uuid> {
    set id | id in Blocking(cfg, s, q) && id in s.reservations :: s.reservations[id].slot
  }

  /** `availableForWindow` for every matching slot. */
  function SearchWindow(cfg: Config, s: State, q: SlotQuery): map<Uuid, bool> {
    map slot | slot in Matching(s, q) && slot in s.slots ::
      s.slots[slot].status != Maintenance && slot !in BlockedSlots(cfg, s, q)
  }

  /** The reservation a booking of the window would create. */
  function Requested(slot: Uuid, q: SlotQuery): Reservation {
    Reservation(0, slot, q.arrivalTime, q.Checkout(), 0, Confirmed, None)
  }

  /** The rewritten column comparison is exactly the meeting of buffered windows. */
  lemma OverlapIsWindowsMeeting(cfg: Config, s: State, slot: Uuid, q: SlotQuery)
    ensures Overlapping(cfg, s.reservations, slot, q.arrivalTime, q.Checkout()) <==>
      exists id :: id in s.reservations && s.reservations[id].slot == slot && Live(s.reservations[id])
        && !Apart(cfg.buffer, s.reservations[id], Requested(slot, q))
  {
  }

  /** The batch search and the booking check agree slot by slot, except that MAINTENANCE is only searched. */
  lemma SearchAgreesWithBooking(cfg: Config, s: State, q: SlotQuery, slot: Uuid)
    ensures slot in SearchWindow(cfg, s, q) <==>
      slot in s.slots && s.slots[slot].lot == q.lot && (q.status == None || q.status == Some(s.slots[slot].status))
    ensures slot in SearchWindow(cfg, s, q) ==>
      (SearchWindow(cfg, s, q)[slot] <==>
         s.slots[slot].status != Maintenance && !Overlapping(cfg, s.reservations, slot, q.arrivalTime, q.Checkout()))
  {
  }

  /** A slot shown as available is never refused as taken when that very window is booked next. */
  lemma AvailableCanBeBooked(cfg: Config, s: State, q: SlotQuery, req: BookingRequest)
    requires req.slot in SearchWindow(cfg, s, q) && SearchWindow(cfg, s, q)[req.slot]
    requires req.arrivalTime == q.arrivalTime && req.durationMinutes == q.durationMinutes
    ensures CreateOutcome(cfg, s, req) != Refused(SlotUnavailable) && CreateOutcome(cfg, s, req) != Refused(NotFound)
    ensures MIN_DURATION_MINUTES <= req.durationMinutes <= MAX_DURATION_MINUTES
      && s.now <= req.arrivalTime < req.latestArrival
      && q.lot in s.lotActive && s.lotActive[q.lot]
      && req.user in s.users && req.id !in s.reservations && req.token !in s.qrCodes
      ==> CreateOutcome(cfg, s, req) == Accepted
  {
    SearchAgreesWithBooking(cfg, s, q, req.slot);
  }

  // ------------------------------------------------------------------ restricting slots

  /** Lifting a restriction is always accepted, and gives back the state before if the slots were AVAILABLE. */
  lemma LiftingRestores(s: State, ids: set<Uuid>)
    requires RestrictOutcome(s, ids) == Accepted
    ensures var restricted := Restrict(s, ids, true);
      && RestrictOutcome(restricted, ids) == Accepted
      && ((forall id :: id in ids ==> s.slots[id].status == Available) ==> Restrict(restricted, ids, false) == s)
  {
    var restricted := Restrict(s, ids, true);
    RestrictedSlots(s, ids, true);
    RestrictedSlots(restricted, ids, false);
    if forall id :: id in ids ==> s.slots[id].status == Available {
      assert Restrict(restricted, ids, false).slots == s.slots;
    }
  }
}
