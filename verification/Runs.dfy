/**
 * The whole system as a step machine: one action is one committed transaction, one write of the
 * monitoring tick, or a change of the surroundings.
 */
module Runs {
  import opened Collections
  import opened Model
  import opened Lifecycle
  import opened Monitoring
  import opened Invariants
  import opened Preservation

  datatype Action =
    // Requests.
    | Book(req: BookingRequest)
    | CancelBooking(id: Uuid, requester: Uuid, isStaff: bool)
    | BlockUser(user: Uuid, requester: Uuid)
    | ScanIn(token: Uuid, exitToken: Uuid)
    | ScanOut(token: Uuid)
    | ConfirmCheckout(id: Uuid, user: Uuid)
    | FailCheckout(id: Uuid, user: Uuid)
    | RestrictSlots(slots: set<Uuid>, maintenance: bool)
    // One uninterrupted monitoring tick.
    | Monitor
    // The same tick write by write, open to interleaving.
    | BeginSweep
    | SweepWrite(id: Uuid)
    | BeginResolve
    | ResolveWrite(id: Uuid)
    | EndTick
    // Surroundings.
    | AddUser(user: Uuid)
    | SaveCard(user: Uuid, last4: string)
    | SetLotActive(lot: Uuid, active: bool)
    | AddSlot(slot: Uuid, lot: Uuid, basePrice: int)
    | RemoveSlot(slot: Uuid)
    | RepriceSlots(slots: set<Uuid>, basePrice: int)
    | Advance(elapsed: nat)

  /** Actions that leave every reservation, code, challan and payment row alone. */
  predicate IsSurrounding(a: Action) {
    IsSlotEdit(a) || a.BeginSweep? || a.BeginResolve? || a.EndTick? || a.AddUser? || a.SaveCard?
    || a.SetLotActive? || a.Advance?
  }

  predicate IsTickWrite(a: Action) {
    a.Monitor? || a.SweepWrite? || a.ResolveWrite?
  }

  ghost function NextRequest(cfg: Config, s: State, a: Action): State
    requires !IsTickWrite(a) && !IsSurrounding(a)
  {
    match a
    case Book(req) => Create(cfg, s, req)
    case CancelBooking(id, requester, isStaff) => Cancel(s, id, requester, isStaff)
    case BlockUser(user, requester) => Block(s, user, requester)
    case ScanIn(token, exitToken) => CheckIn(cfg, s, token, exitToken)
    case ScanOut(token) => CheckOut(s, token)
    case ConfirmCheckout(id, user) => ConfirmPayment(s, id, user)
    case FailCheckout(id, user) => FailPayment(s, id, user)
  }

  function SweepStep(s: State, id: Uuid): State {
    if s.tick.Sweeping? && id in s.tick.noShows && id in s.reservations
    then CancelWrites(s, id).(tick := Sweeping(s.tick.noShows - {id}))
    else s
  }

  function ResolveStep(cfg: Config, s: State, id: Uuid): State {
    if s.tick.Resolving? && id in s.tick.active
    then Resolve(cfg, s, id, s.tick.active[id], s.tick.at).(tick := Resolving(s.tick.at, s.tick.active - {id}))
    else s
  }

  function NextTickWrite(cfg: Config, s: State, a: Action): State
    requires IsTickWrite(a)
  {
    match a
    case Monitor => if s.tick.Idle? then Tick(cfg, s) else s
    case SweepWrite(id) => SweepStep(s, id)
    case ResolveWrite(id) => ResolveStep(cfg, s, id)
  }

  predicate IsSlotEdit(a: Action) {
    a.RestrictSlots? || a.AddSlot? || a.RemoveSlot? || a.RepriceSlots?
  }

  function NextSlots(s: State, a: Action): State
    requires IsSlotEdit(a)
  {
    match a
    case RestrictSlots(slots, maintenance) => Restrict(s, slots, maintenance)
    case AddSlot(slot, lot, basePrice) =>
      if slot in s.slots then s else s.(slots := s.slots[slot := Slot(lot, Available, basePrice)])
    case RemoveSlot(slot) => if SlotReferenced(s, slot) then s else s.(slots := s.slots - {slot})
    case RepriceSlots(slots, basePrice) => Reprice(s, slots, basePrice)
  }

  function NextSurrounding(cfg: Config, s: State, a: Action): State
    requires IsSurrounding(a)
  {
    if IsSlotEdit(a) then NextSlots(s, a) else NextOther(cfg, s, a)
  }

  function NextOther(cfg: Config, s: State, a: Action): State
    requires IsSurrounding(a) && !IsSlotEdit(a)
  {
    match a
    case BeginSweep => if s.tick.Idle? then s.(tick := Sweeping(NoShows(cfg, s))) else s
    case BeginResolve =>
      if s.tick.Sweeping? && s.tick.noShows == {} then s.(tick := Resolving(s.now, ActiveRows(s))) else s
    case EndTick => s.(tick := Idle)
    case AddUser(user) => if user in s.users then s else s.(users := s.users[user := User(false, None)])
    case SaveCard(user, last4) =>
      if user in s.users then s.(users := s.users[user := s.users[user].(cardLast4 := Some(last4))]) else s
    case SetLotActive(lot, active) => s.(lotActive := s.lotActive[lot := active])
    case Advance(elapsed) => s.(now := s.now + elapsed)
  }

  ghost function Next(cfg: Config, s: State, a: Action): State {
    if IsSurrounding(a) then NextSurrounding(cfg, s, a)
    else if IsTickWrite(a) then NextTickWrite(cfg, s, a)
    else NextRequest(cfg, s, a)
  }

  ghost function Run(cfg: Config, s: State, actions: seq<Action>): State
    decreases |actions|
  {
    if actions == [] then s else Run(cfg, Next(cfg, s, actions[0]), actions[1..])
  }

  function Initial(now: int): State {
    State(now, map[], map[], map[], map[], map[], map[], map[], map[], Idle)
  }

  /**
   * The atomicity assumption: no paid check-out falls between the tick's read of an active booking
   * whose grace period has expired and that booking's turn in the loop.
   */
  predicate RacesTick(cfg: Config, s: State, a: Action) {
    a.ScanOut? && s.tick.Resolving? && CheckOutOutcome(s, a.token) == Accepted
    && s.qrCodes[a.token].reservation in s.tick.active
    && GraceExpired(cfg, s.tick.active[s.qrCodes[a.token].reservation], s.tick.at)
  }

  ghost predicate Undisturbed(cfg: Config, s: State, actions: seq<Action>)
    decreases |actions|
  {
    actions == [] || (!RacesTick(cfg, s, actions[0]) && Undisturbed(cfg, Next(cfg, s, actions[0]), actions[1..]))
  }

  // ------------------------------------------------------------------ the uninterrupted tick as a chain of writes

  lemma {:induction false} CancelAllKeeps(cfg: Config, s: State, ids: set<Uuid>)
    requires Core(cfg, s) && forall id :: id in ids ==> Cancellable(s, id)
    ensures Core(cfg, CancelAll(s, ids))
    ensures ConfirmedApart(cfg, s.reservations) ==> ConfirmedApart(cfg, CancelAll(s, ids).reservations)
    decreases ids
  {
    if ids == {} {
      CancelAllNone(s);
    } else {
      var id :| id in ids;
      var rest := ids - {id};
      assert ids == rest + {id};
      CancelAllKeeps(cfg, s, rest);
      CancelOneMoreKeeps(cfg, s, rest, id);
    }
  }

  lemma CancelOneMoreKeeps(cfg: Config, s: State, ids: set<Uuid>, id: Uuid)
    requires Core(cfg, CancelAll(s, ids)) && Cancellable(s, id)
    ensures Core(cfg, CancelAll(s, ids + {id}))
    ensures ConfirmedApart(cfg, CancelAll(s, ids).reservations) ==>
      ConfirmedApart(cfg, CancelAll(s, ids + {id}).reservations)
  {
    var most := CancelAll(s, ids);
    CancelAllNext(s, ids, id);
    assert Cancellable(most, id);
    CancelKeepsCore(cfg, most, id);
    if ConfirmedApart(cfg, most.reservations) {
      CancelKeepsApart(cfg, most.reservations, id);
    }
  }

  ghost predicate AllRemembered(cfg: Config, reservations: map<Uuid, Reservation>, active: map<Uuid, ActiveRow>,
                                at: int) {
    forall id :: id in active ==> Remembered(cfg, reservations, id, active[id], at)
  }

  lemma ResolveKeepsRemembered(cfg: Config, s: State, active: map<Uuid, ActiveRow>, id: Uuid, at: int)
    requires AllRemembered(cfg, s.reservations, active, at) && id in active
    ensures AllRemembered(cfg, Resolve(cfg, s, id, active[id], at).reservations, active - {id}, at)
  {
  }

  lemma {:induction false} ResolveAllKeeps(cfg: Config, s: State, active: map<Uuid, ActiveRow>, at: int)
    requires Core(cfg, s) && AllRemembered(cfg, s.reservations, active, at)
    ensures Core(cfg, ResolveAll(cfg, s, active, at))
    ensures cfg.buffer > 0 && ConfirmedApart(cfg, s.reservations) ==>
      ConfirmedApart(cfg, ResolveAll(cfg, s, active, at).reservations)
    decreases active.Keys
  {
    if active.Keys == {} {
      assert active == map[];
      ResolveAllNone(cfg, s, at);
    } else {
      var id :| id in active.Keys;
      var one := Resolve(cfg, s, id, active[id], at);
      ResolveAllSplit(cfg, s, active, id, at);
      ResolveKeepsCore(cfg, s, id, active[id], at);
      ResolveKeepsRemembered(cfg, s, active, id, at);
      if cfg.buffer > 0 && ConfirmedApart(cfg, s.reservations) {
        ResolveKeepsApart(cfg, s, id, active[id], at);
      }
      ResolveAllKeeps(cfg, one, active - {id}, at);
    }
  }

  lemma TickKeeps(cfg: Config, s: State)
    requires Core(cfg, s)
    ensures Core(cfg, Tick(cfg, s))
    ensures cfg.buffer > 0 && ConfirmedApart(cfg, s.reservations) ==> ConfirmedApart(cfg, Tick(cfg, s).reservations)
  {
    var swept := SweepAll(cfg, s);
    CancelAllKeeps(cfg, s, NoShows(cfg, s));
    assert AllRemembered(cfg, swept.reservations, ActiveRows(swept), s.now);
    ResolveAllKeeps(cfg, swept, ActiveRows(swept), s.now);
  }

  // ------------------------------------------------------------------ every action keeps the tables

  lemma RestrictStep(s: State, ids: set<Uuid>, maintenance: bool)
    requires forall id :: id in s.reservations ==> s.reservations[id].slot in s.slots
    ensures Surroundings(s, Restrict(s, ids, maintenance))
  {
    if RestrictOutcome(s, ids) == Accepted {
      RestrictedSlots(s, ids, maintenance);
    }
  }

  lemma RepriceStep(s: State, ids: set<Uuid>, price: int)
    requires forall id :: id in s.reservations ==> s.reservations[id].slot in s.slots
    ensures Surroundings(s, Reprice(s, ids, price))
  {
  }

  lemma RemovalStep(s: State, slot: Uuid)
    requires forall id :: id in s.reservations ==> s.reservations[id].slot in s.slots
    ensures !SlotReferenced(s, slot) ==> Surroundings(s, s.(slots := s.slots - {slot}))
  {
  }

  lemma AdditionStep(s: State, slot: Uuid, added: Slot)
    requires forall id :: id in s.reservations ==> s.reservations[id].slot in s.slots
    requires slot !in s.slots && added.status == Available
    ensures Surroundings(s, s.(slots := s.slots[slot := added]))
  {
  }

  lemma SlotStep(s: State, a: Action)
    requires IsSlotEdit(a)
    requires forall id :: id in s.reservations ==> s.reservations[id].slot in s.slots
    ensures Surroundings(s, NextSlots(s, a))
  {
    match a
    case RestrictSlots(slots, maintenance) => RestrictStep(s, slots, maintenance);
    case AddSlot(slot, lot, basePrice) =>
      if slot !in s.slots {
        AdditionStep(s, slot, Slot(lot, Available, basePrice));
      }
    case RemoveSlot(slot) => RemovalStep(s, slot);
    case RepriceSlots(slots, basePrice) => RepriceStep(s, slots, basePrice);
  }

  lemma SurroundingStep(cfg: Config, s: State, a: Action)
    requires IsSurrounding(a)
    requires forall id :: id in s.reservations ==> s.reservations[id].slot in s.slots
    ensures Surroundings(s, NextSurrounding(cfg, s, a))
  {
    if IsSlotEdit(a) {
      SlotStep(s, a);
    } else {
      OtherStep(cfg, s, a);
    }
  }

  predicate SameTables(s: State, t: State) {
    s.now <= t.now && t.slots == s.slots
    && t.reservations == s.reservations && t.qrCodes == s.qrCodes && t.challans == s.challans
    && t.payments == s.payments && t.bookings == s.bookings
  }

  lemma OtherStep(cfg: Config, s: State, a: Action)
    requires IsSurrounding(a) && !IsSlotEdit(a)
    ensures SameTables(s, NextOther(cfg, s, a))
  {
    match a
    case BeginSweep => assert SameTables(s, s.(tick := Sweeping(NoShows(cfg, s))));
    case BeginResolve => assert SameTables(s, s.(tick := Resolving(s.now, ActiveRows(s))));
    case EndTick =>
    case AddUser(user) =>
    case SaveCard(user, last4) =>
    case SetLotActive(lot, active) =>
    case Advance(elapsed) =>
  }

  lemma TickWriteKeepsCore(cfg: Config, s: State, a: Action)
    requires IsTickWrite(a) && Inv(cfg, s)
    ensures Core(cfg, Next(cfg, s, a))
  {
    match a
    case Monitor =>
      if s.tick.Idle? {
        TickKeeps(cfg, s);
      }
    case SweepWrite(id) => SweepStepKeepsCore(cfg, s, id);
    case ResolveWrite(id) => ResolveStepKeepsCore(cfg, s, id);
  }

  lemma PhaseKeepsCore(cfg: Config, s: State, phase: TickPhase)
    requires Core(cfg, s)
    ensures Core(cfg, s.(tick := phase))
  {
    SurroundingsKeepCore(cfg, s, s.(tick := phase));
  }

  lemma SweepStepKeepsCore(cfg: Config, s: State, id: Uuid)
    requires Core(cfg, s) && TickOk(cfg, s)
    ensures Core(cfg, SweepStep(s, id))
  {
    if s.tick.Sweeping? && id in s.tick.noShows {
      CancelKeepsCore(cfg, s, id);
      PhaseKeepsCore(cfg, CancelWrites(s, id), Sweeping(s.tick.noShows - {id}));
    }
  }

  lemma ResolveStepKeepsCore(cfg: Config, s: State, id: Uuid)
    requires Core(cfg, s) && TickOk(cfg, s)
    ensures Core(cfg, ResolveStep(cfg, s, id))
  {
    if s.tick.Resolving? && id in s.tick.active {
      ResolveKeepsCore(cfg, s, id, s.tick.active[id], s.tick.at);
      PhaseKeepsCore(cfg, Resolve(cfg, s, id, s.tick.active[id], s.tick.at),
                     Resolving(s.tick.at, s.tick.active - {id}));
    }
  }

  lemma BlockKeepsCore(cfg: Config, s: State, user: Uuid, requester: Uuid)
    requires Core(cfg, s)
    ensures Core(cfg, Block(s, user, requester))
  {
    if BlockOutcome(s, user, requester) == Accepted {
      var ids := ConfirmedOf(s.reservations, user);
      CancelAllKeeps(cfg, s, ids);
      SurroundingsKeepCore(cfg, CancelAll(s, ids), Block(s, user, requester));
    }
  }

  lemma RequestKeepsCore(cfg: Config, s: State, a: Action)
    requires !IsTickWrite(a) && !IsSurrounding(a) && Core(cfg, s)
    ensures Core(cfg, NextRequest(cfg, s, a))
  {
    match a
    case Book(req) =>
      if CreateOutcome(cfg, s, req) == Accepted {
        CreateKeepsCore(cfg, s, req);
      }
    case CancelBooking(id, requester, isStaff) =>
      if CancelOutcome(s, id, requester, isStaff) == Accepted {
        CancelKeepsCore(cfg, s, id);
      }
    case BlockUser(user, requester) => BlockKeepsCore(cfg, s, user, requester);
    case ScanIn(token, exitToken) => ScanInKeepsCore(cfg, s, token, exitToken);
    case ScanOut(token) => ScanOutKeepsCore(cfg, s, token);
    case ConfirmCheckout(id, user) => PendingPaymentUnreachable(cfg, s, id, user);
    case FailCheckout(id, user) => PendingPaymentUnreachable(cfg, s, id, user);
  }

  lemma ScanInKeepsCore(cfg: Config, s: State, token: Uuid, exitToken: Uuid)
    requires Core(cfg, s)
    ensures Core(cfg, CheckIn(cfg, s, token, exitToken))
  {
    if CheckInOutcome(cfg, s, token, exitToken) == Accepted {
      CheckInKeepsCore(cfg, s, token, exitToken);
    }
  }

  lemma ScanOutKeepsCore(cfg: Config, s: State, token: Uuid)
    requires Core(cfg, s)
    ensures Core(cfg, CheckOut(s, token))
  {
    if CheckOutOutcome(s, token) == Declined {
      DeclineKeepsCore(cfg, s, token);
    } else if CheckOutOutcome(s, token) == Accepted {
      CheckOutKeepsCore(cfg, s, token);
    }
  }

  lemma StepKeepsCore(cfg: Config, s: State, a: Action)
    requires Inv(cfg, s)
    ensures Core(cfg, Next(cfg, s, a))
  {
    if IsSurrounding(a) {
      SurroundingStep(cfg, s, a);
      SurroundingsKeepCore(cfg, s, Next(cfg, s, a));
    } else if IsTickWrite(a) {
      TickWriteKeepsCore(cfg, s, a);
    } else {
      RequestKeepsCore(cfg, s, a);
    }
  }

  /** PENDING_PAYMENT is never reached, so the two endpoints that wait for it always refuse. */
  lemma PendingPaymentUnreachable(cfg: Config, s: State, id: Uuid, user: Uuid)
    requires AllTimesOk(cfg, s.now, s.reservations)
    ensures id in s.reservations ==> s.reservations[id].status != PendingPayment
    ensures ConfirmPaymentOutcome(s, id, user).Refused? && ConfirmPayment(s, id, user) == s
    ensures FailPaymentOutcome(s, id, user).Refused? && FailPayment(s, id, user) == s
  {
    if id in s.reservations {
      assert TimesOk(cfg, s.now, s.reservations[id]);
    }
  }

  // ------------------------------------------------------------------ how one action may move one row

  /** The life of a reservation, as the moves one action can make. */
  ghost predicate StatusMove(cfg: Config, now: int, r: Reservation, q: Reservation) {
    match r.status
    case Confirmed =>
      q.status == Confirmed || q.status == Cancelled || (q.status == CheckedIn && now <= r.startTime + cfg.grace)
    case CheckedIn => q.status == CheckedIn || q.status == Overtime || q.status == Completed
    case Overtime => q.status == Overtime || q.status == Completed
    case PendingPayment => false
    case Completed => q == r
    case Cancelled => q == r
  }

  /** Identity, slot, start and price never change; the end moves only for a checked-in booking, and only forward. */
  ghost predicate RowMove(cfg: Config, now: int, r: Reservation, q: Reservation) {
    && StatusMove(cfg, now, r, q)
    && q.user == r.user && q.slot == r.slot && q.startTime == r.startTime && q.totalPrice == r.totalPrice
    && q.checkedInAt == (if r.status == Confirmed && q.status == CheckedIn then Some(now) else r.checkedInAt)
    && (q.endTime == r.endTime || (r.status == CheckedIn && q.status == CheckedIn && q.endTime == r.endTime + HOUR))
  }

  ghost predicate RowsMove(cfg: Config, now: int, rows: map<Uuid, Reservation>, moved: map<Uuid, Reservation>) {
    forall id :: id in rows ==> id in moved && RowMove(cfg, now, rows[id], moved[id])
  }

  lemma RowsStay(cfg: Config, now: int, rows: map<Uuid, Reservation>, moved: map<Uuid, Reservation>)
    requires AllTimesOk(cfg, now, rows)
    requires forall id :: id in rows ==> id in moved && moved[id] == rows[id]
    ensures RowsMove(cfg, now, rows, moved)
  {
    forall id | id in rows
      ensures RowMove(cfg, now, rows[id], moved[id])
    {
      assert TimesOk(cfg, now, rows[id]);
    }
  }

  lemma OneRowMoves(cfg: Config, now: int, rows: map<Uuid, Reservation>, id: Uuid, r: Reservation)
    requires AllTimesOk(cfg, now, rows) && id in rows && RowMove(cfg, now, rows[id], r)
    ensures RowsMove(cfg, now, rows, rows[id := r])
  {
    RowsStay(cfg, now, rows, rows);
  }

  lemma CancelMovesRows(cfg: Config, s: State, ids: set<Uuid>)
    requires AllTimesOk(cfg, s.now, s.reservations) && forall id :: id in ids ==> Cancellable(s, id)
    ensures RowsMove(cfg, s.now, s.reservations, CancelAll(s, ids).reservations)
  {
    RowsStay(cfg, s.now, s.reservations, s.reservations);
  }

  lemma TickMovesRows(cfg: Config, s: State)
    requires AllTimesOk(cfg, s.now, s.reservations)
    ensures RowsMove(cfg, s.now, s.reservations, Tick(cfg, s).reservations)
  {
    forall id | id in s.reservations
      ensures id in Tick(cfg, s).reservations && RowMove(cfg, s.now, s.reservations[id], Tick(cfg, s).reservations[id])
    {
      assert TimesOk(cfg, s.now, s.reservations[id]);
      TickMovesRow(cfg, s, id);
    }
  }

  lemma TickMovesRow(cfg: Config, s: State, id: Uuid)
    requires id in s.reservations && TimesOk(cfg, s.now, s.reservations[id])
    ensures id in Tick(cfg, s).reservations && RowMove(cfg, s.now, s.reservations[id], Tick(cfg, s).reservations[id])
  {
    var swept := SweepAll(cfg, s);
    var active := ActiveRows(swept);
    SweptRow(cfg, s, id);
    RowOfResolveAll(cfg, swept, active, s.now, id);
    if id in active {
      ActiveRowMoves(cfg, s.now, swept.reservations[id], active[id], Decide(cfg, swept, id, active[id], s.now));
    }
  }

  lemma ActiveRowMoves(cfg: Config, now: int, r: Reservation, row: ActiveRow, d: Decision)
    requires TimesOk(cfg, now, r) && r.status == CheckedIn && r.endTime == row.endTime
    ensures RowMove(cfg, now, r, RowAfter(r, row, d))
  {
  }

  lemma TickWriteMovesRows(cfg: Config, s: State, a: Action)
    requires IsTickWrite(a) && AllTimesOk(cfg, s.now, s.reservations) && TickOk(cfg, s)
    ensures RowsMove(cfg, s.now, s.reservations, NextTickWrite(cfg, s, a).reservations)
  {
    RowsStay(cfg, s.now, s.reservations, s.reservations);
    match a
    case Monitor => TickMovesRows(cfg, s);
    case SweepWrite(x) =>
      if s.tick.Sweeping? && x in s.tick.noShows {
        OneRowMoves(cfg, s.now, s.reservations, x, s.reservations[x].(status := Cancelled));
      }
    case ResolveWrite(x) =>
      if s.tick.Resolving? && x in s.tick.active {
        ResolveMovesRows(cfg, s, x, s.tick.active[x], s.tick.at);
      }
  }

  lemma ResolveMovesRows(cfg: Config, s: State, x: Uuid, row: ActiveRow, at: int)
    requires AllTimesOk(cfg, s.now, s.reservations) && Remembered(cfg, s.reservations, x, row, at)
    ensures RowsMove(cfg, s.now, s.reservations, Resolve(cfg, s, x, row, at).reservations)
  {
    var d := Decide(cfg, s, x, row, at);
    RowsStay(cfg, s.now, s.reservations, s.reservations);
    if d != Leave {
      assert TimesOk(cfg, s.now, s.reservations[x]);
      ActiveRowMoves(cfg, s.now, s.reservations[x], row, d);
      OneRowMoves(cfg, s.now, s.reservations, x, RowAfter(s.reservations[x], row, d));
    }
  }

  lemma ScanMovesRows(cfg: Config, s: State, token: Uuid, exitToken: Uuid)
    requires AllTimesOk(cfg, s.now, s.reservations) && CodesOk(cfg, s.qrCodes, s.reservations)
    ensures RowsMove(cfg, s.now, s.reservations, CheckIn(cfg, s, token, exitToken).reservations)
    ensures RowsMove(cfg, s.now, s.reservations, CheckOut(s, token).reservations)
  {
    RowsStay(cfg, s.now, s.reservations, s.reservations);
    if CheckInOutcome(cfg, s, token, exitToken) == Accepted {
      var id := s.qrCodes[token].reservation;
      ScannedEntryCode(cfg, s, token);
      OneRowMoves(cfg, s.now, s.reservations, id,
                  s.reservations[id].(status := CheckedIn, checkedInAt := Some(s.now)));
    }
    if CheckOutOutcome(s, token) == Accepted {
      var id := s.qrCodes[token].reservation;
      OneRowMoves(cfg, s.now, s.reservations, id, s.reservations[id].(status := Completed));
    }
  }

  lemma CreateMovesRows(cfg: Config, s: State, req: BookingRequest)
    requires AllTimesOk(cfg, s.now, s.reservations)
    ensures RowsMove(cfg, s.now, s.reservations, Create(cfg, s, req).reservations)
  {
    RowsStay(cfg, s.now, s.reservations, Create(cfg, s, req).reservations);
  }

  lemma BlockMovesRows(cfg: Config, s: State, user: Uuid, requester: Uuid)
    requires AllTimesOk(cfg, s.now, s.reservations)
    ensures RowsMove(cfg, s.now, s.reservations, Block(s, user, requester).reservations)
  {
    RowsStay(cfg, s.now, s.reservations, s.reservations);
    CancelMovesRows(cfg, s, ConfirmedOf(s.reservations, user));
  }

  lemma RequestMovesRows(cfg: Config, s: State, a: Action)
    requires !IsTickWrite(a) && !IsSurrounding(a)
    requires AllTimesOk(cfg, s.now, s.reservations) && CodesOk(cfg, s.qrCodes, s.reservations)
    ensures RowsMove(cfg, s.now, s.reservations, NextRequest(cfg, s, a).reservations)
  {
    RowsStay(cfg, s.now, s.reservations, s.reservations);
    match a
    case Book(req) => CreateMovesRows(cfg, s, req);
    case CancelBooking(id, _, _) =>
      if id in s.reservations && s.reservations[id].status == Confirmed {
        OneRowMoves(cfg, s.now, s.reservations, id, s.reservations[id].(status := Cancelled));
      }
    case BlockUser(user, requester) => BlockMovesRows(cfg, s, user, requester);
    case ScanIn(token, exitToken) => ScanMovesRows(cfg, s, token, exitToken);
    case ScanOut(token) => ScanMovesRows(cfg, s, token, token);
    case ConfirmCheckout(x, user) => PendingPaymentUnreachable(cfg, s, x, user);
    case FailCheckout(x, user) => PendingPaymentUnreachable(cfg, s, x, user);
  }

  /** One action moves every row along the reservation's life cycle, or not at all. */
  lemma StepMovesRows(cfg: Config, s: State, a: Action)
    requires Inv(cfg, s)
    ensures RowsMove(cfg, s.now, s.reservations, Next(cfg, s, a).reservations)
  {
    if IsSurrounding(a) {
      SurroundingStep(cfg, s, a);
      RowsStay(cfg, s.now, s.reservations, s.reservations);
    } else if IsTickWrite(a) {
      TickWriteMovesRows(cfg, s, a);
    } else {
      RequestMovesRows(cfg, s, a);
    }
  }
}
