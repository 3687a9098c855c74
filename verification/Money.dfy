/** Challans, payments and the bill, over whole runs. */
module Money {
  import opened Collections
  import opened Model
  import opened Billing
  import opened Lifecycle
  import opened Monitoring
  import opened Invariants
  import opened Preservation
  import opened Runs
  import opened Safety

  // ------------------------------------------------------------------ how one action may move the challans

  /** A challan is written only for a checked-in booking, keyed by its end time, together with its effect on the row. */
  ghost predicate ChallanMove(k: ChallanKey, r: Reservation, q: Reservation) {
    && r.status == CheckedIn && k.forCheckoutAt == r.endTime
    && q == (if k.kind == Extension then r.(endTime := r.endTime + HOUR) else r.(status := Overtime))
  }

  ghost predicate NewChallanMove(k: ChallanKey, rows: map<Uuid, Reservation>, moved: map<Uuid, Reservation>) {
    k.reservation in rows && k.reservation in moved && ChallanMove(k, rows[k.reservation], moved[k.reservation])
  }

  ghost predicate ChallansMove(a: map<ChallanKey, int>, b: map<ChallanKey, int>,
                               rows: map<Uuid, Reservation>, moved: map<Uuid, Reservation>) {
    && (forall k :: k in a ==> k in b && b[k] == a[k])
    && (forall k :: k in b && k !in a ==> NewChallanMove(k, rows, moved))
  }

  lemma RequestLeavesChallans(cfg: Config, s: State, a: Action)
    requires IsRequest(a)
    ensures NextRequest(cfg, s, a).challans == s.challans
  {
    match a
    case Book(req) =>
    case CancelBooking(_, _, _) =>
    case BlockUser(_, _) =>
    case ScanIn(token, exitToken) =>
    case ScanOut(token) =>
    case ConfirmCheckout(x, user) =>
    case FailCheckout(x, user) =>
  }

  lemma ApplyMovesChallans(cfg: Config, s: State, id: Uuid, row: ActiveRow, at: int)
    requires Remembered(cfg, s.reservations, id, row, at)
    ensures var t := Resolve(cfg, s, id, row, at);
      ChallansMove(s.challans, t.challans, s.reservations, t.reservations)
  {
  }

  /** Where a key charged by a set of turns comes from. */
  lemma NewKeyOrigin(cfg: Config, s: State, active: map<Uuid, ActiveRow>, at: int, k: ChallanKey)
    requires k in NewKeys(active, Decisions(cfg, s, active, at))
    ensures k.reservation in active && k.reservation in s.reservations && k !in s.challans
    ensures var d := Decide(cfg, s, k.reservation, active[k.reservation], at);
      d != Leave && k == KeyOf(k.reservation, active[k.reservation], d)
  {
    var decisions := Decisions(cfg, s, active, at);
    var id :| id in decisions && id in active && decisions[id] != Leave && KeyOf(id, active[id], decisions[id]) == k;
    assert decisions[id] == Decide(cfg, s, id, active[id], at);
  }

  lemma ResolveAllMovesChallans(cfg: Config, s: State, active: map<Uuid, ActiveRow>, at: int)
    requires AllRemembered(cfg, s.reservations, active, at)
    ensures var t := ResolveAll(cfg, s, active, at);
      ChallansMove(s.challans, t.challans, s.reservations, t.reservations)
  {
    var t := ResolveAll(cfg, s, active, at);
    var decisions := Decisions(cfg, s, active, at);
    forall k | k in NewKeys(active, decisions)
      ensures k !in s.challans && NewChallanMove(k, s.reservations, t.reservations)
    {
      NewKeyOrigin(cfg, s, active, at, k);
      assert t.reservations[k.reservation]
        == RowAfter(s.reservations[k.reservation], active[k.reservation], decisions[k.reservation]);
    }
  }

  lemma TickMovesChallans(cfg: Config, s: State)
    ensures var t := Tick(cfg, s); ChallansMove(s.challans, t.challans, s.reservations, t.reservations)
  {
    var swept, t := SweepAll(cfg, s), Tick(cfg, s);
    ResolveAllMovesChallans(cfg, swept, ActiveRows(swept), s.now);
    forall k | k in t.challans && k !in s.challans
      ensures NewChallanMove(k, s.reservations, t.reservations)
    {
      assert NewChallanMove(k, swept.reservations, t.reservations);
      assert swept.reservations[k.reservation] == s.reservations[k.reservation];
    }
  }

  lemma StepMovesChallans(cfg: Config, s: State, a: Action)
    requires Inv(cfg, s)
    ensures var t := Next(cfg, s, a); ChallansMove(s.challans, t.challans, s.reservations, t.reservations)
  {
    if IsSurrounding(a) {
      SurroundingStep(cfg, s, a);
    } else if IsTickWrite(a) {
      match a
      case Monitor => TickMovesChallans(cfg, s);
      case SweepWrite(x) =>
      case ResolveWrite(x) =>
        if s.tick.Resolving? && x in s.tick.active {
          ApplyMovesChallans(cfg, s, x, s.tick.active[x], s.tick.at);
        }
    } else {
      RequestLeavesChallans(cfg, s, a);
    }
  }

  // ------------------------------------------------------------------ the overtime challan remembers OVERTIME

  ghost predicate HasPenalty(s: State, id: Uuid) {
    exists k :: k in s.challans && k.reservation == id && k.kind == OvertimePenalty
  }

  ghost predicate IsOvertime(s: State, id: Uuid) {
    id in s.reservations && s.reservations[id].status == Overtime
  }

  /** The reservation is in OVERTIME in some state of the run. */
  ghost predicate EverOvertime(cfg: Config, s: State, actions: seq<Action>, id: Uuid)
    decreases |actions|
  {
    IsOvertime(s, id) || (actions != [] && EverOvertime(cfg, Next(cfg, s, actions[0]), actions[1..], id))
  }

  lemma StepPenalty(cfg: Config, s: State, a: Action, id: Uuid)
    requires Inv(cfg, s) && !RacesTick(cfg, s, a)
    ensures HasPenalty(Next(cfg, s, a), id) <==> HasPenalty(s, id) || IsOvertime(Next(cfg, s, a), id)
  {
    var t := Next(cfg, s, a);
    StepKeepsInv(cfg, s, a);
    StepMovesChallans(cfg, s, a);
    if IsOvertime(t, id) {
      assert Ladder(t.challans, id, t.bookings[id], t.reservations[id]);
    }
    if HasPenalty(t, id) && !HasPenalty(s, id) {
      var k :| k in t.challans && k.reservation == id && k.kind == OvertimePenalty;
      assert NewChallanMove(k, s.reservations, t.reservations);
    }
    if HasPenalty(s, id) {
      var k :| k in s.challans && k.reservation == id && k.kind == OvertimePenalty;
      assert k in t.challans;
    }
  }

  /** From booking to any later state: a penalty is on the books exactly if the reservation was ever in OVERTIME. */
  lemma {:induction false} PenaltyIffEverOvertime(cfg: Config, s: State, actions: seq<Action>, id: Uuid)
    requires Inv(cfg, s) && Undisturbed(cfg, s, actions)
    requires HasPenalty(s, id) ==> IsOvertime(s, id)
    ensures HasPenalty(Run(cfg, s, actions), id) <==> EverOvertime(cfg, s, actions, id)
    decreases |actions|
  {
    if IsOvertime(s, id) {
      assert Ladder(s.challans, id, s.bookings[id], s.reservations[id]);
      PenaltyStays(cfg, s, actions, id);
    } else if actions != [] {
      StepKeepsInv(cfg, s, actions[0]);
      StepPenalty(cfg, s, actions[0], id);
      PenaltyIffEverOvertime(cfg, Next(cfg, s, actions[0]), actions[1..], id);
    }
  }

  lemma {:induction false} PenaltyStays(cfg: Config, s: State, actions: seq<Action>, id: Uuid)
    requires Inv(cfg, s) && Undisturbed(cfg, s, actions) && HasPenalty(s, id)
    ensures HasPenalty(Run(cfg, s, actions), id)
    decreases |actions|
  {
    if actions != [] {
      StepKeepsInv(cfg, s, actions[0]);
      StepPenalty(cfg, s, actions[0], id);
      PenaltyStays(cfg, Next(cfg, s, actions[0]), actions[1..], id);
    }
  }

  // ------------------------------------------------------------------ the bill equals a recomputation

  /** Everything the tick may charge this reservation was and will be priced at `p`. */
  ghost predicate Priced(cfg: Config, s: State, id: Uuid, p: int) {
    && id in s.reservations && s.reservations[id].slot in s.slots
    && s.slots[s.reservations[id].slot].basePrice == p
    && (s.tick.Resolving? && id in s.tick.active ==> s.tick.active[id].basePrice == p)
    && (forall k :: k in s.challans && k.reservation == id ==>
          s.challans[k] == (if k.kind == Extension then p else OvertimeCharge(cfg, p)))
  }

  /** A floor edit that changes the price of this reservation's slot. */
  predicate RepricesSlotOf(s: State, a: Action, id: Uuid) {
    a.RepriceSlots? && id in s.reservations && s.reservations[id].slot in a.slots
  }

  ghost predicate PriceKept(cfg: Config, s: State, actions: seq<Action>, id: Uuid)
    decreases |actions|
  {
    actions == [] || (!RepricesSlotOf(s, actions[0], id) && PriceKept(cfg, Next(cfg, s, actions[0]), actions[1..], id))
  }

  ghost predicate PricesStay(a: map<Uuid, Slot>, b: map<Uuid, Slot>) {
    forall slot :: slot in a ==> slot in b && b[slot].basePrice == a[slot].basePrice
  }

  lemma RequestKeepsPrices(cfg: Config, s: State, a: Action)
    requires IsRequest(a)
    ensures PricesStay(s.slots, NextRequest(cfg, s, a).slots)
  {
    match a
    case Book(req) => assert PricesStay(s.slots, Create(cfg, s, req).slots);
    case CancelBooking(_, _, _) =>
    case BlockUser(user, requester) => assert PricesStay(s.slots, Block(s, user, requester).slots);
    case ScanIn(token, exitToken) => ScansKeepPrices(cfg, s, token, exitToken);
    case ScanOut(token) => ScansKeepPrices(cfg, s, token, token);
    case ConfirmCheckout(x, user) => PaymentsKeepPrices(s, x, user);
    case FailCheckout(x, user) => PaymentsKeepPrices(s, x, user);
  }

  lemma ScansKeepPrices(cfg: Config, s: State, token: Uuid, exitToken: Uuid)
    ensures PricesStay(s.slots, CheckIn(cfg, s, token, exitToken).slots)
    ensures PricesStay(s.slots, CheckOut(s, token).slots)
  {
  }

  lemma PaymentsKeepPrices(s: State, id: Uuid, user: Uuid)
    ensures PricesStay(s.slots, ConfirmPayment(s, id, user).slots)
    ensures PricesStay(s.slots, FailPayment(s, id, user).slots)
  {
  }

  lemma RequestKeepsPriced(cfg: Config, s: State, a: Action, id: Uuid, p: int)
    requires IsRequest(a) && Inv(cfg, s) && Priced(cfg, s, id, p)
    ensures Priced(cfg, NextRequest(cfg, s, a), id, p)
  {
    RequestKeepsPrices(cfg, s, a);
    RequestLeavesTick(cfg, s, a);
    RequestLeavesChallans(cfg, s, a);
    RequestMovesRows(cfg, s, a);
    assert RowMove(cfg, s.now, s.reservations[id], NextRequest(cfg, s, a).reservations[id]);
  }

  lemma SlotEditKeepsPriced(cfg: Config, s: State, a: Action, id: Uuid, p: int)
    requires IsSlotEdit(a) && Priced(cfg, s, id, p) && !RepricesSlotOf(s, a, id)
    ensures Priced(cfg, NextSlots(s, a), id, p)
  {
    match a
    case RestrictSlots(slots, maintenance) =>
    case AddSlot(slot, lot, basePrice) =>
    case RemoveSlot(slot) => assert SlotReferenced(s, s.reservations[id].slot);
    case RepriceSlots(slots, basePrice) =>
  }

  lemma OtherKeepsPriced(cfg: Config, s: State, a: Action, id: Uuid, p: int)
    requires IsSurrounding(a) && !IsSlotEdit(a) && Priced(cfg, s, id, p)
    ensures Priced(cfg, NextOther(cfg, s, a), id, p)
  {
    match a
    case BeginSweep =>
    case BeginResolve =>
    case EndTick =>
    case AddUser(user) =>
    case SaveCard(user, last4) =>
    case SetLotActive(lot, active) =>
    case Advance(elapsed) =>
  }

  lemma ResolveAllKeepsPriced(cfg: Config, s: State, at: int, id: Uuid, p: int)
    requires Priced(cfg, s, id, p)
    ensures Priced(cfg, ResolveAll(cfg, s, ActiveRows(s), at), id, p)
  {
    var active := ActiveRows(s);
    var t := ResolveAll(cfg, s, active, at);
    forall k | k in t.challans && k.reservation == id
      ensures t.challans[k] == (if k.kind == Extension then p else OvertimeCharge(cfg, p))
    {
      if k in NewKeys(active, Decisions(cfg, s, active, at)) {
        NewKeyOrigin(cfg, s, active, at, k);
      }
    }
  }

  lemma TickKeepsPriced(cfg: Config, s: State, id: Uuid, p: int)
    requires Priced(cfg, s, id, p)
    ensures Priced(cfg, Tick(cfg, s), id, p)
  {
    assert Priced(cfg, SweepAll(cfg, s), id, p);
    ResolveAllKeepsPriced(cfg, SweepAll(cfg, s), s.now, id, p);
  }

  lemma ResolveStepKeepsPriced(cfg: Config, s: State, x: Uuid, id: Uuid, p: int)
    requires TickOk(cfg, s) && Priced(cfg, s, id, p)
    ensures Priced(cfg, ResolveStep(cfg, s, x), id, p)
  {
    if s.tick.Resolving? && x in s.tick.active {
      ResolveKeepsPriced(cfg, s, x, s.tick.active[x], s.tick.at, id, p);
    }
  }

  lemma ResolveKeepsPriced(cfg: Config, s: State, x: Uuid, row: ActiveRow, at: int, id: Uuid, p: int)
    requires Priced(cfg, s, id, p) && Remembered(cfg, s.reservations, x, row, at) && (x == id ==> row.basePrice == p)
    ensures Priced(cfg, Resolve(cfg, s, x, row, at), id, p)
  {
  }

  lemma SweepStepKeepsPriced(cfg: Config, s: State, x: Uuid, id: Uuid, p: int)
    requires Priced(cfg, s, id, p)
    ensures Priced(cfg, SweepStep(s, x), id, p)
  {
  }

  lemma TickWriteKeepsPriced(cfg: Config, s: State, a: Action, id: Uuid, p: int)
    requires IsTickWrite(a) && TickOk(cfg, s) && Priced(cfg, s, id, p)
    ensures Priced(cfg, NextTickWrite(cfg, s, a), id, p)
  {
    match a
    case Monitor => TickKeepsPriced(cfg, s, id, p);
    case SweepWrite(x) => SweepStepKeepsPriced(cfg, s, x, id, p);
    case ResolveWrite(x) => ResolveStepKeepsPriced(cfg, s, x, id, p);
  }

  lemma StepKeepsPriced(cfg: Config, s: State, a: Action, id: Uuid, p: int)
    requires Inv(cfg, s) && Priced(cfg, s, id, p) && !RepricesSlotOf(s, a, id)
    ensures Priced(cfg, Next(cfg, s, a), id, p)
  {
    if IsSlotEdit(a) {
      SlotEditKeepsPriced(cfg, s, a, id, p);
    } else if IsSurrounding(a) {
      OtherKeepsPriced(cfg, s, a, id, p);
    } else if IsTickWrite(a) {
      TickWriteKeepsPriced(cfg, s, a, id, p);
    } else {
      RequestKeepsPriced(cfg, s, a, id, p);
    }
  }

  lemma {:induction false} RunKeepsPriced(cfg: Config, s: State, actions: seq<Action>, id: Uuid, p: int)
    requires Inv(cfg, s) && Undisturbed(cfg, s, actions) && PriceKept(cfg, s, actions, id) && Priced(cfg, s, id, p)
    ensures Priced(cfg, Run(cfg, s, actions), id, p)
    decreases |actions|
  {
    if actions != [] {
      StepKeepsInv(cfg, s, actions[0]);
      StepKeepsPriced(cfg, s, actions[0], id, p);
      RunKeepsPriced(cfg, Next(cfg, s, actions[0]), actions[1..], id, p);
    }
  }

  /** The first `n` extension keys of a booking. */
  ghost function RungKeys(id: Uuid, b: BookingRecord, n: nat): set<ChallanKey> {
    set i | 0 <= i < n :: ChallanKey(id, Extension, RungAt(b, i))
  }

  lemma RungKeysNext(id: Uuid, b: BookingRecord, n: nat)
    ensures var last := ChallanKey(id, Extension, RungAt(b, n));
      && last in RungKeys(id, b, n + 1) && RungKeys(id, b, n + 1) - {last} == RungKeys(id, b, n)
  {
    var last := ChallanKey(id, Extension, RungAt(b, n));
    forall k | k in RungKeys(id, b, n + 1)
      ensures k in RungKeys(id, b, n) || k == last
    {
      var i :| 0 <= i < n + 1 && k == ChallanKey(id, Extension, RungAt(b, i));
    }
    assert last in RungKeys(id, b, n + 1);
    forall k | k in RungKeys(id, b, n)
      ensures k in RungKeys(id, b, n + 1)
    {
      var i :| 0 <= i < n && k == ChallanKey(id, Extension, RungAt(b, i));
      assert 0 <= i < n + 1;
    }
  }

  lemma OneMore(p: int, n: int)
    ensures p * n == p * (n - 1) + p
  {
  }

  lemma {:induction false} RungSum(challans: map<ChallanKey, int>, id: Uuid, b: BookingRecord, n: nat, p: int)
    requires forall i :: 0 <= i < n ==>
      ChallanKey(id, Extension, RungAt(b, i)) in challans && challans[ChallanKey(id, Extension, RungAt(b, i))] == p
    ensures RungKeys(id, b, n) <= challans.Keys
    ensures SumOver(challans, RungKeys(id, b, n)) == p * n
  {
    if n > 0 {
      var last := ChallanKey(id, Extension, RungAt(b, n - 1));
      RungSum(challans, id, b, n - 1, p);
      RungKeysNext(id, b, n - 1);
      SumOverRemove(challans, RungKeys(id, b, n), last);
      OneMore(p, n);
    }
  }

  /** On the ladder the challans of a reservation are its rungs and at most one penalty. */
  lemma ChallansOnLadder(challans: map<ChallanKey, int>, id: Uuid, b: BookingRecord, r: Reservation)
    requires Ladder(challans, id, b, r)
    ensures var penalty := ChallanKey(id, OvertimePenalty, r.endTime);
      ChallansOf(challans, id) == RungKeys(id, b, Rungs(b, r)) + (if penalty in challans then {penalty} else {})
  {
    var penalty := ChallanKey(id, OvertimePenalty, r.endTime);
    forall k | k in ChallansOf(challans, id)
      ensures k in RungKeys(id, b, Rungs(b, r)) || (k == penalty && penalty in challans)
    {
      if k.kind == Extension {
        var i :| 0 <= i < Rungs(b, r) && k.forCheckoutAt == RungAt(b, i);
        assert k == ChallanKey(id, Extension, RungAt(b, i));
      }
    }
    forall k | k in RungKeys(id, b, Rungs(b, r))
      ensures k in ChallansOf(challans, id)
    {
      var i :| 0 <= i < Rungs(b, r) && k == ChallanKey(id, Extension, RungAt(b, i));
    }
  }

  /** What a whole stay of the current length costs when computed in one go. */
  function StayMinutes(r: Reservation): int {
    (r.endTime - r.startTime) / MINUTE
  }

  /**
   * At a constant price the incremental ledger is the direct recomputation over the whole stay, plus
   * at most one overtime penalty.
   */
  lemma BillIsRecomputation(cfg: Config, s: State, id: Uuid, minutes: int, p: int)
    requires Inv(cfg, s) && Priced(cfg, s, id, p)
    requires minutes > 0 && s.reservations[id].totalPrice == BaseCharge(p, minutes)
    requires s.bookings[id].expectedCheckout == s.reservations[id].startTime + minutes * MINUTE
    ensures var r := s.reservations[id];
      var penalty := ChallanKey(id, OvertimePenalty, r.endTime);
      FinalCharge(s, id)
        == BaseCharge(p, StayMinutes(r)) + (if penalty in s.challans then OvertimeCharge(cfg, p) else 0)
  {
    var b, r := s.bookings[id], s.reservations[id];
    var n := Rungs(b, r);
    var penalty := ChallanKey(id, OvertimePenalty, r.endTime);
    assert Ladder(s.challans, id, b, r);
    ChallansOnLadder(s.challans, id, b, r);
    RungSum(s.challans, id, b, n, p);
    if penalty in s.challans {
      SumOverRemove(s.challans, ChallansOf(s.challans, id), penalty);
      assert ChallansOf(s.challans, id) - {penalty} == RungKeys(id, b, n);
    } else {
      assert ChallansOf(s.challans, id) == RungKeys(id, b, n);
    }
    assert ChallanTotal(s.challans, id) == p * n + (if penalty in s.challans then OvertimeCharge(cfg, p) else 0);
    assert r.endTime - r.startTime == (minutes + 60 * n) * MINUTE;
    assert StayMinutes(r) == minutes + 60 * n;
    BaseChargeExtends(p, minutes, n);
  }

  /** From the moment of booking, as long as no floor edit reprices the slot. */
  lemma BillFromBooking(cfg: Config, s: State, req: BookingRequest, actions: seq<Action>)
    requires Inv(cfg, s) && CreateOutcome(cfg, s, req) == Accepted
    requires Undisturbed(cfg, Create(cfg, s, req), actions) && PriceKept(cfg, Create(cfg, s, req), actions, req.id)
    ensures var t := Run(cfg, Create(cfg, s, req), actions);
      var p := s.slots[req.slot].basePrice;
      req.id in t.reservations
      && (HasPenalty(t, req.id) <==> EverOvertime(cfg, Create(cfg, s, req), actions, req.id))
      && BillOf(cfg, p, t.reservations[req.id].startTime, t.reservations[req.id].endTime,
                EverOvertime(cfg, Create(cfg, s, req), actions, req.id), FinalCharge(t, req.id))
  {
    var booked := Create(cfg, s, req);
    var p := s.slots[req.slot].basePrice;
    FreshBooking(cfg, s, req);
    RunKeepsPriced(cfg, booked, actions, req.id, p);
    RunKeepsInv(cfg, booked, actions);
    PenaltyIffEverOvertime(cfg, booked, actions, req.id);
    RunKeepsBooking(cfg, booked, actions, req.id);
    var t := Run(cfg, booked, actions);
    BillOfBooking(cfg, t, req.id, req.durationMinutes, p);
  }

  lemma BillOfBooking(cfg: Config, s: State, id: Uuid, minutes: int, p: int)
    requires Inv(cfg, s) && Priced(cfg, s, id, p)
    requires minutes > 0 && s.reservations[id].totalPrice == BaseCharge(p, minutes)
    requires s.bookings[id].expectedCheckout == s.reservations[id].startTime + minutes * MINUTE
    ensures var r := s.reservations[id];
      BillOf(cfg, p, r.startTime, r.endTime, HasPenalty(s, id), FinalCharge(s, id))
  {
    var r := s.reservations[id];
    BillIsRecomputation(cfg, s, id, minutes, p);
    assert Ladder(s.challans, id, s.bookings[id], r);
    BillIsStartedHours(cfg, p, r.startTime, r.endTime, HasPenalty(s, id), FinalCharge(s, id));
  }

  /** The rate for every hour started from start to end, and after overtime one penalty, rounded to the cent. */
  ghost predicate BillOf(cfg: Config, rate: int, start: int, end: int, overtime: bool, bill: int) {
    exists hours :: StartedHours(hours, (end - start) / 60_000)
      && var penalty := bill - rate * hours;
         if overtime then NearestHalfUp(penalty, rate as real * cfg.overtimeMultiplier) else penalty == 0
  }

  lemma BillIsStartedHours(cfg: Config, rate: int, start: int, end: int, overtime: bool, bill: int)
    requires bill == BaseCharge(rate, (end - start) / MINUTE) + (if overtime then OvertimeCharge(cfg, rate) else 0)
    ensures BillOf(cfg, rate, start, end, overtime, bill)
  {
    var minutes := (end - start) / MINUTE;
    BaseChargeIsStartedHours(rate, minutes);
    OvertimeChargeIsNearest(cfg, rate);
    var hours :| StartedHours(hours, minutes) && BaseCharge(rate, minutes) == rate * hours;
    assert StartedHours(hours, (end - start) / 60_000);
  }

  lemma FreshBooking(cfg: Config, s: State, req: BookingRequest)
    requires Inv(cfg, s) && CreateOutcome(cfg, s, req) == Accepted
    ensures var t := Create(cfg, s, req);
      var p := s.slots[req.slot].basePrice;
      && Inv(cfg, t) && Priced(cfg, t, req.id, p) && !HasPenalty(t, req.id)
      && t.reservations[req.id].totalPrice == BaseCharge(p, req.durationMinutes)
      && t.bookings[req.id].expectedCheckout == t.reservations[req.id].startTime + req.durationMinutes * MINUTE
  {
    NextBook(cfg, s, req);
    StepKeepsInv(cfg, s, Book(req));
    NoChallansYet(s, req.id);
    FreshRows(cfg, s, req);
  }

  lemma NextBook(cfg: Config, s: State, req: BookingRequest)
    ensures Next(cfg, s, Book(req)) == Create(cfg, s, req)
  {
  }

  lemma FreshRows(cfg: Config, s: State, req: BookingRequest)
    requires CreateOutcome(cfg, s, req) == Accepted
    ensures var t := Create(cfg, s, req);
      var p := s.slots[req.slot].basePrice;
      && req.id !in s.reservations && req.id in t.reservations && req.id in t.bookings
      && t.reservations[req.id].slot == req.slot && req.slot in t.slots && t.slots[req.slot].basePrice == p
      && t.challans == s.challans && t.tick == s.tick
      && t.reservations[req.id].totalPrice == BaseCharge(p, req.durationMinutes)
      && t.bookings[req.id].expectedCheckout == t.reservations[req.id].startTime + req.durationMinutes * MINUTE
  {
  }
}
