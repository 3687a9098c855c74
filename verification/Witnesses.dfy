/** Short concrete runs that show which assumptions the guarantees cannot do without. */
module Witnesses {
  import opened Collections
  import opened Model
  import opened Billing
  import opened Lifecycle
  import opened Monitoring
  import opened Invariants
  import opened Preservation
  import opened Runs
  import opened Safety
  import opened OneCar

  // ------------------------------------------------------------------ extending a run by one action

  lemma {:induction false} RunSnoc(cfg: Config, s: State, actions: seq<Action>, a: Action)
    requires Undisturbed(cfg, s, actions) && !RacesTick(cfg, Run(cfg, s, actions), a)
    ensures Undisturbed(cfg, s, actions + [a])
    ensures Run(cfg, s, actions + [a]) == Next(cfg, Run(cfg, s, actions), a)
    decreases |actions|
  {
    if actions == [] {
      assert (actions + [a])[1..] == [];
    } else {
      assert (actions + [a])[1..] == actions[1..] + [a];
      RunSnoc(cfg, Next(cfg, s, actions[0]), actions[1..], a);
    }
  }

  lemma ReachStep(cfg: Config, s: State, a: Action)
    requires Reachable(cfg, s) && !RacesTick(cfg, s, a)
    ensures Reachable(cfg, Next(cfg, s, a))
  {
    var now: int, actions: seq<Action> :|
      Undisturbed(cfg, Initial(now), actions) && Run(cfg, Initial(now), actions) == s;
    RunSnoc(cfg, Initial(now), actions, a);
    assert Run(cfg, Initial(now), actions + [a]) == Next(cfg, s, a);
  }

  lemma ReachBook(cfg: Config, s: State, req: BookingRequest)
    requires Reachable(cfg, s)
    ensures Reachable(cfg, Create(cfg, s, req))
  {
    ReachStep(cfg, s, Book(req));
  }

  lemma ReachScanIn(cfg: Config, s: State, token: Uuid, exitToken: Uuid)
    requires Reachable(cfg, s)
    ensures Reachable(cfg, CheckIn(cfg, s, token, exitToken))
  {
    ReachStep(cfg, s, ScanIn(token, exitToken));
  }

  lemma ReachScanOut(cfg: Config, s: State, token: Uuid)
    requires Reachable(cfg, s) && s.tick.Idle?
    ensures Reachable(cfg, CheckOut(s, token))
  {
    ReachStep(cfg, s, ScanOut(token));
  }

  lemma ReachAdvance(cfg: Config, s: State, elapsed: nat)
    requires Reachable(cfg, s)
    ensures Reachable(cfg, s.(now := s.now + elapsed))
  {
    ReachStep(cfg, s, Advance(elapsed));
  }

  lemma ReachEqual(cfg: Config, s: State, a: Action, t: State)
    requires Reachable(cfg, s) && !RacesTick(cfg, s, a) && t == Next(cfg, s, a)
    ensures Reachable(cfg, t)
  {
    ReachStep(cfg, s, a);
  }

  lemma NextTick(cfg: Config, s: State)
    requires s.tick.Idle?
    ensures Next(cfg, s, Monitor) == Tick(cfg, s)
  {
  }

  lemma ReachTick(cfg: Config, s: State)
    requires Reachable(cfg, s) && s.tick.Idle?
    ensures Reachable(cfg, Tick(cfg, s))
  {
    NextTick(cfg, s);
    ReachEqual(cfg, s, Monitor, Tick(cfg, s));
  }

  lemma ReachSweep(cfg: Config, s: State)
    requires Reachable(cfg, s) && s.tick.Idle? && NoShows(cfg, s) == {}
    ensures Reachable(cfg, s.(tick := Sweeping({})))
  {
    assert NextOther(cfg, s, BeginSweep) == s.(tick := Sweeping({}));
    ReachEqual(cfg, s, BeginSweep, s.(tick := Sweeping({})));
  }

  lemma ReachResolve(cfg: Config, s: State)
    requires Reachable(cfg, s) && s.tick == Sweeping({})
    ensures Reachable(cfg, s.(tick := Resolving(s.now, ActiveRows(s))))
  {
    var t := s.(tick := Resolving(s.now, ActiveRows(s)));
    assert NextOther(cfg, s, BeginResolve) == t;
    ReachEqual(cfg, s, BeginResolve, t);
  }

  /** A tick that finds no no-show, row by row. */
  lemma TickWithoutNoShows(cfg: Config, s: State, id: Uuid)
    requires NoShows(cfg, s) == {} && id in s.reservations && s.reservations[id].slot in s.slots
    ensures id in Tick(cfg, s).reservations
    ensures var r := s.reservations[id];
      var row := ActiveRow(r.slot, r.endTime, s.slots[r.slot].basePrice);
      Tick(cfg, s).reservations[id] ==
        if r.status == CheckedIn then RowAfter(r, row, Decide(cfg, s, id, row, s.now)) else r
  {
    CancelAllNone(s);
  }

  lemma TickRowWithoutNoShows(cfg: Config, s: State, id: Uuid, row: ActiveRow, decision: Decision)
    requires NoShows(cfg, s) == {} && id in s.reservations && s.reservations[id].status == CheckedIn
    requires s.reservations[id].slot in s.slots
    requires row
      == ActiveRow(s.reservations[id].slot, s.reservations[id].endTime, s.slots[s.reservations[id].slot].basePrice)
    requires decision == Decide(cfg, s, id, row, s.now)
    ensures id in Tick(cfg, s).reservations
    ensures Tick(cfg, s).reservations[id] == RowAfter(s.reservations[id], row, decision)
  {
    TickWithoutNoShows(cfg, s, id);
  }

  // ------------------------------------------------------------------ one lot, one slot, one customer

  function Opened(): State {
    State(0, map[1 := User(false, Some("1111"))], map[1 := true], map[1 := Slot(1, Available, 100)],
          map[], map[], map[], map[], map[], Idle)
  }

  lemma OpenedReachable(cfg: Config)
    ensures Reachable(cfg, Opened())
  {
    assert Run(cfg, Initial(0), []) == Initial(0);
    forall k | 0 <= k < 4
      ensures Opening(k + 1) == Next(cfg, Opening(k), OpeningAction(k))
    {
      OpeningStep(cfg, k);
    }
    ReachEqual(cfg, Opening(0), OpeningAction(0), Opening(1));
    ReachEqual(cfg, Opening(1), OpeningAction(1), Opening(2));
    ReachEqual(cfg, Opening(2), OpeningAction(2), Opening(3));
    ReachEqual(cfg, Opening(3), OpeningAction(3), Opening(4));
  }

  /** The states on the way there. */
  function Opening(k: nat): State {
    Opened().(
      users := if k == 0 then map[] else map[1 := User(false, if k == 1 then None else Some("1111"))],
      lotActive := if k <= 2 then map[] else map[1 := true],
      slots := if k <= 3 then map[] else map[1 := Slot(1, Available, 100)])
  }

  function OpeningAction(k: nat): Action {
    if k == 0 then AddUser(1) else if k == 1 then SaveCard(1, "1111")
    else if k == 2 then SetLotActive(1, true) else AddSlot(1, 1, 100)
  }

  lemma OpeningStep(cfg: Config, k: nat)
    requires k < 4
    ensures Next(cfg, Opening(k), OpeningAction(k)) == Opening(k + 1)
  {
    var s := Opening(k);
    if k < 3 {
      assert NextOther(cfg, s, OpeningAction(k)) == Opening(k + 1);
    } else {
      assert NextSlots(s, OpeningAction(k)) == Opening(k + 1);
    }
  }

  function Stay(start: int, status: ReservationStatus, checkedInAt: Option<int>): Reservation {
    Reservation(1, 1, start, start + 15 * MINUTE, 100, status, checkedInAt)
  }

  function EntryQr(cfg: Config, id: Uuid, start: int, status: QrStatus): QrCode {
    QrCode(id, CheckInCode, status, Some(start + cfg.grace))
  }

  /** Two fifteen-minute bookings; the first starts at once, the second as early as the buffer allows. */
  function Booked(cfg: Config): State {
    var second := 15 * MINUTE + cfg.buffer;
    Opened().(
      slots := map[1 := Slot(1, Reserved, 100)],
      reservations := map[1 := Stay(0, Confirmed, None), 2 := Stay(second, Confirmed, None)],
      qrCodes := map[1 := EntryQr(cfg, 1, 0, Active), 2 := EntryQr(cfg, 2, second, Active)],
      bookings := map[1 := BookingRecord(1, 0, 15 * MINUTE, 100),
                      2 := BookingRecord(1, second, second + 15 * MINUTE, 100)])
  }

  /** Only the first of them. */
  function FirstBooked(cfg: Config): State {
    Opened().(
      slots := map[1 := Slot(1, Reserved, 100)],
      reservations := map[1 := Stay(0, Confirmed, None)],
      qrCodes := map[1 := EntryQr(cfg, 1, 0, Active)],
      bookings := map[1 := BookingRecord(1, 0, 15 * MINUTE, 100)])
  }

  lemma FirstBooks(cfg: Config)
    ensures Create(cfg, Opened(), BookingRequest(1, 1, 0, 15, 1, 1, 1)) == FirstBooked(cfg)
  {
    assert CreateOutcome(cfg, Opened(), BookingRequest(1, 1, 0, 15, 1, 1, 1)) == Accepted;
  }

  lemma SecondBooks(cfg: Config)
    ensures var second := 15 * MINUTE + cfg.buffer;
      Create(cfg, FirstBooked(cfg), BookingRequest(1, 1, second, 15, second + 1, 2, 2)) == Booked(cfg)
  {
    var second := 15 * MINUTE + cfg.buffer;
    assert CreateOutcome(cfg, FirstBooked(cfg), BookingRequest(1, 1, second, 15, second + 1, 2, 2)) == Accepted;
  }

  lemma BookedReachable(cfg: Config)
    ensures Reachable(cfg, Booked(cfg))
  {
    var second := 15 * MINUTE + cfg.buffer;
    OpenedReachable(cfg);
    ReachBook(cfg, Opened(), BookingRequest(1, 1, 0, 15, 1, 1, 1));
    FirstBooks(cfg);
    ReachBook(cfg, FirstBooked(cfg), BookingRequest(1, 1, second, 15, second + 1, 2, 2));
    SecondBooks(cfg);
  }

  /** The first vehicle is in. */
  function FirstIn(cfg: Config, now: int): State {
    var second := 15 * MINUTE + cfg.buffer;
    Booked(cfg).(
      now := now,
      slots := map[1 := Slot(1, Occupied, 100)],
      reservations := map[1 := Stay(0, CheckedIn, Some(0)), 2 := Stay(second, Confirmed, None)],
      qrCodes := map[1 := EntryQr(cfg, 1, 0, Used), 2 := EntryQr(cfg, 2, second, Active),
                     3 := QrCode(1, CheckOutCode, Active, None)])
  }

  lemma FirstInReachable(cfg: Config, elapsed: nat)
    ensures Reachable(cfg, FirstIn(cfg, elapsed))
  {
    BookedReachable(cfg);
    ReachScanIn(cfg, Booked(cfg), 1, 3);
    FirstScan(cfg);
    ReachAdvance(cfg, FirstIn(cfg, 0), elapsed);
  }

  lemma FirstScan(cfg: Config)
    ensures CheckIn(cfg, Booked(cfg), 1, 3) == FirstIn(cfg, 0)
  {
    assert CheckInOutcome(cfg, Booked(cfg), 1, 3) == Accepted;
  }

  // ------------------------------------------------------------------ the buffer

  /** Without a buffer the booking that starts right at the end of another is not seen in the queue. */
  lemma ZeroBufferLosesAWindow(cfg: Config)
    requires cfg.buffer == 0
    ensures var t := Tick(cfg, FirstIn(cfg, 15 * MINUTE));
      Reachable(cfg, t) && !ConfirmedApart(cfg, t.reservations)
  {
    FirstInReachable(cfg, 15 * MINUTE);
    ReachTick(cfg, FirstIn(cfg, 15 * MINUTE));
    ZeroBufferTick(cfg);
    WindowLost(cfg, Tick(cfg, FirstIn(cfg, 15 * MINUTE)).reservations);
  }

  lemma WindowLost(cfg: Config, rows: map<Uuid, Reservation>)
    requires 1 in rows && rows[1] == Stay(0, CheckedIn, Some(0)).(endTime := 15 * MINUTE + HOUR)
    requires 2 in rows && rows[2] == Stay(15 * MINUTE, Confirmed, None)
    ensures !ConfirmedApart(cfg, rows)
  {
    assert Rivals(rows[2], rows[1]);
  }

  lemma ZeroBufferTick(cfg: Config)
    requires cfg.buffer == 0
    ensures var rows := Tick(cfg, FirstIn(cfg, 15 * MINUTE)).reservations;
      && 1 in rows && rows[1] == Stay(0, CheckedIn, Some(0)).(endTime := 15 * MINUTE + HOUR)
      && 2 in rows && rows[2] == Stay(15 * MINUTE, Confirmed, None)
  {
    var s := FirstIn(cfg, 15 * MINUTE);
    ZeroBufferExtends(cfg);
    TickRowWithoutNoShows(cfg, s, 1, ActiveRow(1, 15 * MINUTE, 100), Extend);
    TickWithoutNoShows(cfg, s, 2);
  }

  lemma ZeroBufferExtends(cfg: Config)
    requires cfg.buffer == 0
    ensures NoShows(cfg, FirstIn(cfg, 15 * MINUTE)) == {}
    ensures Decide(cfg, FirstIn(cfg, 15 * MINUTE), 1, ActiveRow(1, 15 * MINUTE, 100), 15 * MINUTE) == Extend
  {
  }

  /** No run can take a confirmed window exactly if the buffer is positive. */
  lemma ConfirmedWindowsSafeIffBuffer(cfg: Config)
    ensures (forall s :: Reachable(cfg, s) ==> ConfirmedApart(cfg, s.reservations)) <==> cfg.buffer > 0
  {
    if cfg.buffer == 0 {
      ZeroBufferLosesAWindow(cfg);
    } else {
      forall s | Reachable(cfg, s)
        ensures ConfirmedApart(cfg, s.reservations)
      {
        ReachableInv(cfg, s);
      }
    }
  }

  // ------------------------------------------------------------------ one vehicle per slot

  /** With the default settings: the first vehicle is overdue, the second has come in early. */
  function BothIn(now: int): State {
    FirstIn(DEFAULT_CONFIG, now).(
      reservations := map[1 := Stay(0, CheckedIn, Some(0)), 2 := Stay(45 * MINUTE, CheckedIn, Some(30 * MINUTE))],
      qrCodes := map[1 := EntryQr(DEFAULT_CONFIG, 1, 0, Used), 2 := EntryQr(DEFAULT_CONFIG, 2, 45 * MINUTE, Used),
                     3 := QrCode(1, CheckOutCode, Active, None), 4 := QrCode(2, CheckOutCode, Active, None)])
  }

  lemma BothInReachable()
    ensures Reachable(DEFAULT_CONFIG, BothIn(45 * MINUTE))
  {
    FirstInReachable(DEFAULT_CONFIG, 30 * MINUTE);
    ReachScanIn(DEFAULT_CONFIG, FirstIn(DEFAULT_CONFIG, 30 * MINUTE), 2, 4);
    SecondScan();
    ReachAdvance(DEFAULT_CONFIG, BothIn(30 * MINUTE), 15 * MINUTE);
  }

  lemma SecondScan()
    ensures CheckIn(DEFAULT_CONFIG, FirstIn(DEFAULT_CONFIG, 30 * MINUTE), 2, 4) == BothIn(30 * MINUTE)
  {
    assert CheckInOutcome(DEFAULT_CONFIG, FirstIn(DEFAULT_CONFIG, 30 * MINUTE), 2, 4) == Accepted;
  }

  /**
   * `checkIn` does not look for a vehicle in the slot: two can be in, and the next tick extends the first
   * over the second.
   */
  lemma DisciplineIsNeeded()
    ensures Reachable(DEFAULT_CONFIG, Tick(DEFAULT_CONFIG, BothIn(45 * MINUTE)))
    ensures var rows := Tick(DEFAULT_CONFIG, BothIn(45 * MINUTE)).reservations;
      !OneVehicle(rows) && !LiveWindowsApart(DEFAULT_CONFIG, rows)
  {
    BothInReachable();
    ReachTick(DEFAULT_CONFIG, BothIn(45 * MINUTE));
    BothInTick();
    WindowsCollide(Tick(DEFAULT_CONFIG, BothIn(45 * MINUTE)).reservations);
  }

  lemma WindowsCollide(rows: map<Uuid, Reservation>)
    requires 1 in rows && rows[1] == Stay(0, CheckedIn, Some(0)).(endTime := 15 * MINUTE + HOUR)
    requires 2 in rows && rows[2] == Stay(45 * MINUTE, CheckedIn, Some(30 * MINUTE))
    ensures !OneVehicle(rows) && !LiveWindowsApart(DEFAULT_CONFIG, rows)
  {
    assert Neighbours(rows[1], rows[2]);
  }

  lemma BothInTick()
    ensures var rows := Tick(DEFAULT_CONFIG, BothIn(45 * MINUTE)).reservations;
      && 1 in rows && rows[1] == Stay(0, CheckedIn, Some(0)).(endTime := 15 * MINUTE + HOUR)
      && 2 in rows && rows[2] == Stay(45 * MINUTE, CheckedIn, Some(30 * MINUTE))
  {
    var s := BothIn(45 * MINUTE);
    BothInDecisions();
    TickRowWithoutNoShows(DEFAULT_CONFIG, s, 1, ActiveRow(1, 15 * MINUTE, 100), Extend);
    TickRowWithoutNoShows(DEFAULT_CONFIG, s, 2, ActiveRow(1, 60 * MINUTE, 100), Leave);
  }

  lemma BothInDecisions()
    ensures NoShows(DEFAULT_CONFIG, BothIn(45 * MINUTE)) == {}
    ensures Decide(DEFAULT_CONFIG, BothIn(45 * MINUTE), 1, ActiveRow(1, 15 * MINUTE, 100), 45 * MINUTE) == Extend
    ensures Decide(DEFAULT_CONFIG, BothIn(45 * MINUTE), 2, ActiveRow(1, 60 * MINUTE, 100), 45 * MINUTE) == Leave
  {
  }

  /** In the same state, paying for the first vehicle marks the slot AVAILABLE under the second. */
  lemma PayingFreesTheSlot()
    ensures var u := CheckOut(BothIn(45 * MINUTE), 3);
      && Reachable(DEFAULT_CONFIG, u)
      && SomeInUse(u.reservations, 1) && 1 in u.slots && u.slots[1].status == Available
  {
    var s := BothIn(45 * MINUTE);
    var u := CheckOut(s, 3);
    BothInReachable();
    ReachScanOut(DEFAULT_CONFIG, s, 3);
    FirstPays();
    assert u.reservations[2].slot == 1 && InUse(u.reservations[2]);
  }

  lemma FirstPays()
    ensures var u := CheckOut(BothIn(45 * MINUTE), 3);
      && 2 in u.reservations && u.reservations[2] == Stay(45 * MINUTE, CheckedIn, Some(30 * MINUTE))
      && 1 in u.slots && u.slots[1].status == Available
  {
    assert CheckOutOutcome(BothIn(45 * MINUTE), 3) == Accepted;
  }

  // ------------------------------------------------------------------ atomicity of one turn of the tick

  /** The tick has read the first booking and not yet come to its turn. */
  function MidTick(): State {
    FirstIn(DEFAULT_CONFIG, 45 * MINUTE).(tick := Resolving(45 * MINUTE, map[1 := ActiveRow(1, 15 * MINUTE, 100)]))
  }

  lemma MidTickReachable()
    ensures Reachable(DEFAULT_CONFIG, MidTick())
  {
    var s := FirstIn(DEFAULT_CONFIG, 45 * MINUTE);
    FirstInReachable(DEFAULT_CONFIG, 45 * MINUTE);
    assert NoShows(DEFAULT_CONFIG, s) == {};
    ReachSweep(DEFAULT_CONFIG, s);
    var swept := s.(tick := Sweeping({}));
    MidTickRows();
    ReachResolve(DEFAULT_CONFIG, swept);
  }

  lemma MidTickRows()
    ensures ActiveRows(FirstIn(DEFAULT_CONFIG, 45 * MINUTE).(tick := Sweeping({})))
         == map[1 := ActiveRow(1, 15 * MINUTE, 100)]
  {
  }

  /** The first vehicle pays at that very moment. */
  function PaidMidTick(): State {
    MidTick().(
      slots := map[1 := Slot(1, Available, 100)],
      reservations := map[1 := Stay(0, Completed, Some(0)), 2 := Stay(45 * MINUTE, Confirmed, None)],
      qrCodes := MidTick().qrCodes[3 := QrCode(1, CheckOutCode, Used, None)],
      payments := map[1 := Payment(100, Successful)])
  }

  lemma PayMidTick()
    ensures CheckOutOutcome(MidTick(), 3) == Accepted && RacesTick(DEFAULT_CONFIG, MidTick(), ScanOut(3))
    ensures CheckOut(MidTick(), 3) == PaidMidTick()
  {
    var s := MidTick();
    assert CheckOutOutcome(s, 3) == Accepted;
    assert ChallansOf(s.challans, 1) == {};
    assert FinalCharge(s, 1) == 100;
    assert CheckOut(s, 3).reservations == PaidMidTick().reservations;
  }

  /**
   * The turn of a booking writes without rereading the row: a vehicle that pays between the tick's
   * read and its turn is put back from COMPLETED to OVERTIME, with a penalty nobody will be charged.
   */
  lemma AtomicityIsNeeded()
    ensures Reachable(DEFAULT_CONFIG, MidTick()) && RacesTick(DEFAULT_CONFIG, MidTick(), ScanOut(3))
    ensures var paid := CheckOut(MidTick(), 3);
      var t := Resolve(DEFAULT_CONFIG, paid, 1, MidTick().tick.active[1], MidTick().tick.at);
      && paid.reservations[1].status == Completed
      && t.reservations[1].status == Overtime
      && t.payments == map[1 := Payment(100, Successful)]
      && ChallanKey(1, OvertimePenalty, 15 * MINUTE) in t.challans
  {
    MidTickReachable();
    PayMidTick();
    var paid := PaidMidTick();
    assert paid.reservations[2].status == Confirmed && paid.reservations[2].startTime == 45 * MINUTE;
    assert Queued(paid.reservations, 1, 15 * MINUTE);
    assert Decide(DEFAULT_CONFIG, paid, 1, ActiveRow(1, 15 * MINUTE, 100), 45 * MINUTE) == Penalise;
  }

  // ------------------------------------------------------------------ the queue query and the extension write

  /**
   * A turn queries the queue and writes the extension in one step. Taken apart, the exact condition on
   * a booking accepted in between: confirmed windows stay safe unless it is for the same slot and
   * arrives before the buffered end of the extension.
   */
  lemma BookingBetweenSafeIffPastExtension(cfg: Config, s: State, id: Uuid, row: ActiveRow, at: int,
                                           req: BookingRequest)
    requires Inv(cfg, s) && ConfirmedApart(cfg, s.reservations) && cfg.buffer > 0
    requires FreshRow(s.reservations, id, row) && at <= s.now && Decide(cfg, s, id, row, at) == Extend
    requires CreateOutcome(cfg, s, req) == Accepted
    ensures id in Create(cfg, s, req).reservations
    ensures ConfirmedApart(cfg, Apply(cfg, Create(cfg, s, req), id, row, Extend).reservations)
       <==> req.slot != row.slot || req.arrivalTime >= row.endTime + HOUR + cfg.buffer
  {
    var booked := BookedBetween(cfg, s, id, row, req);
    BookedLater(cfg, s, id, row, at, req);
    BookedBehind(cfg, s.reservations, id, req.id, booked);
  }

  /** The rows after the booking and the extension. */
  lemma BookedBetween(cfg: Config, s: State, id: Uuid, row: ActiveRow, req: BookingRequest)
    returns (booked: Reservation)
    requires Inv(cfg, s) && ConfirmedApart(cfg, s.reservations) && FreshRow(s.reservations, id, row)
    requires CreateOutcome(cfg, s, req) == Accepted
    ensures req.id !in s.reservations && booked.status == Confirmed && booked.slot == req.slot
    ensures booked.startTime == req.arrivalTime && booked.endTime == req.Checkout()
    ensures id in Create(cfg, s, req).reservations && ConfirmedApart(cfg, s.reservations[req.id := booked])
    ensures Apply(cfg, Create(cfg, s, req), id, row, Extend).reservations
         == s.reservations[req.id := booked][id := s.reservations[id].(endTime := row.endTime + HOUR)]
  {
    CreateKeepsApart(cfg, s, req);
    CreatedRows(cfg, s, req);
    ExtendedRows(cfg, Create(cfg, s, req), id, row);
    booked := Create(cfg, s, req).reservations[req.id];
  }

  /** The extended stay began before the booking was made, and nothing was queued behind it. */
  lemma BookedLater(cfg: Config, s: State, id: Uuid, row: ActiveRow, at: int, req: BookingRequest)
    requires Inv(cfg, s) && FreshRow(s.reservations, id, row) && at <= s.now && Decide(cfg, s, id, row, at) == Extend
    requires CreateOutcome(cfg, s, req) == Accepted
    ensures !Queued(s.reservations, row.slot, row.endTime) && req.Checkout() >= s.reservations[id].startTime
  {
    ExtendNeedsEmptyQueue(cfg, s, id, row, at);
    LadderBound(cfg, s, id);
    BookedFromNow(cfg, s, req);
  }

  lemma BookedFromNow(cfg: Config, s: State, req: BookingRequest)
    requires CreateOutcome(cfg, s, req) == Accepted
    ensures s.now <= req.Checkout()
  {
  }

  lemma ExtendNeedsEmptyQueue(cfg: Config, s: State, id: Uuid, row: ActiveRow, at: int)
    requires Decide(cfg, s, id, row, at) == Extend
    ensures GraceExpired(cfg, row, at) && !Queued(s.reservations, row.slot, row.endTime)
  {
  }

  /** On the rows alone: a booking behind the current end, and an extension of one hour. */
  lemma BookedBehind(cfg: Config, rows: map<Uuid, Reservation>, id: Uuid, added: Uuid, booked: Reservation)
    requires id in rows && added !in rows && rows[id].status == CheckedIn && cfg.buffer > 0
    requires booked.status == Confirmed && booked.endTime >= rows[id].startTime
    requires !Queued(rows, rows[id].slot, rows[id].endTime) && ConfirmedApart(cfg, rows[added := booked])
    ensures var longer := rows[id].(endTime := rows[id].endTime + HOUR);
      ConfirmedApart(cfg, rows[added := booked][id := longer])
      <==> booked.slot != longer.slot || booked.startTime >= longer.endTime + cfg.buffer
  {
    var before, longer := rows[added := booked], rows[id].(endTime := rows[id].endTime + HOUR);
    if booked.slot != longer.slot || Apart(cfg.buffer, booked, longer) {
      ExtensionKeepsApart(cfg, before, rows, id, added);
    } else {
      assert Rivals(before[id := longer][added], before[id := longer][id]);
    }
  }

  lemma CreatedRows(cfg: Config, s: State, req: BookingRequest)
    requires CreateOutcome(cfg, s, req) == Accepted
    ensures req.id !in s.reservations
    ensures Create(cfg, s, req).reservations == s.reservations[req.id :=
      Reservation(req.user, req.slot, req.arrivalTime, req.Checkout(),
                  BaseCharge(s.slots[req.slot].basePrice, req.durationMinutes), Confirmed, None)]
  {
  }

  lemma ExtendedRows(cfg: Config, s: State, id: Uuid, row: ActiveRow)
    requires id in s.reservations
    ensures Apply(cfg, s, id, row, Extend).reservations
         == s.reservations[id := s.reservations[id].(endTime := row.endTime + HOUR)]
  {
  }

  /** Extending a stay that no confirmed booking is queued behind, but for one that is far enough away. */
  lemma ExtensionKeepsApart(cfg: Config, rows: map<Uuid, Reservation>, without: map<Uuid, Reservation>, id: Uuid,
                            added: Uuid)
    requires id in without && added !in without && added in rows && rows == without[added := rows[added]]
    requires rows[id].status == CheckedIn && cfg.buffer > 0 && ConfirmedApart(cfg, rows)
    requires !Queued(without, rows[id].slot, rows[id].endTime)
    requires rows[added].slot != rows[id].slot
      || Apart(cfg.buffer, rows[added], rows[id].(endTime := rows[id].endTime + HOUR))
    ensures ConfirmedApart(cfg, rows[id := rows[id].(endTime := rows[id].endTime + HOUR)])
  {
    var longer := rows[id].(endTime := rows[id].endTime + HOUR);
    forall x | x in rows && x != id && Rivals(rows[x], longer)
      ensures Apart(cfg.buffer, rows[x], longer)
    {
      if x != added {
        assert Rivals(rows[x], rows[id]) && without[x] == rows[x];
      }
    }
    ApartPoint(cfg, rows, id, longer);
  }

  /** The same slot with the first booking only, entered at the time `since`. */
  function LoneStay(cfg: Config, since: int, now: int): State {
    FirstBooked(cfg).(
      now := now,
      slots := map[1 := Slot(1, Occupied, 100)],
      reservations := map[1 := Stay(0, CheckedIn, Some(since))],
      qrCodes := map[1 := EntryQr(cfg, 1, 0, Used), 3 := QrCode(1, CheckOutCode, Active, None)])
  }

  lemma LoneStayReachable(elapsed: nat)
    ensures Reachable(DEFAULT_CONFIG, LoneStay(DEFAULT_CONFIG, 0, elapsed))
  {
    FirstBookedReachable();
    ReachScanIn(DEFAULT_CONFIG, FirstBooked(DEFAULT_CONFIG), 1, 3);
    LoneScans(DEFAULT_CONFIG, 0);
    assert FirstBooked(DEFAULT_CONFIG).(now := 0) == FirstBooked(DEFAULT_CONFIG);
    ReachAdvance(DEFAULT_CONFIG, LoneStay(DEFAULT_CONFIG, 0, 0), elapsed);
  }

  lemma LoneScans(cfg: Config, since: nat)
    requires since <= cfg.grace
    ensures CheckIn(cfg, FirstBooked(cfg).(now := since), 1, 3) == LoneStay(cfg, since, since)
  {
    assert CheckInOutcome(cfg, FirstBooked(cfg).(now := since), 1, 3) == Accepted;
  }

  /** A customer books the slot for the time right behind the grace period, between the query and the write. */
  lemma BookingBetweenLosesAWindow()
    ensures var s, row := LoneStay(DEFAULT_CONFIG, 0, 45 * MINUTE), ActiveRow(1, 15 * MINUTE, 100);
      var req := BookingRequest(1, 1, 45 * MINUTE, 15, 46 * MINUTE, 2, 2);
      && Reachable(DEFAULT_CONFIG, s) && Decide(DEFAULT_CONFIG, s, 1, row, s.now) == Extend
      && CreateOutcome(DEFAULT_CONFIG, s, req) == Accepted
      && 1 in Create(DEFAULT_CONFIG, s, req).reservations
      && var t := Apply(DEFAULT_CONFIG, Create(DEFAULT_CONFIG, s, req), 1, row, Extend);
         !ConfirmedApart(DEFAULT_CONFIG, t.reservations)
  {
    var s, row := LoneStay(DEFAULT_CONFIG, 0, 45 * MINUTE), ActiveRow(1, 15 * MINUTE, 100);
    LoneStayReachable(45 * MINUTE);
    ReachableInv(DEFAULT_CONFIG, s);
    LoneDecision();
    BookingBetweenSafeIffPastExtension(DEFAULT_CONFIG, s, 1, row, s.now,
                                       BookingRequest(1, 1, 45 * MINUTE, 15, 46 * MINUTE, 2, 2));
  }

  lemma LoneDecision()
    ensures var s := LoneStay(DEFAULT_CONFIG, 0, 45 * MINUTE);
      && Decide(DEFAULT_CONFIG, s, 1, ActiveRow(1, 15 * MINUTE, 100), s.now) == Extend
      && CreateOutcome(DEFAULT_CONFIG, s, BookingRequest(1, 1, 45 * MINUTE, 15, 46 * MINUTE, 2, 2)) == Accepted
  {
  }

  // ------------------------------------------------------------------ writers that do not look again

  /**
   * A customer is blocked while being let in: the booking is cancelled under the vehicle, whose exit code
   * stays ACTIVE.
   */
  lemma BlockingCanCancelAVehicle()
    ensures var s, t := FirstBooked(DEFAULT_CONFIG), LoneStay(DEFAULT_CONFIG, 0, 0);
      && Reachable(DEFAULT_CONFIG, s) && 1 in ConfirmedOf(s.reservations, 1)
      && t == Next(DEFAULT_CONFIG, s, ScanIn(1, 3)) && 1 in t.reservations
      && var u := CancelWrites(t, 1);
         u.reservations[1].status == Cancelled && u.slots[1].status == Occupied && u.qrCodes[3].status == Active
  {
    FirstBookedReachable();
    LoneScans(DEFAULT_CONFIG, 0);
    NextScanIn(DEFAULT_CONFIG, FirstBooked(DEFAULT_CONFIG), 1, 3);
    assert 1 in ConfirmedOf(FirstBooked(DEFAULT_CONFIG).reservations, 1);
  }

  lemma FirstBookedReachable()
    ensures Reachable(DEFAULT_CONFIG, FirstBooked(DEFAULT_CONFIG))
  {
    OpenedReachable(DEFAULT_CONFIG);
    ReachBook(DEFAULT_CONFIG, Opened(), BookingRequest(1, 1, 0, 15, 1, 1, 1));
    FirstBooks(DEFAULT_CONFIG);
  }
}
