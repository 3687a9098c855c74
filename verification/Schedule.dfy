/** Frequent ticks never let a booking fall an hour behind, whether they run in one step or write by write. */
module Schedule {
  import opened Model
  import opened Monitoring
  import opened Invariants
  import opened Preservation
  import opened Runs
  import opened Safety
  import opened CatchUp

  // ------------------------------------------------------------------ completed ticks

  /** A write-by-write tick whose turns are all done. */
  predicate Drained(s: State) {
    s.tick.Resolving? && s.tick.active == map[]
  }

  /** When the last completed tick, in one step or write by write, read the clock. */
  ghost function LastTick(cfg: Config, s: State, a: Action, lastTick: int): int {
    if a == Monitor && s.tick.Idle? then s.now
    else if Drained(Next(cfg, s, a)) then Next(cfg, s, a).tick.at
    else lastTick
  }

  /** The clock never runs further than `gap` past the last completed tick. */
  ghost predicate Punctual(cfg: Config, s: State, actions: seq<Action>, lastTick: int, gap: int)
    decreases |actions|
  {
    s.now - lastTick <= gap
    && (actions == []
        || Punctual(cfg, Next(cfg, s, actions[0]), actions[1..], LastTick(cfg, s, actions[0], lastTick), gap))
  }

  ghost function FinalTick(cfg: Config, s: State, actions: seq<Action>, lastTick: int): int
    decreases |actions|
  {
    if actions == [] then lastTick
    else FinalTick(cfg, Next(cfg, s, actions[0]), actions[1..], LastTick(cfg, s, actions[0], lastTick))
  }

  /** At time `tick` the vehicle was before its buffered end, or it came in later. */
  predicate OnTimeRow(cfg: Config, tick: int, r: Reservation) {
    r.status == CheckedIn ==>
      tick < r.endTime + cfg.buffer || (r.checkedInAt.Some? && tick <= r.checkedInAt.value)
  }

  ghost predicate AllOnTime(cfg: Config, rows: map<Uuid, Reservation>, tick: int, except: set<Uuid>) {
    forall id :: id in rows && id !in except ==> OnTimeRow(cfg, tick, rows[id])
  }

  /** Everyone is on time for the last completed tick, and for the running one those whose turn is done. */
  ghost predicate OnSchedule(cfg: Config, s: State, lastTick: int) {
    && lastTick <= s.now && AllOnTime(cfg, s.reservations, lastTick, {})
    && (s.tick.Resolving? ==> lastTick <= s.tick.at && AllOnTime(cfg, s.reservations, s.tick.at, s.tick.active.Keys))
  }

  /** The settings and the schedule under which one tick is enough. */
  predicate FrequentEnough(cfg: Config, gap: int) {
    gap <= HOUR && cfg.grace + gap < MIN_DURATION_MINUTES * MINUTE + cfg.buffer + HOUR
  }

  /** A tick would leave every vehicle before its buffered end. */
  ghost predicate TickCatchesUp(cfg: Config, s: State) {
    var t := Tick(cfg, s);
    forall id :: id in t.reservations && t.reservations[id].status == CheckedIn ==>
      t.now < t.reservations[id].endTime + cfg.buffer
  }

  // ------------------------------------------------------------------ single rows

  lemma MoveKeepsOnTime(cfg: Config, now: int, tick: int, r: Reservation, q: Reservation)
    requires tick <= now && RowMove(cfg, now, r, q) && OnTimeRow(cfg, tick, r)
    ensures OnTimeRow(cfg, tick, q)
  {
  }

  /** One tick is enough: it adds at most one hour, and no booking is more than an hour late. */
  lemma RowOnTime(cfg: Config, at: int, now: int, lastTick: int, gap: int, r: Reservation)
    requires r.status == CheckedIn && TimesOk(cfg, now, r) && OnTimeRow(cfg, lastTick, r)
    requires r.endTime >= r.startTime + MIN_DURATION_MINUTES * MINUTE
    requires at - lastTick <= gap && FrequentEnough(cfg, gap)
    ensures at < r.endTime + HOUR + cfg.buffer
  {
  }

  /** A row is on time for the tick that has just dealt with it. */
  lemma TickedRowOnTime(cfg: Config, now: int, lastTick: int, gap: int, r: Reservation, q: Reservation)
    requires TickedRow(cfg, now, r, q) && TimesOk(cfg, now, r) && OnTimeRow(cfg, lastTick, r)
    requires r.endTime >= r.startTime + MIN_DURATION_MINUTES * MINUTE
    requires now - lastTick <= gap && FrequentEnough(cfg, gap)
    ensures q.status == CheckedIn ==> now < q.endTime + cfg.buffer
  {
    if r.status == CheckedIn {
      RowOnTime(cfg, now, now, lastTick, gap, r);
    }
  }

  // ------------------------------------------------------------------ the one-step tick

  lemma TickOnTime(cfg: Config, s: State, lastTick: int, gap: int)
    requires Core(cfg, s) && AllOnTime(cfg, s.reservations, lastTick, {})
    requires s.now - lastTick <= gap && FrequentEnough(cfg, gap)
    ensures Tick(cfg, s).now == s.now && Tick(cfg, s).tick == s.tick && TickCatchesUp(cfg, s)
  {
    var t := Tick(cfg, s);
    TickFrame(cfg, s);
    forall id | id in t.reservations && t.reservations[id].status == CheckedIn
      ensures s.now < t.reservations[id].endTime + cfg.buffer
    {
      TickRow(cfg, s, id);
      LadderBound(cfg, s, id);
      TickedRowOnTime(cfg, s.now, lastTick, gap, s.reservations[id], t.reservations[id]);
    }
  }

  // ------------------------------------------------------------------ the write-by-write tick

  lemma TurnOnTime(cfg: Config, s: State, id: Uuid, lastTick: int, gap: int)
    requires Inv(cfg, s) && s.tick.Resolving? && id in s.tick.active
    requires OnTimeRow(cfg, lastTick, s.reservations[id]) && s.now - lastTick <= gap && FrequentEnough(cfg, gap)
    ensures var row, at := s.tick.active[id], s.tick.at;
      OnTimeRow(cfg, at, RowAfter(s.reservations[id], row, Decide(cfg, s, id, row, at)))
  {
    var row, at := s.tick.active[id], s.tick.at;
    if GraceExpired(cfg, row, at) {
      LadderBound(cfg, s, id);
      NeverAlreadyProcessed(cfg, s, id, row, at);
      RowOnTime(cfg, at, s.now, lastTick, gap, s.reservations[id]);
    }
  }

  lemma ResolveStepRows(cfg: Config, s: State, id: Uuid)
    requires s.tick.Resolving? && id in s.tick.active && id in s.reservations
    ensures var t, row := ResolveStep(cfg, s, id), s.tick.active[id];
      && t.reservations == s.reservations[id := RowAfter(s.reservations[id], row, Decide(cfg, s, id, row, s.tick.at))]
      && t.tick == Resolving(s.tick.at, s.tick.active - {id}) && t.now == s.now
  {
    if Decide(cfg, s, id, s.tick.active[id], s.tick.at) == Leave {
      assert s.reservations[id := s.reservations[id]] == s.reservations;
    }
  }

  lemma ResolveStepOnSchedule(cfg: Config, s: State, id: Uuid, lastTick: int, gap: int)
    requires Inv(cfg, s) && s.tick.Resolving? && id in s.tick.active && OnSchedule(cfg, s, lastTick)
    requires s.now - lastTick <= gap && FrequentEnough(cfg, gap)
    ensures OnSchedule(cfg, ResolveStep(cfg, s, id), lastTick)
  {
    var t := ResolveStep(cfg, s, id);
    TurnOnTime(cfg, s, id, lastTick, gap);
    ResolveStepRows(cfg, s, id);
    assert AllOnTime(cfg, t.reservations, s.tick.at, t.tick.active.Keys);
    forall x | x in t.reservations
      ensures OnTimeRow(cfg, lastTick, t.reservations[x])
    {
      assert x != id ==> OnTimeRow(cfg, lastTick, s.reservations[x]);
    }
  }

  lemma BeginResolveOnSchedule(cfg: Config, s: State, lastTick: int)
    requires References(s) && OnSchedule(cfg, s, lastTick)
    ensures OnSchedule(cfg, s.(tick := Resolving(s.now, ActiveRows(s))), lastTick)
  {
  }

  // ------------------------------------------------------------------ every action

  /** Actions that leave the tick's memory alone, or drop it. */
  lemma MovesStayOnTime(cfg: Config, s: State, a: Action, tick: int, except: set<Uuid>)
    requires Inv(cfg, s) && tick <= s.now
    requires AllOnTime(cfg, s.reservations, tick, except) && except <= s.reservations.Keys
    ensures AllOnTime(cfg, Next(cfg, s, a).reservations, tick, except)
  {
    var rows := Next(cfg, s, a).reservations;
    StepMovesRows(cfg, s, a);
    forall id | id in rows && id !in except
      ensures OnTimeRow(cfg, tick, rows[id])
    {
      if id in s.reservations {
        MoveKeepsOnTime(cfg, s.now, tick, s.reservations[id], rows[id]);
      } else {
        NewRowsAreConfirmed(cfg, s, a, id);
      }
    }
  }

  /** An action that starts no turns keeps the tick's memory or ends the tick. */
  lemma MemoryStays(cfg: Config, s: State, a: Action)
    requires !a.ResolveWrite? && !a.BeginResolve?
    ensures Next(cfg, s, a).tick.Resolving? ==> Next(cfg, s, a).tick == s.tick
  {
    if IsSlotEdit(a) {
      SlotEditLeavesTick(s, a);
    } else if IsSurrounding(a) {
      OtherMemoryStays(cfg, s, a);
    } else if IsTickWrite(a) {
      if a.Monitor? {
        TickFrame(cfg, s);
      }
    } else {
      RequestLeavesTick(cfg, s, a);
    }
  }

  lemma OtherMemoryStays(cfg: Config, s: State, a: Action)
    requires IsSurrounding(a) && !IsSlotEdit(a) && !a.BeginResolve?
    ensures NextOther(cfg, s, a).tick.Resolving? ==> NextOther(cfg, s, a).tick == s.tick
  {
  }

  lemma OtherOnSchedule(cfg: Config, s: State, a: Action, lastTick: int)
    requires Inv(cfg, s) && !a.ResolveWrite? && !a.BeginResolve? && OnSchedule(cfg, s, lastTick)
    ensures OnSchedule(cfg, Next(cfg, s, a), lastTick)
  {
    MovesStayOnTime(cfg, s, a, lastTick, {});
    StepMovesClock(cfg, s, a);
    MemoryStays(cfg, s, a);
    if Next(cfg, s, a).tick.Resolving? {
      MovesStayOnTime(cfg, s, a, s.tick.at, s.tick.active.Keys);
    }
  }

  lemma StepOnSchedule(cfg: Config, s: State, a: Action, lastTick: int, gap: int)
    requires Inv(cfg, s) && OnSchedule(cfg, s, lastTick)
    requires s.now - lastTick <= gap && FrequentEnough(cfg, gap)
    ensures OnSchedule(cfg, Next(cfg, s, a), lastTick)
  {
    if a.BeginResolve? {
      BeginResolveOnSchedule(cfg, s, lastTick);
    } else if a.ResolveWrite? {
      if s.tick.Resolving? && a.id in s.tick.active {
        ResolveStepOnSchedule(cfg, s, a.id, lastTick, gap);
      }
    } else {
      OtherOnSchedule(cfg, s, a, lastTick);
    }
  }

  lemma DrainedOnSchedule(cfg: Config, s: State, lastTick: int)
    requires OnSchedule(cfg, s, lastTick) && TickOk(cfg, s) && Drained(s)
    ensures OnSchedule(cfg, s, s.tick.at)
  {
  }

  /** Every action keeps the schedule, and a completed tick advances it. */
  lemma StepAdvances(cfg: Config, s: State, a: Action, lastTick: int, gap: int)
    requires Inv(cfg, s) && !RacesTick(cfg, s, a) && OnSchedule(cfg, s, lastTick)
    requires s.now - lastTick <= gap && FrequentEnough(cfg, gap)
    ensures OnSchedule(cfg, Next(cfg, s, a), LastTick(cfg, s, a, lastTick))
  {
    if a == Monitor && s.tick.Idle? {
      TickOnTime(cfg, s, lastTick, gap);
    } else {
      StepKeepsInv(cfg, s, a);
      StepOnSchedule(cfg, s, a, lastTick, gap);
      if Drained(Next(cfg, s, a)) {
        DrainedOnSchedule(cfg, Next(cfg, s, a), lastTick);
      }
    }
  }

  lemma StepMovesClock(cfg: Config, s: State, a: Action)
    requires References(s)
    ensures s.now <= Next(cfg, s, a).now
  {
    if IsSurrounding(a) {
      SurroundingStep(cfg, s, a);
    } else if IsTickWrite(a) {
      match a
      case Monitor => TickFrame(cfg, s);
      case SweepWrite(x) =>
      case ResolveWrite(x) =>
        if s.tick.Resolving? && x in s.tick.active {
          ResolveLeavesClock(cfg, s, x, s.tick.active[x], s.tick.at);
        }
    } else {
      RequestLeavesTick(cfg, s, a);
    }
  }

  // ------------------------------------------------------------------ every run

  lemma {:induction false} RunOnSchedule(cfg: Config, s: State, actions: seq<Action>, lastTick: int, gap: int)
    requires Inv(cfg, s) && Undisturbed(cfg, s, actions) && OnSchedule(cfg, s, lastTick)
    requires Punctual(cfg, s, actions, lastTick, gap) && FrequentEnough(cfg, gap)
    ensures OnSchedule(cfg, Run(cfg, s, actions), FinalTick(cfg, s, actions, lastTick))
    ensures Run(cfg, s, actions).now - FinalTick(cfg, s, actions, lastTick) <= gap
    decreases |actions|
  {
    if actions != [] {
      StepKeepsInv(cfg, s, actions[0]);
      StepAdvances(cfg, s, actions[0], lastTick, gap);
      RunOnSchedule(cfg, Next(cfg, s, actions[0]), actions[1..], LastTick(cfg, s, actions[0], lastTick), gap);
    }
  }

  /**
   * If completed ticks, in one step or write by write, come at least every `gap` (at most an hour, and
   * short against grace, minimum duration and buffer), then each checked-in vehicle was before its
   * buffered end at the last completed tick, however late it checked in, or came in after that tick.
   * Right after a one-step tick every vehicle is.
   */
  lemma RegularTicksKeepUp(cfg: Config, now: int, actions: seq<Action>, gap: int)
    requires Undisturbed(cfg, Initial(now), actions) && Punctual(cfg, Initial(now), actions, now, gap)
    requires FrequentEnough(cfg, gap)
    ensures AllOnTime(cfg, Run(cfg, Initial(now), actions).reservations, FinalTick(cfg, Initial(now), actions, now), {})
    ensures TickCatchesUp(cfg, Run(cfg, Initial(now), actions))
  {
    InitialInv(cfg, now);
    RunKeepsInv(cfg, Initial(now), actions);
    RunOnSchedule(cfg, Initial(now), actions, now, gap);
    TickOnTime(cfg, Run(cfg, Initial(now), actions), FinalTick(cfg, Initial(now), actions, now), gap);
  }

  /** The same for a tick taken write by write: once its turns are done, every vehicle it read is on time for it. */
  lemma DrainedTickKeepsUp(cfg: Config, now: int, actions: seq<Action>, gap: int)
    requires Undisturbed(cfg, Initial(now), actions) && Punctual(cfg, Initial(now), actions, now, gap)
    requires FrequentEnough(cfg, gap) && Drained(Run(cfg, Initial(now), actions))
    ensures var t := Run(cfg, Initial(now), actions);
      forall id :: id in t.reservations && t.reservations[id].status == CheckedIn ==>
        t.tick.at < t.reservations[id].endTime + cfg.buffer
        || (t.reservations[id].checkedInAt.Some? && t.tick.at <= t.reservations[id].checkedInAt.value)
  {
    var t := Run(cfg, Initial(now), actions);
    InitialInv(cfg, now);
    RunOnSchedule(cfg, Initial(now), actions, now, gap);
    forall id | id in t.reservations && t.reservations[id].status == CheckedIn
      ensures OnTimeRow(cfg, t.tick.at, t.reservations[id])
    {
    }
  }
}
