/** The bound on the time between ticks under which they keep up cannot be weakened. */
module Sharpness {
  import opened Collections
  import opened Model
  import opened Lifecycle
  import opened Monitoring
  import opened Runs
  import opened OneCar
  import opened CatchUp
  import opened Schedule
  import opened Witnesses

  // ------------------------------------------------------------------ punctual runs, extended by one action

  /** Some run without a due race, on a schedule of ticks at least every `gap`, ends here. */
  ghost predicate ReachableOn(cfg: Config, gap: int, s: State, lastTick: int) {
    exists now: int, actions: seq<Action> :: OnRun(cfg, gap, now, actions, s, lastTick)
  }

  ghost predicate OnRun(cfg: Config, gap: int, now: int, actions: seq<Action>, s: State, lastTick: int) {
    && Undisturbed(cfg, Initial(now), actions) && Punctual(cfg, Initial(now), actions, now, gap)
    && Run(cfg, Initial(now), actions) == s && FinalTick(cfg, Initial(now), actions, now) == lastTick
  }

  lemma {:induction false} PunctualSnoc(cfg: Config, s: State, actions: seq<Action>, a: Action, lastTick: int, gap: int)
    requires Punctual(cfg, s, actions, lastTick, gap)
    requires var t, last := Run(cfg, s, actions), FinalTick(cfg, s, actions, lastTick);
      Next(cfg, t, a).now - LastTick(cfg, t, a, last) <= gap
    ensures Punctual(cfg, s, actions + [a], lastTick, gap)
    ensures FinalTick(cfg, s, actions + [a], lastTick)
         == LastTick(cfg, Run(cfg, s, actions), a, FinalTick(cfg, s, actions, lastTick))
    decreases |actions|
  {
    if actions == [] {
      assert (actions + [a])[1..] == [];
    } else {
      assert (actions + [a])[1..] == actions[1..] + [a];
      PunctualSnoc(cfg, Next(cfg, s, actions[0]), actions[1..], a, LastTick(cfg, s, actions[0], lastTick), gap);
    }
  }

  lemma StepOn(cfg: Config, gap: int, s: State, lastTick: int, a: Action, t: State, last: int)
    requires ReachableOn(cfg, gap, s, lastTick) && !RacesTick(cfg, s, a)
    requires t == Next(cfg, s, a) && last == LastTick(cfg, s, a, lastTick) && t.now - last <= gap
    ensures ReachableOn(cfg, gap, t, last)
  {
    var now: int, actions: seq<Action> :| OnRun(cfg, gap, now, actions, s, lastTick);
    RunSnoc(cfg, Initial(now), actions, a);
    PunctualSnoc(cfg, Initial(now), actions, a, now, gap);
    assert OnRun(cfg, gap, now, actions + [a], t, last);
  }

  /** An action that is no tick, while none is running. */
  lemma QuietStepOn(cfg: Config, gap: int, s: State, lastTick: int, a: Action, t: State)
    requires ReachableOn(cfg, gap, s, lastTick) && s.tick == Idle && t.tick == Idle && !a.Monitor?
    requires t == Next(cfg, s, a) && t.now - lastTick <= gap
    ensures ReachableOn(cfg, gap, t, lastTick)
  {
    StepOn(cfg, gap, s, lastTick, a, t, lastTick);
  }

  lemma AdvanceOn(cfg: Config, gap: int, s: State, lastTick: int, elapsed: nat)
    requires ReachableOn(cfg, gap, s, lastTick) && s.tick == Idle && s.now + elapsed - lastTick <= gap
    ensures ReachableOn(cfg, gap, s.(now := s.now + elapsed), lastTick)
  {
    var t := s.(now := s.now + elapsed);
    assert NextOther(cfg, s, Advance(elapsed)) == t;
    QuietStepOn(cfg, gap, s, lastTick, Advance(elapsed), t);
  }

  /** A tick with nothing to do. */
  lemma TickOn(cfg: Config, gap: int, s: State, lastTick: int)
    requires ReachableOn(cfg, gap, s, lastTick) && s.tick == Idle && Settled(cfg, s) && gap >= 0
    ensures ReachableOn(cfg, gap, s, s.now)
  {
    SettledIsFixpoint(cfg, s);
    NextTick(cfg, s);
    StepOn(cfg, gap, s, lastTick, Monitor, s, s.now);
  }

  /** Ticks every millisecond change nothing but the clock while no booking is due. */
  lemma {:induction false} WaitOn(cfg: Config, gap: int, s: State, until: int)
    requires ReachableOn(cfg, gap, s, s.now) && s.tick == Idle && gap > 0 && s.now <= until
    requires Settled(cfg, s.(now := until))
    ensures ReachableOn(cfg, gap, s.(now := until), until)
    decreases until - s.now
  {
    if s.now == until {
      assert s.(now := until) == s;
    } else {
      var t := s.(now := s.now + 1);
      EarlierSettled(cfg, s.(now := until), s.now + 1);
      assert s.(now := until).(now := s.now + 1) == t && t.(now := until) == s.(now := until);
      AdvanceOn(cfg, gap, s, s.now, 1);
      TickOn(cfg, gap, t, s.now);
      WaitOn(cfg, gap, t, until);
    }
  }

  lemma EarlierSettled(cfg: Config, s: State, now: int)
    requires Settled(cfg, s) && now <= s.now
    ensures Settled(cfg, s.(now := now))
  {
    forall id | id in s.reservations
      ensures RowSettled(cfg, now, s.reservations[id])
    {
      assert RowSettled(cfg, s.now, s.reservations[id]);
    }
  }

  // ------------------------------------------------------------------ one stay that falls behind

  lemma FirstBookedOn(cfg: Config, gap: int)
    requires gap > 0
    ensures ReachableOn(cfg, gap, FirstBooked(cfg), 0)
  {
    assert OnRun(cfg, gap, 0, [], Opening(0), 0);
    OpeningStepOn(cfg, gap, 0);
    OpeningStepOn(cfg, gap, 1);
    OpeningStepOn(cfg, gap, 2);
    OpeningStepOn(cfg, gap, 3);
    assert Opening(4) == Opened();
    BookOn(cfg, gap, Opened(), BookingRequest(1, 1, 0, 15, 1, 1, 1), FirstBooked(cfg)) by {
      FirstBooks(cfg);
    }
  }

  lemma BookOn(cfg: Config, gap: int, s: State, req: BookingRequest, t: State)
    requires ReachableOn(cfg, gap, s, s.now) && gap > 0 && s.tick == Idle && t == Create(cfg, s, req)
    ensures ReachableOn(cfg, gap, t, s.now)
  {
    QuietStepOn(cfg, gap, s, s.now, Book(req), t);
  }

  lemma OpeningStepOn(cfg: Config, gap: int, k: nat)
    requires k < 4 && gap > 0 && ReachableOn(cfg, gap, Opening(k), 0)
    ensures ReachableOn(cfg, gap, Opening(k + 1), 0)
  {
    OpeningStep(cfg, k);
    QuietStepOn(cfg, gap, Opening(k), 0, OpeningAction(k), Opening(k + 1));
  }

  /** The vehicle comes in at `since`, and there was a tick at that very time. */
  lemma EnteredOn(cfg: Config, gap: int, since: nat)
    requires gap > 0 && since <= cfg.grace
    ensures ReachableOn(cfg, gap, LoneStay(cfg, since, since), since)
  {
    var s := FirstBooked(cfg);
    FirstBookedOn(cfg, gap);
    WaitOn(cfg, gap, s, since);
    LoneScans(cfg, since);
    NextScanIn(cfg, s.(now := since), 1, 3);
    QuietStepOn(cfg, gap, s.(now := since), since, ScanIn(1, 3), LoneStay(cfg, since, since));
  }

  /** Then no tick for the whole gap. */
  lemma LateOn(cfg: Config, gap: int, since: int, lastTick: int) returns (t: State)
    requires gap > 0 && ReachableOn(cfg, gap, LoneStay(cfg, since, lastTick), lastTick)
    ensures ReachableOn(cfg, gap, t, lastTick) && t.now == lastTick + gap && Lone(t, since)
  {
    var s := LoneStay(cfg, since, lastTick);
    t := LoneStay(cfg, since, lastTick + gap);
    assert s.(now := s.now + gap) == t && s.now == lastTick && s.tick == Idle;
    AdvanceOn(cfg, gap, s, lastTick, gap);
  }

  /** The vehicle comes in at once, and the last tick is just before its buffered end. */
  lemma TickBeforeDueOn(cfg: Config, gap: int)
    requires gap > 0
    ensures var due := 15 * MINUTE + cfg.buffer;
      ReachableOn(cfg, gap, LoneStay(cfg, 0, due - 1), due - 1)
  {
    var last := 15 * MINUTE + cfg.buffer - 1;
    EnteredOn(cfg, gap, 0);
    assert LoneStay(cfg, 0, 0).(now := last) == LoneStay(cfg, 0, last);
    WaitOn(cfg, gap, LoneStay(cfg, 0, 0), last);
  }

  /** The only booking is the one of a stay that has not been extended. */
  ghost predicate Lone(s: State, since: int) {
    && s.reservations == map[1 := Stay(0, CheckedIn, Some(since))]
    && 1 in s.slots && s.slots[1].basePrice == 100 && s.challans == map[]
  }

  /** A tick extends an overdue stay by one hour only. */
  lemma LoneStayExtends(cfg: Config, s: State, since: int)
    requires Lone(s, since) && s.now >= 15 * MINUTE + cfg.buffer
    ensures var t := Tick(cfg, s);
      1 in t.reservations && t.reservations[1] == Stay(0, CheckedIn, Some(since)).(endTime := 15 * MINUTE + HOUR)
  {
    var row := ActiveRow(1, 15 * MINUTE, 100);
    assert NoShows(cfg, s) == {};
    assert Decide(cfg, s, 1, row, s.now) == Extend;
    TickRowWithoutNoShows(cfg, s, 1, row, Extend);
  }

  // ------------------------------------------------------------------ the bound

  /** Ticks at least every `gap` are enough, whatever else happens. */
  ghost predicate KeepsUp(cfg: Config, gap: int) {
    forall s, lastTick :: ReachableOn(cfg, gap, s, lastTick) ==> TickCatchesUp(cfg, s)
  }

  lemma FrequentKeepsUp(cfg: Config, gap: int, s: State, lastTick: int)
    requires FrequentEnough(cfg, gap) && ReachableOn(cfg, gap, s, lastTick)
    ensures TickCatchesUp(cfg, s)
  {
    var now: int, actions: seq<Action> :| OnRun(cfg, gap, now, actions, s, lastTick);
    RegularTicksKeepUp(cfg, now, actions, gap);
  }

  lemma LateStay(cfg: Config, s: State, since: int)
    requires Lone(s, since) && s.now >= 15 * MINUTE + HOUR + cfg.buffer
    ensures !TickCatchesUp(cfg, s)
  {
    LoneStayExtends(cfg, s, since);
    TickFrame(cfg, s);
  }

  /**
   * The exact bound: over all punctual runs without a due race, every tick leaves each vehicle before
   * its buffered end if and only if the time between ticks is frequent enough.
   */
  lemma KeepsUpIffFrequentEnough(cfg: Config, gap: int)
    requires gap > 0
    ensures KeepsUp(cfg, gap) <==> FrequentEnough(cfg, gap)
  {
    if FrequentEnough(cfg, gap) {
      forall s, lastTick | ReachableOn(cfg, gap, s, lastTick)
        ensures TickCatchesUp(cfg, s)
      {
        FrequentKeepsUp(cfg, gap, s, lastTick);
      }
    } else if gap > HOUR {
      TickBeforeDueOn(cfg, gap);
      FallsBehind(cfg, gap, 0, 15 * MINUTE + cfg.buffer - 1);
    } else {
      EnteredOn(cfg, gap, cfg.grace);
      FallsBehind(cfg, gap, cfg.grace, cfg.grace);
    }
  }

  lemma FallsBehind(cfg: Config, gap: int, since: int, lastTick: int)
    requires gap > 0 && ReachableOn(cfg, gap, LoneStay(cfg, since, lastTick), lastTick)
    requires lastTick + gap >= 15 * MINUTE + HOUR + cfg.buffer
    ensures !KeepsUp(cfg, gap)
  {
    var t := LateOn(cfg, gap, since, lastTick);
    LateStay(cfg, t, since);
  }
}
