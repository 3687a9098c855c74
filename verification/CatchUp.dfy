/** Repeated ticks settle every overdue booking. */
module CatchUp {
  import opened Collections
  import opened Model
  import opened Lifecycle
  import opened Monitoring
  import opened Invariants
  import opened Preservation
  import opened Runs

  // ------------------------------------------------------------------ what one tick does to one row

  /** The row a tick leaves behind. */
  ghost predicate TickedRow(cfg: Config, now: int, r: Reservation, q: Reservation) {
    match r.status
    case Confirmed => q == (if r.startTime < now - cfg.grace then r.(status := Cancelled) else r)
    case CheckedIn =>
      if now >= r.endTime + cfg.buffer
      then q == r.(status := Overtime) || q == r.(endTime := r.endTime + HOUR)
      else q == r
    case _ => q == r
  }

  lemma ResolvedRow(cfg: Config, s: State, id: Uuid, at: int)
    requires id in s.reservations && s.reservations[id].slot in s.slots
    requires s.bookings.Keys == s.reservations.Keys && Ladders(s.challans, s.bookings, s.reservations)
    ensures var t, r := ResolveAll(cfg, s, ActiveRows(s), at), s.reservations[id];
      && id in t.reservations
      && (r.status == CheckedIn ==> TickedRow(cfg, at, r, t.reservations[id]))
      && (r.status != CheckedIn ==> t.reservations[id] == r)
  {
    var r, active := s.reservations[id], ActiveRows(s);
    RowOfResolveAll(cfg, s, active, at, id);
    if r.status == CheckedIn {
      if GraceExpired(cfg, active[id], at) {
        NeverAlreadyProcessed(cfg, s, id, active[id], at);
      }
    }
  }

  lemma TickRow(cfg: Config, s: State, id: Uuid)
    requires Core(cfg, s) && id in s.reservations
    ensures id in Tick(cfg, s).reservations
    ensures TickedRow(cfg, s.now, s.reservations[id], Tick(cfg, s).reservations[id])
  {
    var r := s.reservations[id];
    CancelAllKeeps(cfg, s, NoShows(cfg, s));
    SweptRow(cfg, s, id);
    ResolvedRow(cfg, SweepAll(cfg, s), id, s.now);
  }

  // ------------------------------------------------------------------ catching up with the clock held fixed

  /** How many one-hour steps a row is behind the clock. */
  function Lag(cfg: Config, now: int, r: Reservation): nat {
    if r.status == CheckedIn && now >= r.endTime + cfg.buffer then (now - r.endTime - cfg.buffer) / HOUR + 1 else 0
  }

  predicate NoLag(cfg: Config, s: State) {
    forall id :: id in s.reservations ==> Lag(cfg, s.now, s.reservations[id]) == 0
  }

  function Lags(cfg: Config, s: State): map<Uuid, int> {
    map id | id in s.reservations :: Lag(cfg, s.now, s.reservations[id])
  }

  ghost function TotalLag(cfg: Config, s: State): int {
    SumOver(Lags(cfg, s), s.reservations.Keys)
  }

  /** No booking waits for the sweep and none is past its grace period. */
  predicate Settled(cfg: Config, s: State) {
    forall id :: id in s.reservations ==> RowSettled(cfg, s.now, s.reservations[id])
  }

  predicate RowSettled(cfg: Config, now: int, r: Reservation) {
    && (r.status == Confirmed ==> r.startTime + cfg.grace >= now)
    && (r.status == CheckedIn ==> now < r.endTime + cfg.buffer)
  }

  lemma TickFrame(cfg: Config, s: State)
    ensures Tick(cfg, s).now == s.now && Tick(cfg, s).reservations.Keys == s.reservations.Keys
    ensures Tick(cfg, s).tick == s.tick
  {
  }

  lemma TickLowersLag(cfg: Config, s: State, id: Uuid)
    requires Core(cfg, s) && id in s.reservations
    ensures id in Tick(cfg, s).reservations
    ensures var before, after := Lag(cfg, s.now, s.reservations[id]), Lag(cfg, s.now, Tick(cfg, s).reservations[id]);
      after == 0 || after < before
  {
    TickRow(cfg, s, id);
    var r := s.reservations[id];
    assert (s.now - (r.endTime + HOUR) - cfg.buffer) / HOUR == (s.now - r.endTime - cfg.buffer) / HOUR - 1;
  }

  lemma {:induction false} SumOverLess(a: map<Uuid, int>, b: map<Uuid, int>, keys: set<Uuid>)
    requires keys <= a.Keys && keys <= b.Keys
    requires forall id :: id in keys ==> a[id] == 0 || a[id] < b[id]
    requires forall id :: id in keys ==> 0 <= a[id] && 0 <= b[id]
    ensures 0 <= SumOver(a, keys) <= SumOver(b, keys)
    ensures (exists id :: id in keys && b[id] > 0) ==> SumOver(a, keys) < SumOver(b, keys)
    decreases keys
  {
    if keys != {} {
      var id :| id in keys;
      SumOverRemove(a, keys, id);
      SumOverRemove(b, keys, id);
      SumOverLess(a, b, keys - {id});
      if k :| k in keys && b[k] > 0 {
        assert k == id || k in keys - {id};
      }
    }
  }

  /** The total lag strictly falls with every tick until no booking is overdue. */
  lemma TickLowersTotal(cfg: Config, s: State)
    requires Core(cfg, s)
    ensures 0 <= TotalLag(cfg, Tick(cfg, s)) <= TotalLag(cfg, s)
    ensures !NoLag(cfg, s) ==> TotalLag(cfg, Tick(cfg, s)) < TotalLag(cfg, s)
  {
    var t := Tick(cfg, s);
    TickFrame(cfg, s);
    forall id | id in s.reservations
      ensures Lags(cfg, t)[id] == 0 || Lags(cfg, t)[id] < Lags(cfg, s)[id]
    {
      TickLowersLag(cfg, s, id);
    }
    SumOverLess(Lags(cfg, t), Lags(cfg, s), s.reservations.Keys);
    if !NoLag(cfg, s) {
      var id :| id in s.reservations && Lag(cfg, s.now, s.reservations[id]) != 0;
      assert Lags(cfg, s)[id] > 0;
    }
  }

  /** After any tick no confirmed booking is past its check-in grace. */
  predicate Swept(cfg: Config, s: State) {
    forall id :: id in s.reservations && s.reservations[id].status == Confirmed ==>
      s.reservations[id].startTime + cfg.grace >= s.now
  }

  lemma TickSweeps(cfg: Config, s: State)
    requires Core(cfg, s)
    ensures Swept(cfg, Tick(cfg, s))
  {
    var t := Tick(cfg, s);
    TickFrame(cfg, s);
    forall id | id in t.reservations && t.reservations[id].status == Confirmed
      ensures t.reservations[id].startTime + cfg.grace >= s.now
    {
      TickRow(cfg, s, id);
    }
  }

  /** A settled state is a fixpoint of the tick. */
  lemma SettledIsFixpoint(cfg: Config, s: State)
    requires Settled(cfg, s)
    ensures Tick(cfg, s) == s
  {
    assert NoShows(cfg, s) == {} by {
      forall id | id in s.reservations
        ensures RowSettled(cfg, s.now, s.reservations[id])
      {
      }
    }
    CancelAllNone(s);
    var active := ActiveRows(s);
    var decisions := Decisions(cfg, s, active, s.now);
    forall id | id in active
      ensures decisions[id] == Leave
    {
      assert RowSettled(cfg, s.now, s.reservations[id]);
    }
    assert NewKeys(active, decisions) == {};
    AllLeave(cfg, s, active, decisions);
  }

  lemma AllLeave(cfg: Config, s: State, active: map<Uuid, ActiveRow>, decisions: map<Uuid, Decision>)
    requires forall id :: id in decisions ==> decisions[id] == Leave
    requires NewKeys(active, decisions) == {}
    ensures ApplyAll(cfg, s, active, decisions) == s
  {
    assert RowsAfter(s.reservations, active, decisions) == s.reservations;
    assert ChallansAfter(cfg, s.challans, active, {}) == s.challans;
  }

  lemma NoLagIsSettled(cfg: Config, s: State)
    requires Swept(cfg, s) && NoLag(cfg, s)
    ensures Settled(cfg, s)
  {
    forall id | id in s.reservations
      ensures RowSettled(cfg, s.now, s.reservations[id])
    {
      assert Lag(cfg, s.now, s.reservations[id]) == 0;
    }
  }

  lemma TickMakesProgress(cfg: Config, s: State)
    requires Core(cfg, s)
    ensures var t := Tick(cfg, s);
      && Core(cfg, t) && Swept(cfg, t) && t.now == s.now
      && 0 <= TotalLag(cfg, t) <= TotalLag(cfg, s)
      && (!NoLag(cfg, s) ==> TotalLag(cfg, t) < TotalLag(cfg, s))
  {
    TickLowersTotal(cfg, s);
    TickKeeps(cfg, s);
    TickSweeps(cfg, s);
    TickFrame(cfg, s);
  }

  /** A state and what one tick after the other makes of it. */
  ghost predicate TickTrace(cfg: Config, trace: seq<State>) {
    trace != [] && forall i :: 0 <= i < |trace| - 1 ==> IsTick(cfg, trace[i], trace[i + 1])
  }

  ghost predicate IsTick(cfg: Config, s: State, t: State) {
    t == Tick(cfg, s)
  }

  /** There are as many ticks as one asks for. */
  lemma {:induction false} TickTraceExists(cfg: Config, s: State, times: nat) returns (trace: seq<State>)
    ensures TickTrace(cfg, trace) && trace[0] == s && |trace| == times + 1
  {
    if times == 0 {
      trace := [s];
    } else {
      var first := TickTraceExists(cfg, s, times - 1);
      trace := first + [Tick(cfg, first[times - 1])];
      forall i | 0 <= i < times
        ensures IsTick(cfg, trace[i], trace[i + 1])
      {
        if i < times - 1 {
          assert IsTick(cfg, first[i], first[i + 1]);
        }
      }
    }
  }

  /** What `times` ticks at a fixed clock achieve. */
  ghost predicate Progress(cfg: Config, s: State, t: State, times: nat) {
    && Core(cfg, t) && t.now == s.now && (times > 0 ==> Swept(cfg, t))
    && 0 <= TotalLag(cfg, t) && (TotalLag(cfg, t) == 0 || TotalLag(cfg, t) + times <= TotalLag(cfg, s))
  }

  lemma NoProgress(cfg: Config, s: State)
    requires Core(cfg, s)
    ensures Progress(cfg, s, s, 0)
  {
    TickMakesProgress(cfg, s);
  }

  lemma ProgressByTick(cfg: Config, s: State, t: State, times: nat)
    requires Progress(cfg, s, t, times)
    ensures Progress(cfg, s, Tick(cfg, t), times + 1)
  {
    TickMakesProgress(cfg, t);
    if NoLag(cfg, t) {
      NoLagStays(cfg, t);
    }
  }

  lemma {:induction false} TicksMakeProgress(cfg: Config, trace: seq<State>, times: nat)
    requires TickTrace(cfg, trace) && Core(cfg, trace[0]) && times < |trace|
    ensures Progress(cfg, trace[0], trace[times], times)
  {
    if times == 0 {
      NoProgress(cfg, trace[0]);
    } else {
      TicksMakeProgress(cfg, trace, times - 1);
      assert IsTick(cfg, trace[times - 1], trace[times - 1 + 1]);
      ProgressByNextTick(cfg, trace[0], times - 1, trace[times - 1], trace[times]);
    }
  }

  lemma ProgressByNextTick(cfg: Config, s: State, times: nat, t: State, u: State)
    requires Progress(cfg, s, t, times) && IsTick(cfg, t, u)
    ensures Progress(cfg, s, u, times + 1)
  {
    ProgressByTick(cfg, s, t, times);
  }

  lemma NoLagStays(cfg: Config, s: State)
    requires Core(cfg, s) && NoLag(cfg, s)
    ensures TotalLag(cfg, Tick(cfg, s)) == 0
  {
    var t := Tick(cfg, s);
    TickFrame(cfg, s);
    forall id | id in t.reservations
      ensures Lags(cfg, t)[id] == 0
    {
      TickLowersLag(cfg, s, id);
    }
    SumOverZero(Lags(cfg, t), t.reservations.Keys);
  }

  lemma {:induction false} SumOverZero(a: map<Uuid, int>, keys: set<Uuid>)
    requires keys <= a.Keys && forall id :: id in keys ==> a[id] == 0
    ensures SumOver(a, keys) == 0
    decreases keys
  {
    if keys != {} {
      var id :| id in keys;
      SumOverRemove(a, keys, id);
      SumOverZero(a, keys - {id});
    }
  }

  /**
   * With the clock held fixed, one tick more than the summed hours of delay reaches a fixpoint in
   * which no confirmed booking is past its check-in grace and no vehicle past its buffered end.
   */
  lemma CatchUpTerminates(cfg: Config, trace: seq<State>)
    requires TickTrace(cfg, trace) && Core(cfg, trace[0]) && |trace| - 1 > TotalLag(cfg, trace[0])
    ensures var t := trace[|trace| - 1];
      t.now == trace[0].now && Settled(cfg, t) && Tick(cfg, t) == t
  {
    var last := |trace| - 1;
    TickMakesProgress(cfg, trace[0]);
    TicksMakeProgress(cfg, trace, last);
    NoTotalLag(cfg, trace[last]);
    NoLagIsSettled(cfg, trace[last]);
    SettledIsFixpoint(cfg, trace[last]);
  }

  lemma NoTotalLag(cfg: Config, s: State)
    requires Core(cfg, s) && TotalLag(cfg, s) == 0
    ensures NoLag(cfg, s)
  {
    TickMakesProgress(cfg, s);
  }
}
