/** Loops whose order the source leaves open: blocking a user, and the tick taken write by write. */
module Orders {
  import opened Collections
  import opened Model
  import opened Lifecycle
  import opened Monitoring
  import opened Runs

  // ------------------------------------------------------------------ blocking is cancelling

  /** Staff cancels the listed bookings one after the other through the ordinary endpoint. */
  function CancelInOrder(s: State, order: seq<Uuid>, staff: Uuid): State {
    if order == [] then s
    else
      var before := CancelInOrder(s, order[..|order| - 1], staff);
      Cancel(before, order[|order| - 1], staff, true)
  }

  lemma {:induction false} CancelInOrderIsCancelAll(s: State, order: seq<Uuid>, staff: Uuid)
    requires forall id :: id in order ==> id in s.reservations && s.reservations[id].status == Confirmed
    ensures CancelInOrder(s, order, staff) == CancelAll(s, Members(order))
    decreases |order|
  {
    if order == [] {
      CancelAllNone(s);
    } else {
      var init, last := order[..|order| - 1], order[|order| - 1];
      assert order == init + [last];
      assert Members(order) == Members(init) + {last};
      CancelInOrderIsCancelAll(s, init, staff);
      if last in Members(init) {
        assert Members(order) == Members(init);
      } else {
        CancelAllNext(s, Members(init), last);
      }
    }
  }

  /** `block` is cancelling the user's confirmed bookings in any order, and marking the user. */
  lemma BlockIsCancelling(s: State, user: Uuid, requester: Uuid, staff: Uuid, order: seq<Uuid>)
    requires BlockOutcome(s, user, requester) == Accepted
    requires Members(order) == ConfirmedOf(s.reservations, user)
    ensures Block(s, user, requester)
         == CancelInOrder(s, order, staff).(users := s.users[user := s.users[user].(isBlocked := true)])
  {
    forall id | id in order
      ensures id in s.reservations && s.reservations[id].status == Confirmed
    {
      assert id in Members(order);
    }
    CancelInOrderIsCancelAll(s, order, staff);
  }

  // ------------------------------------------------------------------ the tick is its writes

  function SweepInOrder(s: State, order: seq<Uuid>): State {
    if order == [] then s else SweepStep(SweepInOrder(s, order[..|order| - 1]), order[|order| - 1])
  }

  lemma {:induction false} SweepInOrderIsCancelAll(s: State, noShows: set<Uuid>, order: seq<Uuid>)
    requires s.tick == Sweeping(noShows) && noShows <= s.reservations.Keys && Members(order) <= noShows
    ensures SweepInOrder(s, order) == CancelAll(s, Members(order)).(tick := Sweeping(noShows - Members(order)))
    decreases |order|
  {
    if order == [] {
      CancelAllNone(s);
      assert noShows - Members(order) == noShows;
    } else {
      var init, last := order[..|order| - 1], order[|order| - 1];
      assert order == init + [last];
      assert Members(order) == Members(init) + {last};
      assert last in Members(order);
      SweepInOrderIsCancelAll(s, noShows, init);
      if last in Members(init) {
        assert Members(order) == Members(init);
      } else {
        assert noShows - Members(order) == noShows - Members(init) - {last};
        SweepOneMore(s, noShows, Members(init), last);
      }
    }
  }

  lemma SweepOneMore(s: State, noShows: set<Uuid>, done: set<Uuid>, id: Uuid)
    requires noShows <= s.reservations.Keys && id in noShows && id !in done
    ensures SweepStep(CancelAll(s, done).(tick := Sweeping(noShows - done)), id)
         == CancelAll(s, done + {id}).(tick := Sweeping(noShows - done - {id}))
  {
    var most := CancelAll(s, done);
    CancelAllNext(s, done, id);
    assert CancelWrites(most.(tick := Sweeping(noShows - done)), id)
        == CancelWrites(most, id).(tick := Sweeping(noShows - done));
  }

  function ResolveInOrder(cfg: Config, s: State, order: seq<Uuid>): State
    decreases |order|
  {
    if order == [] then s else ResolveInOrder(cfg, ResolveStep(cfg, s, order[0]), order[1..])
  }

  /** Whatever the order, and even with repetitions, the turns of the loop add up to the closed form. */
  lemma {:induction false} ResolveInOrderIsResolveAll(
    cfg: Config, s: State, at: int, active: map<Uuid, ActiveRow>, order: seq<Uuid>)
    requires s.tick == Resolving(at, active) && AllRemembered(cfg, s.reservations, active, at)
    requires active.Keys <= Members(order)
    ensures ResolveInOrder(cfg, s, order) == ResolveAll(cfg, s, active, at).(tick := Resolving(at, map[]))
    decreases |order|
  {
    if order == [] {
      assert active == map[];
      ResolveAllNone(cfg, s, at);
    } else {
      var id := order[0];
      assert order == [id] + order[1..];
      assert Members(order) == {id} + Members(order[1..]);
      if id in active {
        var one := Resolve(cfg, s, id, active[id], at);
        ResolveKeepsRemembered(cfg, s, active, id, at);
        ResolveAllSplit(cfg, s, active, id, at);
        ResolveInOrderIsResolveAll(cfg, ResolveStep(cfg, s, id), at, active - {id}, order[1..]);
        ResolveAllTick(cfg, one, active - {id}, at, Resolving(at, active - {id}));
      } else {
        ResolveInOrderIsResolveAll(cfg, s, at, active, order[1..]);
      }
    }
  }

  /** The closed form neither reads nor writes the tick's own memory. */
  lemma ResolveAllTick(cfg: Config, s: State, active: map<Uuid, ActiveRow>, at: int, phase: TickPhase)
    ensures ResolveAll(cfg, s.(tick := phase), active, at) == ResolveAll(cfg, s, active, at).(tick := phase)
  {
    assert Decisions(cfg, s.(tick := phase), active, at) == Decisions(cfg, s, active, at);
    ApplyAllTick(cfg, s, active, Decisions(cfg, s, active, at), phase);
  }

  lemma ApplyAllTick(cfg: Config, s: State, active: map<Uuid, ActiveRow>, decisions: map<Uuid, Decision>,
                     phase: TickPhase)
    ensures ApplyAll(cfg, s.(tick := phase), active, decisions) == ApplyAll(cfg, s, active, decisions).(tick := phase)
  {
  }

  lemma CancelAllTick(s: State, ids: set<Uuid>, phase: TickPhase)
    ensures CancelAll(s.(tick := phase), ids) == CancelAll(s, ids).(tick := phase)
  {
  }

  /**
   * Nothing in between: the two queries and the single writes, each list in any order, amount to the
   * one-step tick.
   */
  lemma TickIsItsWrites(cfg: Config, s: State, sweeps: seq<Uuid>, turns: seq<Uuid>)
    requires s.tick == Idle
    requires Members(sweeps) == NoShows(cfg, s)
    requires Members(turns) == ActiveRows(SweepAll(cfg, s)).Keys
    ensures var begun := NextOther(cfg, s, BeginSweep);
      var swept := NextOther(cfg, SweepInOrder(begun, sweeps), BeginResolve);
      NextOther(cfg, ResolveInOrder(cfg, swept, turns), EndTick) == Tick(cfg, s)
  {
    var clean := SweepAll(cfg, s);
    SweepPhase(cfg, s, sweeps);
    TurnsPhase(cfg, clean, s.now, turns);
    EndPhase(cfg, ResolveAll(cfg, clean, ActiveRows(clean), s.now), s.now);
  }

  /** All turns, on the rows of the state they were read in. */
  lemma TurnsPhase(cfg: Config, s: State, at: int, turns: seq<Uuid>)
    requires Members(turns) == ActiveRows(s).Keys
    ensures ResolveInOrder(cfg, s.(tick := Resolving(at, ActiveRows(s))), turns)
         == ResolveAll(cfg, s, ActiveRows(s), at).(tick := Resolving(at, map[]))
  {
    var active := ActiveRows(s);
    var phase := Resolving(at, active);
    ResolveInOrderIsResolveAll(cfg, s.(tick := phase), at, active, turns);
    ResolveAllTick(cfg, s, active, at, phase);
  }

  lemma EndPhase(cfg: Config, s: State, at: int)
    requires s.tick == Idle
    ensures NextOther(cfg, s.(tick := Resolving(at, map[])), EndTick) == s
  {
  }

  lemma SweepPhase(cfg: Config, s: State, sweeps: seq<Uuid>)
    requires s.tick == Idle && Members(sweeps) == NoShows(cfg, s)
    ensures var begun := NextOther(cfg, s, BeginSweep);
      var swept := SweepAll(cfg, s);
      NextOther(cfg, SweepInOrder(begun, sweeps), BeginResolve) == swept.(tick := Resolving(s.now, ActiveRows(swept)))
  {
    var noShows := NoShows(cfg, s);
    SweepInOrderIsCancelAll(s.(tick := Sweeping(noShows)), noShows, sweeps);
    CancelAllTick(s, noShows, Sweeping(noShows));
    assert noShows - noShows == {};
  }
}
