/** backend/src/modules/reservation/reservation-monitoring.service.ts on the whole state. */
module Monitoring {
  import opened Model
  import opened Billing
  import opened Lifecycle

  function NoShows(cfg: Config, s: State): set<Uuid> {
    set id | id in s.reservations && s.reservations[id].status == Confirmed
      && s.reservations[id].startTime < s.now - cfg.grace
  }

  /** The `findMany` of `processActiveBookings`, joined with the slot. */
  function ActiveRows(s: State): map<Uuid, ActiveRow> {
    map id | id in s.reservations && s.reservations[id].status == CheckedIn && s.reservations[id].slot in s.slots ::
      ActiveRow(s.reservations[id].slot, s.reservations[id].endTime, s.slots[s.reservations[id].slot].basePrice)
  }

  // ------------------------------------------------------------------ one active booking

  predicate GraceExpired(cfg: Config, row: ActiveRow, at: int) {
    at >= row.endTime + cfg.buffer
  }

  datatype Decision = Leave | Penalise | Extend

  function Decide(cfg: Config, s: State, id: Uuid, row: ActiveRow, at: int): Decision {
    if id !in s.reservations || !GraceExpired(cfg, row, at) then Leave
    else if Queued(s.reservations, row.slot, row.endTime)
    then if ChallanKey(id, OvertimePenalty, row.endTime) in s.challans then Leave else Penalise
    else if ChallanKey(id, Extension, row.endTime) in s.challans then Leave else Extend
  }

  function RowAfter(r: Reservation, row: ActiveRow, decision: Decision): Reservation {
    match decision
    case Leave => r
    case Penalise => r.(status := Overtime)
    case Extend => r.(endTime := row.endTime + HOUR)
  }

  function KeyOf(id: Uuid, row: ActiveRow, decision: Decision): ChallanKey {
    ChallanKey(id, if decision == Penalise then OvertimePenalty else Extension, row.endTime)
  }

  function AmountOf(cfg: Config, kind: ChallanType, row: ActiveRow): int {
    if kind == Extension then row.basePrice else OvertimeCharge(cfg, row.basePrice)
  }

  function Apply(cfg: Config, s: State, id: Uuid, row: ActiveRow, decision: Decision): State
    requires decision != Leave ==> id in s.reservations
  {
    if decision == Leave then s
    else
      var key := KeyOf(id, row, decision);
      s.(challans := s.challans[key := AmountOf(cfg, key.kind, row)],
         reservations := s.reservations[id := RowAfter(s.reservations[id], row, decision)])
  }

  /** One turn of the loop of `processActiveBookings`; `row` is what the tick read, perhaps earlier. */
  function Resolve(cfg: Config, s: State, id: Uuid, row: ActiveRow, at: int): State {
    Apply(cfg, s, id, row, Decide(cfg, s, id, row, at))
  }

  /** Once the grace period has expired, the exact time of the turn no longer matters; before, nothing happens. */
  lemma TurnAt(cfg: Config, s: State, id: Uuid, row: ActiveRow, at: int)
    ensures Resolve(cfg, s, id, row, at)
         == if GraceExpired(cfg, row, at) then Resolve(cfg, s, id, row, row.endTime + cfg.buffer) else s
  {
  }

  // ------------------------------------------------------------------ all active bookings: closed form

  function NewKeys(active: map<Uuid, ActiveRow>, decisions: map<Uuid, Decision>): set<ChallanKey> {
    set id | id in decisions && id in active && decisions[id] != Leave :: KeyOf(id, active[id], decisions[id])
  }

  function RowsAfter(rows: map<Uuid, Reservation>, active: map<Uuid, ActiveRow>, decisions: map<Uuid, Decision>)
    : map<Uuid, Reservation>
  {
    map id | id in rows ::
      if id in decisions && id in active then RowAfter(rows[id], active[id], decisions[id]) else rows[id]
  }

  function ChallansAfter(cfg: Config, challans: map<ChallanKey, int>, active: map<Uuid, ActiveRow>,
                         keys: set<ChallanKey>)
    : map<ChallanKey, int>
  {
    map key | key in challans.Keys + keys ::
      if key in keys && key.reservation in active then AmountOf(cfg, key.kind, active[key.reservation])
      else if key in challans then challans[key] else 0
  }

  function ApplyAll(cfg: Config, s: State, active: map<Uuid, ActiveRow>, decisions: map<Uuid, Decision>): State {
    s.(reservations := RowsAfter(s.reservations, active, decisions),
       challans := ChallansAfter(cfg, s.challans, active, NewKeys(active, decisions)))
  }

  function Decisions(cfg: Config, s: State, active: map<Uuid, ActiveRow>, at: int): map<Uuid, Decision> {
    map id | id in active :: Decide(cfg, s, id, active[id], at)
  }

  function ResolveAll(cfg: Config, s: State, active: map<Uuid, ActiveRow>, at: int): State {
    ApplyAll(cfg, s, active, Decisions(cfg, s, active, at))
  }

  lemma ResolveAllNone(cfg: Config, s: State, at: int)
    ensures ResolveAll(cfg, s, map[], at) == s
  {
    var r := ResolveAll(cfg, s, map[], at);
    assert r.reservations == s.reservations;
    assert r.challans == s.challans;
  }

  /** Rows that are not confirmed do not matter to the queue query. */
  lemma QueuedFrame(rows: map<Uuid, Reservation>, id: Uuid, r: Reservation, slot: Uuid, endTime: int)
    requires id in rows && rows[id].status != Confirmed && r.status != Confirmed
    ensures Queued(rows[id := r], slot, endTime) == Queued(rows, slot, endTime)
  {
    if Queued(rows, slot, endTime) {
      var x :| x in rows && rows[x].slot == slot && rows[x].status == Confirmed && rows[x].startTime > endTime;
      assert rows[id := r][x] == rows[x];
    }
    if Queued(rows[id := r], slot, endTime) {
      var x :| x in rows[id := r] && rows[id := r][x].slot == slot && rows[id := r][x].status == Confirmed
        && rows[id := r][x].startTime > endTime;
      assert x != id && rows[x] == rows[id := r][x];
    }
  }

  /** One booking's turn does not change what any other booking's turn decides. */
  lemma TurnsIndependent(cfg: Config, s: State, id: Uuid, row: ActiveRow, decision: Decision,
                         other: Uuid, otherRow: ActiveRow, at: int)
    requires id != other && id in s.reservations && s.reservations[id].status != Confirmed
    ensures Decide(cfg, Apply(cfg, s, id, row, decision), other, otherRow, at) == Decide(cfg, s, other, otherRow, at)
  {
    QueuedFrame(s.reservations, id, RowAfter(s.reservations[id], row, decision), otherRow.slot, otherRow.endTime);
  }

  /** Taking any one booking first and the rest as a set is the whole set: the list order is irrelevant. */
  lemma ResolveAllSplit(cfg: Config, s: State, active: map<Uuid, ActiveRow>, id: Uuid, at: int)
    requires id in active
    requires forall x :: x in active && x in s.reservations ==> s.reservations[x].status != Confirmed
    ensures ResolveAll(cfg, Resolve(cfg, s, id, active[id], at), active - {id}, at) == ResolveAll(cfg, s, active, at)
  {
    var decision := Decide(cfg, s, id, active[id], at);
    var one := Apply(cfg, s, id, active[id], decision);
    var all := Decisions(cfg, s, active, at);
    forall x | x in active - {id}
      ensures Decide(cfg, one, x, active[x], at) == all[x]
    {
      if id in s.reservations {
        TurnsIndependent(cfg, s, id, active[id], decision, x, active[x], at);
      }
    }
    assert Decisions(cfg, one, active - {id}, at) == all - {id};
    ApplyAllSplit(cfg, s, active, all, id);
  }

  lemma ApplyAllSplit(cfg: Config, s: State, active: map<Uuid, ActiveRow>, decisions: map<Uuid, Decision>, id: Uuid)
    requires active.Keys == decisions.Keys && id in active
    requires decisions[id] != Leave ==> id in s.reservations
    ensures ApplyAll(cfg, Apply(cfg, s, id, active[id], decisions[id]), active - {id}, decisions - {id})
         == ApplyAll(cfg, s, active, decisions)
  {
    if decisions[id] == Leave {
      LeaveSplit(cfg, s, active, decisions, id);
    } else {
      WriteSplit(cfg, s, active, decisions, id);
    }
  }

  lemma LeaveSplit(cfg: Config, s: State, active: map<Uuid, ActiveRow>, decisions: map<Uuid, Decision>, id: Uuid)
    requires active.Keys == decisions.Keys && id in active && decisions[id] == Leave
    ensures ApplyAll(cfg, s, active - {id}, decisions - {id}) == ApplyAll(cfg, s, active, decisions)
  {
    var rest := NewKeys(active - {id}, decisions - {id});
    NewKeysSplit(active, decisions, id);
    assert NewKeys(active, decisions) == rest;
    ChallansAfterDrop(cfg, s.challans, active, rest, id);
    RowsAfterSplit(s.reservations, active, decisions, id);
  }

  lemma WriteSplit(cfg: Config, s: State, active: map<Uuid, ActiveRow>, decisions: map<Uuid, Decision>, id: Uuid)
    requires active.Keys == decisions.Keys && id in active && decisions[id] != Leave && id in s.reservations
    ensures ApplyAll(cfg, Apply(cfg, s, id, active[id], decisions[id]), active - {id}, decisions - {id})
         == ApplyAll(cfg, s, active, decisions)
  {
    NewKeysSplit(active, decisions, id);
    ChallansAfterSplit(cfg, s.challans, active, NewKeys(active - {id}, decisions - {id}), id,
                       KeyOf(id, active[id], decisions[id]));
    RowsAfterSplit(s.reservations, active, decisions, id);
  }

  lemma RowsAfterSplit(rows: map<Uuid, Reservation>, active: map<Uuid, ActiveRow>, decisions: map<Uuid, Decision>,
                       id: Uuid)
    requires active.Keys == decisions.Keys && id in active
    requires decisions[id] != Leave ==> id in rows
    ensures decisions[id] == Leave ==>
      RowsAfter(rows, active - {id}, decisions - {id}) == RowsAfter(rows, active, decisions)
    ensures decisions[id] != Leave ==>
      RowsAfter(rows[id := RowAfter(rows[id], active[id], decisions[id])], active - {id}, decisions - {id})
      == RowsAfter(rows, active, decisions)
  {
  }

  lemma ChallansAfterDrop(cfg: Config, challans: map<ChallanKey, int>, active: map<Uuid, ActiveRow>,
                          keys: set<ChallanKey>, id: Uuid)
    requires forall key :: key in keys ==> key.reservation != id
    ensures ChallansAfter(cfg, challans, active - {id}, keys) == ChallansAfter(cfg, challans, active, keys)
  {
  }

  lemma ChallansAfterSplit(cfg: Config, challans: map<ChallanKey, int>, active: map<Uuid, ActiveRow>,
                           keys: set<ChallanKey>, id: Uuid, key: ChallanKey)
    requires forall k :: k in keys ==> k.reservation != id
    requires key.reservation == id && id in active
    ensures ChallansAfter(cfg, challans[key := AmountOf(cfg, key.kind, active[id])], active - {id}, keys)
         == ChallansAfter(cfg, challans, active, keys + {key})
  {
    var more := challans[key := AmountOf(cfg, key.kind, active[id])];
    assert more.Keys + keys == challans.Keys + (keys + {key});
  }

  lemma NewKeysSplit(active: map<Uuid, ActiveRow>, decisions: map<Uuid, Decision>, id: Uuid)
    requires active.Keys == decisions.Keys && id in active
    ensures NewKeys(active, decisions) == NewKeys(active - {id}, decisions - {id})
      + (if decisions[id] == Leave then {} else {KeyOf(id, active[id], decisions[id])})
    ensures forall key :: key in NewKeys(active - {id}, decisions - {id}) ==> key.reservation != id
  {
    var all, rest := NewKeys(active, decisions), NewKeys(active - {id}, decisions - {id});
    forall key | key in rest
      ensures key in all && key.reservation != id
    {
      var x :| x in decisions - {id} && x in active - {id} && (decisions - {id})[x] != Leave
        && KeyOf(x, (active - {id})[x], (decisions - {id})[x]) == key;
      assert x in decisions && decisions[x] != Leave && KeyOf(x, active[x], decisions[x]) == key;
    }
    forall key | key in all
      ensures key in rest || (decisions[id] != Leave && key == KeyOf(id, active[id], decisions[id]))
    {
      var x :| x in decisions && x in active && decisions[x] != Leave && KeyOf(x, active[x], decisions[x]) == key;
      if x != id {
        assert x in decisions - {id} && (decisions - {id})[x] == decisions[x];
      }
    }
    if decisions[id] != Leave {
      assert KeyOf(id, active[id], decisions[id]) in all;
    }
  }

  // ------------------------------------------------------------------ the whole tick, uninterrupted

  function SweepAll(cfg: Config, s: State): State {
    CancelAll(s, NoShows(cfg, s))
  }

  function Tick(cfg: Config, s: State): State {
    var swept := SweepAll(cfg, s);
    ResolveAll(cfg, swept, ActiveRows(swept), s.now)
  }

  lemma RowOfResolveAll(cfg: Config, s: State, active: map<Uuid, ActiveRow>, at: int, id: Uuid)
    requires id in s.reservations
    ensures var t, r := ResolveAll(cfg, s, active, at), s.reservations[id];
      id in t.reservations
      && t.reservations[id] == if id in active then RowAfter(r, active[id], Decide(cfg, s, id, active[id], at)) else r
  {
  }

  lemma SweptRow(cfg: Config, s: State, id: Uuid)
    requires id in s.reservations
    ensures var r := s.reservations[id];
      SweepAll(cfg, s).reservations[id] ==
        if r.status == Confirmed && r.startTime < s.now - cfg.grace then r.(status := Cancelled) else r
  {
  }
}
