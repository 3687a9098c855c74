/** The tick deals with every slot on its own, and with an overdue vehicle as its own queue demands. */
module Locality {
  import opened Model
  import opened Billing
  import opened Lifecycle
  import opened Monitoring
  import opened Invariants
  import opened Preservation
  import opened Runs

  // ------------------------------------------------------------------ slots do not interact

  predicate OnSlot(s: State, slot: Uuid, id: Uuid) {
    id in s.reservations && s.reservations[id].slot == slot
  }

  ghost predicate SameRow(s: State, t: State, slot: Uuid, id: Uuid) {
    (OnSlot(s, slot, id) <==> OnSlot(t, slot, id)) && (OnSlot(s, slot, id) ==> s.reservations[id] == t.reservations[id])
  }

  ghost predicate SameRows(s: State, t: State, slot: Uuid) {
    forall id :: SameRow(s, t, slot, id)
  }

  ghost predicate SameChallan(s: State, t: State, k: ChallanKey) {
    (k in s.challans <==> k in t.challans) && (k in s.challans ==> s.challans[k] == t.challans[k])
  }

  ghost predicate SameChallans(s: State, t: State, slot: Uuid) {
    forall k: ChallanKey :: OnSlot(s, slot, k.reservation) ==> SameChallan(s, t, k)
  }

  predicate CodeOnSlot(s: State, slot: Uuid, code: Uuid) {
    code in s.qrCodes && OnSlot(s, slot, s.qrCodes[code].reservation)
  }

  ghost predicate SameCode(s: State, t: State, slot: Uuid, code: Uuid) {
    && (CodeOnSlot(s, slot, code) <==> CodeOnSlot(t, slot, code))
    && (CodeOnSlot(s, slot, code) ==> s.qrCodes[code] == t.qrCodes[code])
  }

  ghost predicate SameCodes(s: State, t: State, slot: Uuid) {
    forall code :: SameCode(s, t, slot, code)
  }

  ghost predicate SameSlotRow(s: State, t: State, slot: Uuid) {
    (slot in s.slots <==> slot in t.slots) && (slot in s.slots ==> s.slots[slot] == t.slots[slot])
  }

  /** Two states that agree on one slot, its reservations, and their challans and codes. */
  ghost predicate SameSlot(s: State, t: State, slot: Uuid) {
    SameSlotRow(s, t, slot) && SameRows(s, t, slot) && SameChallans(s, t, slot) && SameCodes(s, t, slot)
  }

  lemma NoShowIsLocal(cfg: Config, s: State, t: State, slot: Uuid, id: Uuid)
    requires s.now == t.now && SameRow(s, t, slot, id) && OnSlot(s, slot, id)
    ensures id in NoShows(cfg, s) <==> id in NoShows(cfg, t)
  {
  }

  /** Cancelling the same bookings of the slot, and any others. */
  lemma CancellingIsLocal(s: State, t: State, slot: Uuid, some: set<Uuid>, others: set<Uuid>)
    requires SameSlot(s, t, slot)
    requires forall id :: OnSlot(s, slot, id) ==> (id in some <==> id in others)
    ensures SameSlot(CancelAll(s, some), CancelAll(t, others), slot)
  {
    var p, q := CancelAll(s, some), CancelAll(t, others);
    forall id
      ensures SameRow(p, q, slot, id)
      ensures OnSlot(p, slot, id) <==> OnSlot(s, slot, id)
    {
      assert SameRow(s, t, slot, id);
    }
    forall code
      ensures SameCode(p, q, slot, code)
    {
      CancelledCodeAgrees(s, t, slot, some, others, code);
    }
    CancelledSlotAgrees(s, t, slot, some, others);
    forall k: ChallanKey | OnSlot(p, slot, k.reservation)
      ensures SameChallan(p, q, k)
    {
      assert SameChallan(s, t, k);
    }
  }

  lemma CancelledCodeAgrees(s: State, t: State, slot: Uuid, some: set<Uuid>, others: set<Uuid>, code: Uuid)
    requires SameRows(s, t, slot) && SameCode(s, t, slot, code)
    requires forall id :: OnSlot(s, slot, id) ==> (id in some <==> id in others)
    ensures SameCode(CancelAll(s, some), CancelAll(t, others), slot, code)
  {
    CancelledCode(s, slot, some, code);
    CancelledCode(t, slot, others, code);
  }

  function ExpiredIf(code: QrCode, cancelled: bool): QrCode {
    if cancelled && code.kind == CheckInCode && code.status == Active then code.(status := Expired) else code
  }

  lemma CancelledCode(s: State, slot: Uuid, ids: set<Uuid>, code: Uuid)
    ensures CodeOnSlot(CancelAll(s, ids), slot, code) <==> CodeOnSlot(s, slot, code)
    ensures CodeOnSlot(s, slot, code) ==>
      CancelAll(s, ids).qrCodes[code] == ExpiredIf(s.qrCodes[code], s.qrCodes[code].reservation in ids)
  {
  }

  lemma CancelledSlotAgrees(s: State, t: State, slot: Uuid, some: set<Uuid>, others: set<Uuid>)
    requires SameRows(s, t, slot) && SameSlotRow(s, t, slot)
    requires forall id :: OnSlot(s, slot, id) ==> (id in some <==> id in others)
    ensures SameSlotRow(CancelAll(s, some), CancelAll(t, others), slot)
  {
    if SomeOnSlot(s, slot, some) {
      var id :| id in some && OnSlot(s, slot, id);
      assert SameRow(s, t, slot, id);
    }
    if SomeOnSlot(t, slot, others) {
      var id :| id in others && OnSlot(t, slot, id);
      assert SameRow(s, t, slot, id);
    }
    CancelledSlot(s, slot, some);
    CancelledSlot(t, slot, others);
  }

  predicate SomeOnSlot(s: State, slot: Uuid, ids: set<Uuid>) {
    exists id :: id in ids && OnSlot(s, slot, id)
  }

  lemma CancelledSlot(s: State, slot: Uuid, ids: set<Uuid>)
    ensures slot in CancelAll(s, ids).slots <==> slot in s.slots
    ensures slot in s.slots ==>
      CancelAll(s, ids).slots[slot] ==
        if s.slots[slot].status == Reserved && SomeOnSlot(s, slot, ids) then s.slots[slot].(status := Available)
        else s.slots[slot]
  {
    if SomeOnSlot(s, slot, ids) {
      var id :| id in ids && OnSlot(s, slot, id);
      assert id in s.reservations && s.reservations[id].slot == slot;
    }
  }

  lemma SweepIsLocal(cfg: Config, s: State, t: State, slot: Uuid)
    requires s.now == t.now && SameSlot(s, t, slot)
    ensures SameSlot(SweepAll(cfg, s), SweepAll(cfg, t), slot)
  {
    forall id | OnSlot(s, slot, id)
      ensures id in NoShows(cfg, s) <==> id in NoShows(cfg, t)
    {
      assert SameRow(s, t, slot, id);
      NoShowIsLocal(cfg, s, t, slot, id);
    }
    CancellingIsLocal(s, t, slot, NoShows(cfg, s), NoShows(cfg, t));
  }

  lemma SameQueue(s: State, t: State, slot: Uuid, endTime: int)
    requires SameRows(s, t, slot)
    ensures Queued(s.reservations, slot, endTime) <==> Queued(t.reservations, slot, endTime)
  {
    if Queued(s.reservations, slot, endTime) {
      var x :| x in s.reservations && s.reservations[x].slot == slot && s.reservations[x].status == Confirmed
        && s.reservations[x].startTime > endTime;
      assert SameRow(s, t, slot, x);
    }
    if Queued(t.reservations, slot, endTime) {
      var x :| x in t.reservations && t.reservations[x].slot == slot && t.reservations[x].status == Confirmed
        && t.reservations[x].startTime > endTime;
      assert SameRow(s, t, slot, x);
    }
  }

  lemma DecisionIsLocal(cfg: Config, s: State, t: State, slot: Uuid, id: Uuid, row: ActiveRow, at: int)
    requires SameSlot(s, t, slot) && OnSlot(s, slot, id) && row.slot == slot
    ensures Decide(cfg, s, id, row, at) == Decide(cfg, t, id, row, at)
  {
    SameQueue(s, t, slot, row.endTime);
    assert SameRow(s, t, slot, id);
    assert SameChallan(s, t, ChallanKey(id, OvertimePenalty, row.endTime));
    assert SameChallan(s, t, ChallanKey(id, Extension, row.endTime));
  }

  // ------------------------------------------------------------------ all turns

  /** The row that a tick would read, and what its turn would decide. */
  ghost predicate SameTurn(cfg: Config, s: State, t: State, id: Uuid, at: int) {
    && (id in ActiveRows(s) <==> id in ActiveRows(t))
    && (id in ActiveRows(s) ==>
          && ActiveRows(s)[id] == ActiveRows(t)[id]
          && Decide(cfg, s, id, ActiveRows(s)[id], at) == Decide(cfg, t, id, ActiveRows(s)[id], at))
  }

  lemma TurnAgrees(cfg: Config, s: State, t: State, slot: Uuid, id: Uuid, at: int)
    requires SameSlot(s, t, slot) && OnSlot(s, slot, id)
    ensures SameTurn(cfg, s, t, id, at)
  {
    assert SameRow(s, t, slot, id);
    if id in ActiveRows(s) {
      DecisionIsLocal(cfg, s, t, slot, id, ActiveRows(s)[id], at);
    }
  }

  lemma TurnsStayOnSlot(cfg: Config, s: State, active: map<Uuid, ActiveRow>, slot: Uuid, at: int, id: Uuid)
    ensures OnSlot(ResolveAll(cfg, s, active, at), slot, id) <==> OnSlot(s, slot, id)
  {
    if id in s.reservations {
      RowOfResolveAll(cfg, s, active, at, id);
    }
  }

  lemma RowAgrees(cfg: Config, s: State, t: State, slot: Uuid, id: Uuid, at: int)
    requires SameSlot(s, t, slot)
    ensures SameRow(ResolveAll(cfg, s, ActiveRows(s), at), ResolveAll(cfg, t, ActiveRows(t), at), slot, id)
  {
    assert SameRow(s, t, slot, id);
    TurnsStayOnSlot(cfg, s, ActiveRows(s), slot, at, id);
    TurnsStayOnSlot(cfg, t, ActiveRows(t), slot, at, id);
    if OnSlot(s, slot, id) {
      TurnAgrees(cfg, s, t, slot, id, at);
      RowOfResolveAll(cfg, s, ActiveRows(s), at, id);
      RowOfResolveAll(cfg, t, ActiveRows(t), at, id);
    }
  }

  /** Which challans a set of turns leaves behind. */
  lemma ChallanOfResolveAll(cfg: Config, s: State, active: map<Uuid, ActiveRow>, at: int, k: ChallanKey)
    ensures var t, id := ResolveAll(cfg, s, active, at), k.reservation;
      var added := id in active && Charges(k, active[id], Decide(cfg, s, id, active[id], at));
      && (k in t.challans <==> k in s.challans || added)
      && (k in t.challans ==>
            t.challans[k] == if added then AmountOf(cfg, k.kind, active[id]) else s.challans[k])
  {
    NewKeyIff(active, Decisions(cfg, s, active, at), k);
  }

  lemma NewKeyIff(active: map<Uuid, ActiveRow>, decisions: map<Uuid, Decision>, k: ChallanKey)
    requires active.Keys == decisions.Keys
    ensures var id := k.reservation;
      k in NewKeys(active, decisions) <==> id in active && Charges(k, active[id], decisions[id])
  {
    var id := k.reservation;
    if k in NewKeys(active, decisions) {
      var x :| x in decisions && x in active && decisions[x] != Leave && KeyOf(x, active[x], decisions[x]) == k;
      assert x == id;
    } else if id in active && decisions[id] != Leave {
      assert KeyOf(id, active[id], decisions[id]) in NewKeys(active, decisions);
    }
  }

  predicate Charges(k: ChallanKey, row: ActiveRow, decision: Decision) {
    decision != Leave && k == KeyOf(k.reservation, row, decision)
  }

  lemma ChallanAgrees(cfg: Config, s: State, t: State, slot: Uuid, k: ChallanKey, at: int)
    requires SameSlot(s, t, slot) && OnSlot(s, slot, k.reservation)
    ensures SameChallan(ResolveAll(cfg, s, ActiveRows(s), at), ResolveAll(cfg, t, ActiveRows(t), at), k)
  {
    assert SameChallan(s, t, k);
    TurnAgrees(cfg, s, t, slot, k.reservation, at);
    ChallanOfResolveAll(cfg, s, ActiveRows(s), at, k);
    ChallanOfResolveAll(cfg, t, ActiveRows(t), at, k);
  }

  lemma TurnsAreLocal(cfg: Config, s: State, t: State, slot: Uuid, at: int)
    requires SameSlot(s, t, slot)
    ensures SameSlot(ResolveAll(cfg, s, ActiveRows(s), at), ResolveAll(cfg, t, ActiveRows(t), at), slot)
  {
    var p, q := ResolveAll(cfg, s, ActiveRows(s), at), ResolveAll(cfg, t, ActiveRows(t), at);
    forall id
      ensures SameRow(p, q, slot, id)
    {
      RowAgrees(cfg, s, t, slot, id, at);
    }
    forall k: ChallanKey | OnSlot(p, slot, k.reservation)
      ensures SameChallan(p, q, k)
    {
      TurnsStayOnSlot(cfg, s, ActiveRows(s), slot, at, k.reservation);
      ChallanAgrees(cfg, s, t, slot, k, at);
    }
    forall code
      ensures SameCode(p, q, slot, code)
    {
      CodeAgrees(cfg, s, t, slot, code, at);
    }
  }

  lemma CodeAgrees(cfg: Config, s: State, t: State, slot: Uuid, code: Uuid, at: int)
    requires SameCodes(s, t, slot)
    ensures SameCode(ResolveAll(cfg, s, ActiveRows(s), at), ResolveAll(cfg, t, ActiveRows(t), at), slot, code)
  {
    assert SameCode(s, t, slot, code);
    TurnsKeepCode(cfg, s, ActiveRows(s), slot, at, code);
    TurnsKeepCode(cfg, t, ActiveRows(t), slot, at, code);
  }

  lemma TurnsKeepCode(cfg: Config, s: State, active: map<Uuid, ActiveRow>, slot: Uuid, at: int, code: Uuid)
    ensures var t := ResolveAll(cfg, s, active, at);
      t.qrCodes == s.qrCodes && (CodeOnSlot(t, slot, code) <==> CodeOnSlot(s, slot, code))
  {
    if code in s.qrCodes {
      TurnsStayOnSlot(cfg, s, active, slot, at, s.qrCodes[code].reservation);
    }
  }

  /** The tick deals with a slot without looking at any other: states that agree on the slot agree on it afterwards. */
  lemma TickIsLocal(cfg: Config, s: State, t: State, slot: Uuid)
    requires s.now == t.now && SameSlot(s, t, slot)
    ensures SameSlot(Tick(cfg, s), Tick(cfg, t), slot)
  {
    SweepIsLocal(cfg, s, t, slot);
    TurnsAreLocal(cfg, SweepAll(cfg, s), SweepAll(cfg, t), slot, s.now);
  }

  // ------------------------------------------------------------------ what happens to an overdue vehicle

  /** A confirmed booking of the same slot starts after the current end, and not before `since`. */
  ghost predicate SomebodyWaits(rows: map<Uuid, Reservation>, id: Uuid, since: int)
    requires id in rows
  {
    exists x :: x in rows && rows[x].slot == rows[id].slot && rows[x].status == Confirmed
      && rows[x].startTime > rows[id].endTime && rows[x].startTime >= since
  }

  /** The one challan that a turn adds, and its effect on the row. */
  ghost predicate Charged(cfg: Config, s: State, t: State, id: Uuid, waits: bool, price: int)
    requires id in s.reservations
  {
    var r := s.reservations[id];
    var k := ChallanKey(id, if waits then OvertimePenalty else Extension, r.endTime);
    && id in t.reservations
    && t.reservations[id] == (if waits then r.(status := Overtime) else r.(endTime := r.endTime + 3_600_000))
    && k !in s.challans && k in t.challans
    && (if waits then NearestHalfUp(t.challans[k], price as real * cfg.overtimeMultiplier) else t.challans[k] == price)
    && (forall other: ChallanKey :: other.reservation == id && other != k ==>
          (other in t.challans <==> other in s.challans)
          && (other in t.challans && other in s.challans ==> t.challans[other] == s.challans[other]))
  }

  /**
   * An overdue vehicle is penalised if a booking of its own slot waits for it, and otherwise stays
   * checked in and gets exactly one hour more; the challan that goes with it is the only new one.
   */
  lemma OverdueTick(cfg: Config, s: State, id: Uuid)
    requires Core(cfg, s) && id in s.reservations
    requires s.reservations[id].status == CheckedIn && s.now >= s.reservations[id].endTime + cfg.buffer
    ensures Charged(cfg, s, Tick(cfg, s), id, SomebodyWaits(s.reservations, id, s.now - cfg.grace),
                    s.slots[s.reservations[id].slot].basePrice)
  {
    CancelAllKeeps(cfg, s, NoShows(cfg, s));
    SweptQueue(cfg, s, id);
    SweptActive(cfg, s, id);
    OverdueTurns(cfg, SweepAll(cfg, s), ActiveRows(SweepAll(cfg, s)), id, s.now);
    ChargedAfterSweep(cfg, s, Tick(cfg, s), id, SomebodyWaits(s.reservations, id, s.now - cfg.grace),
                      s.slots[s.reservations[id].slot].basePrice);
  }

  lemma ChargedAfterSweep(cfg: Config, s: State, t: State, id: Uuid, waits: bool, price: int)
    requires id in s.reservations && s.reservations[id].status == CheckedIn
    requires id in SweepAll(cfg, s).reservations && Charged(cfg, SweepAll(cfg, s), t, id, waits, price)
    ensures Charged(cfg, s, t, id, waits, price)
  {
    SweptRow(cfg, s, id);
    assert SweepAll(cfg, s).challans == s.challans;
  }

  lemma SweptActive(cfg: Config, s: State, id: Uuid)
    requires id in s.reservations && s.reservations[id].status == CheckedIn && s.reservations[id].slot in s.slots
    ensures var r, swept := s.reservations[id], SweepAll(cfg, s);
      && id in swept.reservations && swept.reservations[id] == r
      && id in ActiveRows(swept) && ActiveRows(swept)[id] == ActiveRow(r.slot, r.endTime, s.slots[r.slot].basePrice)
  {
    SweptRow(cfg, s, id);
    SweptSlot(cfg, s, s.reservations[id].slot);
  }

  lemma SweptSlot(cfg: Config, s: State, slot: Uuid)
    requires slot in s.slots
    ensures slot in SweepAll(cfg, s).slots && SweepAll(cfg, s).slots[slot].basePrice == s.slots[slot].basePrice
  {
  }

  lemma SweptQueue(cfg: Config, s: State, id: Uuid)
    requires id in s.reservations
    ensures id in SweepAll(cfg, s).reservations
    ensures Queued(SweepAll(cfg, s).reservations, s.reservations[id].slot, s.reservations[id].endTime)
       <==> SomebodyWaits(s.reservations, id, s.now - cfg.grace)
  {
    var rows, swept := s.reservations, SweepAll(cfg, s).reservations;
    if SomebodyWaits(rows, id, s.now - cfg.grace) {
      var x :| x in rows && rows[x].slot == rows[id].slot && rows[x].status == Confirmed
        && rows[x].startTime > rows[id].endTime && rows[x].startTime >= s.now - cfg.grace;
      assert swept[x] == rows[x];
    }
    if Queued(swept, rows[id].slot, rows[id].endTime) {
      var x :| x in swept && swept[x].slot == rows[id].slot && swept[x].status == Confirmed
        && swept[x].startTime > rows[id].endTime;
      assert rows[x] == swept[x];
    }
  }

  lemma OverdueTurns(cfg: Config, s: State, active: map<Uuid, ActiveRow>, id: Uuid, at: int)
    requires Core(cfg, s) && id in active && FreshRow(s.reservations, id, active[id])
    requires at >= active[id].endTime + cfg.buffer
    ensures Charged(cfg, s, ResolveAll(cfg, s, active, at), id,
                    Queued(s.reservations, active[id].slot, active[id].endTime), active[id].basePrice)
  {
    NeverAlreadyProcessed(cfg, s, id, active[id], at);
    TurnsCharge(cfg, s, active, id, at, Decide(cfg, s, id, active[id], at));
  }

  lemma TurnsCharge(cfg: Config, s: State, active: map<Uuid, ActiveRow>, id: Uuid, at: int, d: Decision)
    requires id in active && FreshRow(s.reservations, id, active[id]) && d == Decide(cfg, s, id, active[id], at)
    requires d != Leave && KeyOf(id, active[id], d) !in s.challans
    ensures Charged(cfg, s, ResolveAll(cfg, s, active, at), id, d == Penalise, active[id].basePrice)
  {
    var t, row := ResolveAll(cfg, s, active, at), active[id];
    OvertimeChargeIsNearest(cfg, row.basePrice);
    RowOfResolveAll(cfg, s, active, at, id);
    ChallanOfResolveAll(cfg, s, active, at, KeyOf(id, row, d));
    forall other: ChallanKey | other.reservation == id && other != KeyOf(id, row, d)
      ensures (other in t.challans <==> other in s.challans)
        && (other in t.challans && other in s.challans ==> t.challans[other] == s.challans[other])
    {
      ChallanOfResolveAll(cfg, s, active, at, other);
    }
  }

  /** The same for a single turn of a tick taken write by write, on the rows it finds. */
  lemma OverdueTurn(cfg: Config, s: State, id: Uuid)
    requires Inv(cfg, s) && s.tick.Resolving? && id in s.tick.active && id in s.reservations
    requires s.tick.at >= s.reservations[id].endTime + cfg.buffer
    ensures Charged(cfg, s, ResolveStep(cfg, s, id), id,
                    SomebodyWaits(s.reservations, id, s.reservations[id].endTime), s.tick.active[id].basePrice)
  {
    var row, at := s.tick.active[id], s.tick.at;
    assert Remembered(cfg, s.reservations, id, row, at);
    NeverAlreadyProcessed(cfg, s, id, row, at);
    TurnCharges(cfg, s, id, row, Decide(cfg, s, id, row, at));
  }

  lemma TurnCharges(cfg: Config, s: State, id: Uuid, row: ActiveRow, decision: Decision)
    requires FreshRow(s.reservations, id, row) && decision != Leave && KeyOf(id, row, decision) !in s.challans
    ensures Charged(cfg, s, Apply(cfg, s, id, row, decision), id, decision == Penalise, row.basePrice)
  {
    OvertimeChargeIsNearest(cfg, row.basePrice);
  }
}
