/**
 * What serial execution is worth: three writers read rows, and write them later without looking again.
 * For each, the exact condition under which the write still does what it should. (The turn of the
 * monitoring tick is in Guarantees.)
 */
module Races {
  import opened Model
  import opened Lifecycle
  import opened Invariants
  import opened Preservation
  import opened Runs
  import opened Safety
  import opened OneCar

  // ------------------------------------------------------------------ the cancel writes of `block` and of the sweep

  /** The unconditional cancel writes keep the tables consistent if and only if the vehicle has not come in. */
  lemma CancelWriteSafeIff(cfg: Config, s: State, id: Uuid)
    requires Core(cfg, s) && id in s.reservations
    ensures Core(cfg, CancelWrites(s, id))
       <==> s.reservations[id].status == Confirmed || s.reservations[id].status == Cancelled
  {
    var r := s.reservations[id];
    assert TimesOk(cfg, s.now, r);
    if r.status == Confirmed {
      CancelKeepsCore(cfg, s, id);
    } else if r.status == Cancelled {
      CancelAgainKeepsCore(cfg, s, id);
    } else {
      assert !TimesOk(cfg, s.now, CancelWrites(s, id).reservations[id]);
    }
  }

  /** On a cancelled row they only release the slot once more. */
  lemma CancelAgainKeepsCore(cfg: Config, s: State, id: Uuid)
    requires Core(cfg, s) && id in s.reservations && s.reservations[id].status == Cancelled
    ensures Core(cfg, CancelWrites(s, id))
  {
    var t := CancelWrites(s, id);
    assert CodesOf(cfg, s.qrCodes, id, s.reservations[id]);
    assert s.reservations[id].(status := Cancelled) == s.reservations[id];
    assert t.reservations == s.reservations;
    assert t.qrCodes == s.qrCodes by {
      EntryCodeIsSpent(cfg, s, id);
    }
    SurroundingsKeepCore(cfg, s, t);
  }

  lemma EntryCodeIsSpent(cfg: Config, s: State, id: Uuid)
    requires CodesOk(cfg, s.qrCodes, s.reservations) && id in s.reservations && s.reservations[id].status == Cancelled
    ensures ExpireCheckIn(s.qrCodes, id) == s.qrCodes
  {
    assert CodesOf(cfg, s.qrCodes, id, s.reservations[id]);
    var u :| u in s.qrCodes && s.qrCodes[u] == EntryCode(cfg, id, s.reservations[id]);
    forall t | t in s.qrCodes && s.qrCodes[t].reservation == id && s.qrCodes[t].kind == CheckInCode
      ensures s.qrCodes[t].status != Active
    {
      assert t == u;
    }
  }

  /** Some scan of the run lets the vehicle of this reservation in. */
  ghost predicate LetInDuring(cfg: Config, s: State, actions: seq<Action>, id: Uuid)
    decreases |actions|
  {
    actions != [] && (LetsIn(cfg, s, actions[0], id) || LetInDuring(cfg, Next(cfg, s, actions[0]), actions[1..], id))
  }

  lemma StepEnters(cfg: Config, s: State, a: Action, id: Uuid)
    requires Inv(cfg, s) && id in s.reservations
    ensures id in Next(cfg, s, a).reservations
    ensures Entered(Next(cfg, s, a).reservations[id]) <==> Entered(s.reservations[id]) || LetsIn(cfg, s, a, id)
  {
    StepMovesRows(cfg, s, a);
    var q := Next(cfg, s, a).reservations[id];
    if InUse(q) {
      StepVehicles(cfg, s, a, id);
    }
    if LetsIn(cfg, s, a, id) {
      LetInEnters(cfg, s, a, id);
    }
    MoveEnters(cfg, s.now, s.reservations[id], q, LetsIn(cfg, s, a, id));
  }

  lemma LetInEnters(cfg: Config, s: State, a: Action, id: Uuid)
    requires LetsIn(cfg, s, a, id)
    ensures id in Next(cfg, s, a).reservations && InUse(Next(cfg, s, a).reservations[id])
  {
    NextScanIn(cfg, s, a.token, a.exitToken);
  }

  lemma MoveEnters(cfg: Config, now: int, r: Reservation, q: Reservation, letIn: bool)
    requires RowMove(cfg, now, r, q)
    requires InUse(q) ==> letIn || InUse(r)
    requires letIn ==> InUse(q)
    ensures Entered(q) <==> Entered(r) || letIn
  {
  }

  lemma {:induction false} RunEnters(cfg: Config, s: State, actions: seq<Action>, id: Uuid)
    requires Inv(cfg, s) && Undisturbed(cfg, s, actions) && id in s.reservations
    ensures id in Run(cfg, s, actions).reservations
    ensures Entered(Run(cfg, s, actions).reservations[id])
       <==> Entered(s.reservations[id]) || LetInDuring(cfg, s, actions, id)
    decreases |actions|
  {
    if actions != [] {
      StepKeepsInv(cfg, s, actions[0]);
      StepEnters(cfg, s, actions[0], id);
      RunEnters(cfg, Next(cfg, s, actions[0]), actions[1..], id);
    }
  }

  /**
   * `block` reads the user's confirmed bookings and cancels them one by one. Whatever happens between
   * the read and one of the writes, the write keeps the tables consistent if and only if no scan has
   * let that vehicle in meanwhile.
   */
  lemma BlockWriteSafeIffNobodyEnters(cfg: Config, s: State, user: Uuid, id: Uuid, actions: seq<Action>)
    requires Inv(cfg, s) && Undisturbed(cfg, s, actions) && id in ConfirmedOf(s.reservations, user)
    ensures var t := Run(cfg, s, actions);
      id in t.reservations && (Core(cfg, CancelWrites(t, id)) <==> !LetInDuring(cfg, s, actions, id))
  {
    var t := Run(cfg, s, actions);
    RunEnters(cfg, s, actions, id);
    RunKeepsInv(cfg, s, actions);
    CancelWriteSafeIffNotEntered(cfg, t, id);
  }

  lemma CancelWriteSafeIffNotEntered(cfg: Config, s: State, id: Uuid)
    requires Core(cfg, s) && id in s.reservations
    ensures Core(cfg, CancelWrites(s, id)) <==> !Entered(s.reservations[id])
  {
    CancelWriteSafeIff(cfg, s, id);
    assert TimesOk(cfg, s.now, s.reservations[id]);
  }

  // ------------------------------------------------------------------ the restriction write

  /** Some vehicle is in one of the slots. */
  predicate VehicleOn(rows: map<Uuid, Reservation>, ids: set<Uuid>) {
    exists x :: x in rows && InUse(rows[x]) && rows[x].slot in ids
  }

  /**
   * `bulkUpdateStatus` checks the slots and writes them in two statements. Whatever happened in between,
   * its write keeps the tables consistent, and OCCUPIED still means that a vehicle is in if and only if
   * none has come into one of the slots.
   */
  lemma RestrictWriteSafeIffNoVehicle(cfg: Config, s: State, ids: set<Uuid>, maintenance: bool)
    requires Core(cfg, s) && OccupiedExactly(s)
    ensures var t := s.(slots := RestrictWrites(s.slots, ids, maintenance));
      Core(cfg, t) && (OccupiedExactly(t) <==> !VehicleOn(s.reservations, ids))
  {
    var t := s.(slots := RestrictWrites(s.slots, ids, maintenance));
    RestrictWritesKeepCore(cfg, s, ids, maintenance);
    ExactlyIfTakenIsOccupied(cfg, s);
    ExactlyIfTakenIsOccupied(cfg, t);
    if VehicleOn(s.reservations, ids) {
      var x :| x in s.reservations && InUse(s.reservations[x]) && s.reservations[x].slot in ids;
      assert t.slots[s.reservations[x].slot].status != Occupied;
    }
  }

  lemma RestrictWritesKeepCore(cfg: Config, s: State, ids: set<Uuid>, maintenance: bool)
    requires Core(cfg, s)
    ensures Core(cfg, s.(slots := RestrictWrites(s.slots, ids, maintenance)))
  {
    SurroundingsKeepCore(cfg, s, s.(slots := RestrictWrites(s.slots, ids, maintenance)));
  }

  /** With nothing in between, the check rules that out. */
  lemma RestrictionFindsVehicles(cfg: Config, s: State, ids: set<Uuid>)
    requires Core(cfg, s) && OccupiedExactly(s) && VehicleOn(s.reservations, ids)
    ensures RestrictOutcome(s, ids).Refused?
  {
    ExactlyIfTakenIsOccupied(cfg, s);
  }
}
