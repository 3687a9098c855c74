/** Declined check-outs leave no trace but a failed payment row. */
module Declines {
  import opened Model
  import opened Lifecycle
  import opened Monitoring
  import opened Invariants
  import opened Runs
  import opened Safety

  // ------------------------------------------------------------------ retrying the same code

  ghost function ScanOutTimes(s: State, token: Uuid, times: nat): State
    decreases times
  {
    if times == 0 then s else ScanOutTimes(CheckOut(s, token), token, times - 1)
  }

  /** A declined check-out moves nothing but the failed payment row. */
  lemma DeclineMovesNothing(s: State, token: Uuid)
    requires CheckOutOutcome(s, token) == Declined
    ensures var t := CheckOut(s, token);
      && t == s.(payments := t.payments) && CheckOutOutcome(t, token) == Declined
      && t.payments == s.payments[s.qrCodes[token].reservation :=
           Payment(FinalCharge(s, s.qrCodes[token].reservation), Failed)]
  {
  }

  /** Any number of declines, then a working card: the same final state as scanning once with that card. */
  lemma {:induction false} RetryPaysTheSame(cfg: Config, s: State, token: Uuid, times: nat, last4: string)
    requires References(s) && CheckOutOutcome(s, token) == Declined
    ensures var tried := ScanOutTimes(s, token, times);
      var user := s.reservations[s.qrCodes[token].reservation].user;
      && tried == s.(payments := tried.payments)
      && CheckOut(Next(cfg, tried, SaveCard(user, last4)), token)
        == CheckOut(Next(cfg, s, SaveCard(user, last4)), token)
    decreases times
  {
    if times > 0 {
      var once := CheckOut(s, token);
      var user := s.reservations[s.qrCodes[token].reservation].user;
      DeclineMovesNothing(s, token);
      DeclineKeepsReferences(s, token);
      RetryPaysTheSame(cfg, once, token, times - 1, last4);
      RetryIgnoresPayments(cfg, s, token, user, last4);
    }
  }

  lemma DeclineKeepsReferences(s: State, token: Uuid)
    requires References(s) && CheckOutOutcome(s, token) == Declined
    ensures References(CheckOut(s, token))
  {
  }

  lemma RetryIgnoresPayments(cfg: Config, s: State, token: Uuid, user: Uuid, last4: string)
    requires References(s) && CheckOutOutcome(s, token) == Declined
    requires user == s.reservations[s.qrCodes[token].reservation].user
    ensures CheckOut(Next(cfg, CheckOut(s, token), SaveCard(user, last4)), token)
         == CheckOut(Next(cfg, s, SaveCard(user, last4)), token)
  {
    var id := s.qrCodes[token].reservation;
    var b := NextOther(cfg, s, SaveCard(user, last4));
    var failed := Payment(FinalCharge(s, id), Failed);
    DeclineMovesNothing(s, token);
    SaveCardFrame(cfg, s, user, last4);
    assert NextOther(cfg, CheckOut(s, token), SaveCard(user, last4)) == b.(payments := s.payments[id := failed]);
    CheckOutOverwrites(b, token, failed);
  }

  lemma SaveCardFrame(cfg: Config, s: State, user: Uuid, last4: string)
    ensures var t := NextOther(cfg, s, SaveCard(user, last4)); t == s.(users := t.users)
  {
  }

  /** A check-out overwrites whatever payment row the reservation had. */
  lemma CheckOutOverwrites(s: State, token: Uuid, earlier: Payment)
    requires !CheckOutOutcome(s, token).Refused?
    ensures CheckOut(s.(payments := s.payments[s.qrCodes[token].reservation := earlier]), token) == CheckOut(s, token)
  {
    var id := s.qrCodes[token].reservation;
    var outcome := CheckOutOutcome(s, token);
    var paid := Payment(FinalCharge(s, id), if outcome == Declined then Failed else Successful);
    assert s.payments[id := earlier][id := paid] == s.payments[id := paid];
  }

  // ------------------------------------------------------------------ declined scans anywhere in a run

  predicate IsDeclined(s: State, a: Action) {
    a.ScanOut? && CheckOutOutcome(s, a.token) == Declined
  }

  /** The run without the scans that were declined in it. */
  ghost function WithoutDeclines(cfg: Config, s: State, actions: seq<Action>): seq<Action>
    decreases |actions|
  {
    if actions == [] then []
    else
      var later := WithoutDeclines(cfg, Next(cfg, s, actions[0]), actions[1..]);
      if IsDeclined(s, actions[0]) then later else [actions[0]] + later
  }

  ghost predicate SameButPayments(s: State, t: State) {
    t == s.(payments := t.payments)
  }

  lemma CheckInIgnoresPayments(cfg: Config, s: State, t: State, token: Uuid, exitToken: Uuid)
    requires SameButPayments(s, t)
    ensures SameButPayments(CheckIn(cfg, s, token, exitToken), CheckIn(cfg, t, token, exitToken))
  {
    assert CheckInOutcome(cfg, t, token, exitToken) == CheckInOutcome(cfg, s, token, exitToken);
  }

  lemma CheckOutIgnoresPayments(s: State, t: State, token: Uuid)
    requires SameButPayments(s, t)
    ensures CheckOutOutcome(t, token) == CheckOutOutcome(s, token)
    ensures SameButPayments(CheckOut(s, token), CheckOut(t, token))
  {
    assert CheckOutOutcome(t, token) == CheckOutOutcome(s, token);
  }

  lemma CreateIgnoresPayments(cfg: Config, s: State, t: State, req: BookingRequest)
    requires SameButPayments(s, t)
    ensures SameButPayments(Create(cfg, s, req), Create(cfg, t, req))
  {
    assert CreateOutcome(cfg, t, req) == CreateOutcome(cfg, s, req);
  }

  lemma CancelAllIgnoresPayments(s: State, t: State, ids: set<Uuid>)
    requires SameButPayments(s, t)
    ensures SameButPayments(CancelAll(s, ids), CancelAll(t, ids))
  {
  }

  lemma CancelIgnoresPayments(s: State, t: State, id: Uuid, requester: Uuid, isStaff: bool)
    requires SameButPayments(s, t)
    ensures SameButPayments(Cancel(s, id, requester, isStaff), Cancel(t, id, requester, isStaff))
  {
  }

  lemma BlockIgnoresPayments(s: State, t: State, user: Uuid, requester: Uuid)
    requires SameButPayments(s, t)
    ensures SameButPayments(Block(s, user, requester), Block(t, user, requester))
  {
    CancelAllIgnoresPayments(s, t, ConfirmedOf(s.reservations, user));
  }

  lemma RequestIgnoresPayments(cfg: Config, s: State, t: State, a: Action)
    requires IsRequest(a) && SameButPayments(s, t) && AllTimesOk(cfg, s.now, s.reservations)
    ensures SameButPayments(NextRequest(cfg, s, a), NextRequest(cfg, t, a))
  {
    match a
    case Book(req) => CreateIgnoresPayments(cfg, s, t, req);
    case CancelBooking(id, requester, isStaff) => CancelIgnoresPayments(s, t, id, requester, isStaff);
    case BlockUser(user, requester) => BlockIgnoresPayments(s, t, user, requester);
    case ScanIn(token, exitToken) => CheckInIgnoresPayments(cfg, s, t, token, exitToken);
    case ScanOut(token) => CheckOutIgnoresPayments(s, t, token);
    case ConfirmCheckout(id, user) =>
      PendingPaymentUnreachable(cfg, s, id, user);
      PendingPaymentUnreachable(cfg, t, id, user);
    case FailCheckout(id, user) =>
      PendingPaymentUnreachable(cfg, s, id, user);
      PendingPaymentUnreachable(cfg, t, id, user);
  }

  lemma ResolveAllIgnoresPayments(cfg: Config, s: State, t: State, active: map<Uuid, ActiveRow>, at: int)
    requires SameButPayments(s, t)
    ensures SameButPayments(ResolveAll(cfg, s, active, at), ResolveAll(cfg, t, active, at))
  {
    assert Decisions(cfg, t, active, at) == Decisions(cfg, s, active, at);
    ApplyAllIgnoresPayments(cfg, s, t, active, Decisions(cfg, s, active, at));
  }

  lemma ApplyAllIgnoresPayments(cfg: Config, s: State, t: State, active: map<Uuid, ActiveRow>,
                                decisions: map<Uuid, Decision>)
    requires SameButPayments(s, t)
    ensures SameButPayments(ApplyAll(cfg, s, active, decisions), ApplyAll(cfg, t, active, decisions))
  {
  }

  lemma SweepIgnoresPayments(cfg: Config, s: State, t: State)
    requires SameButPayments(s, t)
    ensures SameButPayments(SweepAll(cfg, s), SweepAll(cfg, t))
  {
    CancelAllIgnoresPayments(s, t, NoShows(cfg, s));
    assert NoShows(cfg, t) == NoShows(cfg, s);
  }

  lemma ActiveIgnoresPayments(s: State, t: State)
    requires SameButPayments(s, t)
    ensures ActiveRows(t) == ActiveRows(s)
  {
  }

  lemma TickIgnoresPayments(cfg: Config, s: State, t: State)
    requires SameButPayments(s, t)
    ensures SameButPayments(Tick(cfg, s), Tick(cfg, t))
  {
    var swept := SweepAll(cfg, s);
    SweepIgnoresPayments(cfg, s, t);
    ActiveIgnoresPayments(swept, SweepAll(cfg, t));
    ResolveAllIgnoresPayments(cfg, swept, SweepAll(cfg, t), ActiveRows(swept), s.now);
  }

  lemma ResolveIgnoresPayments(cfg: Config, s: State, t: State, id: Uuid, row: ActiveRow, at: int)
    requires SameButPayments(s, t)
    ensures SameButPayments(Resolve(cfg, s, id, row, at), Resolve(cfg, t, id, row, at))
  {
  }

  lemma TickWriteIgnoresPayments(cfg: Config, s: State, t: State, a: Action)
    requires IsTickWrite(a) && SameButPayments(s, t)
    ensures SameButPayments(NextTickWrite(cfg, s, a), NextTickWrite(cfg, t, a))
  {
    match a
    case Monitor => TickIgnoresPayments(cfg, s, t);
    case SweepWrite(id) =>
    case ResolveWrite(id) =>
      if s.tick.Resolving? && id in s.tick.active {
        ResolveIgnoresPayments(cfg, s, t, id, s.tick.active[id], s.tick.at);
      }
  }

  lemma SlotEditIgnoresPayments(s: State, t: State, a: Action)
    requires IsSlotEdit(a) && SameButPayments(s, t)
    ensures SameButPayments(NextSlots(s, a), NextSlots(t, a))
  {
    match a
    case RestrictSlots(slots, maintenance) => RestrictIgnoresPayments(s, t, slots, maintenance);
    case AddSlot(slot, lot, basePrice) =>
    case RemoveSlot(slot) => assert SlotReferenced(t, slot) == SlotReferenced(s, slot);
    case RepriceSlots(slots, basePrice) =>
      assert Reprice(t, slots, basePrice).slots == Reprice(s, slots, basePrice).slots;
  }

  lemma RestrictIgnoresPayments(s: State, t: State, ids: set<Uuid>, maintenance: bool)
    requires SameButPayments(s, t)
    ensures SameButPayments(Restrict(s, ids, maintenance), Restrict(t, ids, maintenance))
  {
    assert RestrictOutcome(t, ids) == RestrictOutcome(s, ids);
  }

  lemma OtherIgnoresPayments(cfg: Config, s: State, t: State, a: Action)
    requires IsSurrounding(a) && !IsSlotEdit(a) && SameButPayments(s, t)
    ensures SameButPayments(NextOther(cfg, s, a), NextOther(cfg, t, a))
  {
    match a
    case BeginSweep => assert NoShows(cfg, t) == NoShows(cfg, s);
    case BeginResolve => ActiveIgnoresPayments(s, t);
    case EndTick =>
    case AddUser(user) =>
    case SaveCard(user, last4) =>
    case SetLotActive(lot, active) =>
    case Advance(elapsed) =>
  }

  lemma StepIgnoresPayments(cfg: Config, s: State, t: State, a: Action)
    requires SameButPayments(s, t) && AllTimesOk(cfg, s.now, s.reservations)
    ensures SameButPayments(Next(cfg, s, a), Next(cfg, t, a))
    ensures RacesTick(cfg, t, a) == RacesTick(cfg, s, a)
  {
    if IsSlotEdit(a) {
      SlotEditIgnoresPayments(s, t, a);
    } else if IsSurrounding(a) {
      OtherIgnoresPayments(cfg, s, t, a);
    } else if IsTickWrite(a) {
      TickWriteIgnoresPayments(cfg, s, t, a);
    } else {
      RequestIgnoresPayments(cfg, s, t, a);
      if a.ScanOut? {
        CheckOutIgnoresPayments(s, t, a.token);
      }
    }
  }

  lemma DeclineStep(cfg: Config, s: State, a: Action)
    requires IsDeclined(s, a)
    ensures SameButPayments(s, Next(cfg, s, a))
  {
    DeclineMovesNothing(s, a.token);
  }

  /** A run and the same run without its declined scans, side by side. */
  lemma {:induction false} RunsAgree(cfg: Config, s: State, t: State, actions: seq<Action>)
    requires Inv(cfg, s) && Inv(cfg, t) && SameButPayments(s, t) && Undisturbed(cfg, s, actions)
    ensures Undisturbed(cfg, t, WithoutDeclines(cfg, s, actions))
    ensures SameButPayments(Run(cfg, s, actions), Run(cfg, t, WithoutDeclines(cfg, s, actions)))
    ensures Inv(cfg, Run(cfg, s, actions)) && Inv(cfg, Run(cfg, t, WithoutDeclines(cfg, s, actions)))
    decreases |actions|
  {
    if actions != [] {
      var a := actions[0];
      StepKeepsInv(cfg, s, a);
      if IsDeclined(s, a) {
        DeclineStep(cfg, s, a);
        RunsAgree(cfg, Next(cfg, s, a), t, actions[1..]);
      } else {
        StepIgnoresPayments(cfg, s, t, a);
        StepKeepsInv(cfg, t, a);
        RunsAgree(cfg, Next(cfg, s, a), Next(cfg, t, a), actions[1..]);
        FirstAction(cfg, t, a, WithoutDeclines(cfg, Next(cfg, s, a), actions[1..]));
      }
    }
  }

  lemma FirstAction(cfg: Config, s: State, a: Action, later: seq<Action>)
    ensures Run(cfg, s, [a] + later) == Run(cfg, Next(cfg, s, a), later)
    ensures Undisturbed(cfg, s, [a] + later) <==> !RacesTick(cfg, s, a) && Undisturbed(cfg, Next(cfg, s, a), later)
  {
    assert ([a] + later)[1..] == later;
  }

  /**
   * Take any run and drop every declined scan from it, wherever it stands: the run without them ends in
   * the same state except for payment rows, and every completed reservation has paid the same.
   */
  lemma DeclinesLeaveNoTrace(cfg: Config, s: State, actions: seq<Action>)
    requires Inv(cfg, s) && Undisturbed(cfg, s, actions)
    ensures var kept := WithoutDeclines(cfg, s, actions);
      var t, u := Run(cfg, s, actions), Run(cfg, s, kept);
      && Undisturbed(cfg, s, kept) && u == t.(payments := u.payments)
      && forall id :: id in t.reservations && t.reservations[id].status == Completed ==>
           id in t.payments && id in u.payments && u.payments[id] == t.payments[id]
  {
    var t, u := Run(cfg, s, actions), Run(cfg, s, WithoutDeclines(cfg, s, actions));
    RunsAgree(cfg, s, s, actions);
    forall id | id in t.reservations && t.reservations[id].status == Completed
      ensures id in t.payments && id in u.payments && u.payments[id] == t.payments[id]
    {
      assert PaymentOk(t.challans, t.payments, id, t.reservations[id]);
      assert PaymentOk(u.challans, u.payments, id, u.reservations[id]);
    }
  }
}
