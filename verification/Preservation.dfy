/** Every write keeps the invariant: first one row at a time over single tables, then write by write. */
module Preservation {
  import opened Collections
  import opened Model
  import opened Billing
  import opened Lifecycle
  import opened Monitoring
  import opened Invariants

  // ------------------------------------------------------------------ one row changes, the others do not

  lemma TimesPoint(cfg: Config, now: int, later: int, rows: map<Uuid, Reservation>, id: Uuid, r: Reservation)
    requires AllTimesOk(cfg, now, rows) && now <= later && TimesOk(cfg, later, r)
    ensures AllTimesOk(cfg, later, rows[id := r])
  {
    var moved := rows[id := r];
    forall x | x in moved
      ensures TimesOk(cfg, later, moved[x])
    {
      if x != id {
        assert TimesOk(cfg, now, rows[x]);
      }
    }
  }

  ghost predicate ChallansElsewhere(a: map<ChallanKey, int>, b: map<ChallanKey, int>, id: Uuid) {
    && (forall k: ChallanKey :: k.reservation != id ==> (k in a <==> k in b))
    && (forall k: ChallanKey :: k.reservation != id && k in a && k in b ==> a[k] == b[k])
  }

  lemma LaddersPoint(a: map<ChallanKey, int>, b: map<ChallanKey, int>, bookings: map<Uuid, BookingRecord>,
                     rows: map<Uuid, Reservation>, id: Uuid, k: BookingRecord, r: Reservation)
    requires bookings.Keys == rows.Keys && Ladders(a, bookings, rows) && ChallansElsewhere(a, b, id)
    requires Ladder(b, id, k, r)
    ensures Ladders(b, bookings[id := k], rows[id := r])
  {
    var noted, moved := bookings[id := k], rows[id := r];
    forall x | x in moved
      ensures Ladder(b, x, noted[x], moved[x])
    {
      if x != id {
        assert Ladder(a, x, bookings[x], rows[x]);
        LadderFrame(a, b, x, bookings[x], rows[x]);
      }
    }
  }

  lemma LadderFrame(a: map<ChallanKey, int>, b: map<ChallanKey, int>, id: Uuid, k: BookingRecord, r: Reservation)
    requires forall key: ChallanKey :: key.reservation == id ==> (key in a <==> key in b)
    requires Ladder(a, id, k, r)
    ensures Ladder(b, id, k, r)
  {
    forall i | 0 <= i < Rungs(k, r)
      ensures ChallanKey(id, Extension, RungAt(k, i)) in b
    {
      assert ChallanKey(id, Extension, RungAt(k, i)) in a;
    }
  }

  lemma PaymentsPoint(a: map<ChallanKey, int>, b: map<ChallanKey, int>, payments: map<Uuid, Payment>,
                      paid: map<Uuid, Payment>, rows: map<Uuid, Reservation>, id: Uuid, r: Reservation)
    requires PaymentsOk(a, payments, rows) && ChallansElsewhere(a, b, id)
    requires forall x :: x != id ==> (x in payments <==> x in paid) && (x in paid ==> paid[x] == payments[x])
    requires PaymentOk(b, paid, id, r)
    ensures PaymentsOk(b, paid, rows[id := r])
  {
    var moved := rows[id := r];
    forall x | x in moved
      ensures PaymentOk(b, paid, x, moved[x])
    {
      if x != id {
        assert PaymentOk(a, payments, x, rows[x]);
        assert ChallansOf(b, x) == ChallansOf(a, x);
        SumOverAgree(a, b, ChallansOf(a, x));
      }
    }
  }

  ghost predicate CodesElsewhere(a: map<Uuid, QrCode>, b: map<Uuid, QrCode>, id: Uuid) {
    && (forall q :: q in a && a[q].reservation != id ==> q in b && b[q] == a[q])
    && (forall q :: q in b && b[q].reservation != id ==> q in a && b[q] == a[q])
  }

  lemma CodesPoint(cfg: Config, a: map<Uuid, QrCode>, b: map<Uuid, QrCode>,
                   rows: map<Uuid, Reservation>, id: Uuid, r: Reservation)
    requires CodesOk(cfg, a, rows) && CodesElsewhere(a, b, id)
    requires OneCodePerKind(b) && CodesOf(cfg, b, id, r)
    ensures CodesOk(cfg, b, rows[id := r])
  {
    var moved := rows[id := r];
    forall x | x in moved
      ensures CodesOf(cfg, b, x, moved[x])
    {
      if x != id {
        assert CodesOf(cfg, a, x, rows[x]);
        var q :| q in a && a[q] == EntryCode(cfg, x, rows[x]);
        assert b[q] == EntryCode(cfg, x, rows[x]);
        if Entered(rows[x]) {
          var e :| e in a && a[e] == ExitCode(x, rows[x]);
          assert b[e] == ExitCode(x, rows[x]);
        }
      }
    }
  }

  lemma ApartPoint(cfg: Config, rows: map<Uuid, Reservation>, id: Uuid, r: Reservation)
    requires ConfirmedApart(cfg, rows)
    requires forall x :: x in rows && x != id && Rivals(r, rows[x]) ==> Apart(cfg.buffer, r, rows[x])
    requires forall x :: x in rows && x != id && Rivals(rows[x], r) ==> Apart(cfg.buffer, rows[x], r)
    ensures ConfirmedApart(cfg, rows[id := r])
  {
  }

  /** The status of the row's own slot needs a witness; every other slot keeps the one it had. */
  lemma CachePoint(slots: map<Uuid, Slot>, slots': map<Uuid, Slot>, rows: map<Uuid, Reservation>, id: Uuid,
                   r: Reservation)
    requires CacheOk(slots, rows) && (id in rows ==> rows[id].slot == r.slot)
    requires forall slot :: slot in slots' && slot != r.slot ==> slot in slots && slots'[slot] == slots[slot]
    requires r.slot in slots' ==> SlotCacheOk(slots'[r.slot].status, rows[id := r], r.slot)
    ensures CacheOk(slots', rows[id := r])
  {
    forall slot | slot in slots'
      ensures SlotCacheOk(slots'[slot].status, rows[id := r], slot)
    {
      if slot != r.slot {
        assert SlotCacheOk(slots[slot].status, rows, slot);
        CacheKeep(slots[slot].status, rows, slot, id, r);
      }
    }
  }

  /** A slot keeps an honest status if the changed row was not its only witness. */
  lemma CacheKeep(status: SlotStatus, rows: map<Uuid, Reservation>, slot: Uuid, id: Uuid, r: Reservation)
    requires SlotCacheOk(status, rows, slot)
    requires id in rows ==> r.slot == rows[id].slot
    requires id in rows && rows[id].slot == slot && status == Reserved && rows[id].status == Confirmed ==>
      r.status == Confirmed
    requires id in rows && rows[id].slot == slot && status == Occupied && InUse(rows[id]) ==> InUse(r)
    ensures SlotCacheOk(status, rows[id := r], slot)
  {
    if status == Reserved {
      var x :| x in rows && rows[x].slot == slot && rows[x].status == Confirmed;
      assert rows[id := r][x].slot == slot && rows[id := r][x].status == Confirmed;
    }
    if status == Occupied {
      var x :| x in rows && rows[x].slot == slot && InUse(rows[x]);
      assert rows[id := r][x].slot == slot && InUse(rows[id := r][x]);
    }
  }

  // ------------------------------------------------------------------ cancelling

  ghost predicate Cancellable(s: State, id: Uuid) {
    id in s.reservations && (s.reservations[id].status == Confirmed || s.reservations[id].status == Cancelled)
  }

  lemma CancelKeepsCore(cfg: Config, s: State, id: Uuid)
    requires Core(cfg, s) && Cancellable(s, id)
    ensures Core(cfg, CancelWrites(s, id))
  {
    CancelKeepsReferences(s, id);
    CancelKeepsRows(cfg, s, id);
    CancelKeepsCodes(cfg, s.qrCodes, s.reservations, id);
    CancelKeepsCache(s.slots, s.reservations, id);
  }

  lemma CancelKeepsReferences(s: State, id: Uuid)
    requires References(s) && id in s.reservations
    ensures References(CancelWrites(s, id))
  {
    var t := CancelWrites(s, id);
    assert t.qrCodes.Keys == s.qrCodes.Keys && t.slots.Keys == s.slots.Keys;
    assert forall q :: q in t.qrCodes ==> t.qrCodes[q].reservation == s.qrCodes[q].reservation;
  }

  lemma CancelKeepsRows(cfg: Config, s: State, id: Uuid)
    requires AllTimesOk(cfg, s.now, s.reservations) && s.bookings.Keys == s.reservations.Keys && Cancellable(s, id)
    requires Ladders(s.challans, s.bookings, s.reservations) && PaymentsOk(s.challans, s.payments, s.reservations)
    ensures var rows := s.reservations[id := s.reservations[id].(status := Cancelled)];
      && AllTimesOk(cfg, s.now, rows)
      && Ladders(s.challans, s.bookings, rows) && PaymentsOk(s.challans, s.payments, rows)
  {
    var r := s.reservations[id].(status := Cancelled);
    assert TimesOk(cfg, s.now, s.reservations[id]);
    TimesPoint(cfg, s.now, s.now, s.reservations, id, r);
    assert Ladder(s.challans, id, s.bookings[id], s.reservations[id]);
    LaddersPoint(s.challans, s.challans, s.bookings, s.reservations, id, s.bookings[id], r);
    assert s.bookings[id := s.bookings[id]] == s.bookings;
    assert PaymentOk(s.challans, s.payments, id, s.reservations[id]);
    PaymentsPoint(s.challans, s.challans, s.payments, s.payments, s.reservations, id, r);
  }

  lemma CancelKeepsCodes(cfg: Config, codes: map<Uuid, QrCode>, rows: map<Uuid, Reservation>, id: Uuid)
    requires CodesOk(cfg, codes, rows) && id in rows && (rows[id].status == Confirmed || rows[id].status == Cancelled)
    ensures CodesOk(cfg, ExpireCheckIn(codes, id), rows[id := rows[id].(status := Cancelled)])
  {
    var r := rows[id].(status := Cancelled);
    assert CodesOf(cfg, codes, id, rows[id]);
    var q :| q in codes && codes[q] == EntryCode(cfg, id, rows[id]);
    assert ExpireCheckIn(codes, id)[q] == EntryCode(cfg, id, r);
    CodesPoint(cfg, codes, ExpireCheckIn(codes, id), rows, id, r);
  }

  lemma CancelKeepsCache(slots: map<Uuid, Slot>, rows: map<Uuid, Reservation>, id: Uuid)
    requires CacheOk(slots, rows) && id in rows && (rows[id].status == Confirmed || rows[id].status == Cancelled)
    ensures CacheOk(Release(slots, rows[id].slot), rows[id := rows[id].(status := Cancelled)])
  {
    var r := rows[id].(status := Cancelled);
    if r.slot in slots {
      assert SlotCacheOk(slots[r.slot].status, rows, r.slot);
      CacheKeep(Release(slots, r.slot)[r.slot].status, rows, r.slot, id, r);
    }
    CachePoint(slots, Release(slots, r.slot), rows, id, r);
  }

  lemma CancelKeepsApart(cfg: Config, rows: map<Uuid, Reservation>, id: Uuid)
    requires ConfirmedApart(cfg, rows) && id in rows && (rows[id].status == Confirmed || rows[id].status == Cancelled)
    ensures ConfirmedApart(cfg, rows[id := rows[id].(status := Cancelled)])
  {
    ApartPoint(cfg, rows, id, rows[id].(status := Cancelled));
  }

  // ------------------------------------------------------------------ booking

  lemma CreateKeepsCore(cfg: Config, s: State, req: BookingRequest)
    requires Core(cfg, s) && CreateOutcome(cfg, s, req) == Accepted
    ensures Core(cfg, Create(cfg, s, req))
  {
    var t := Create(cfg, s, req);
    var r := t.reservations[req.id];
    assert Rungs(t.bookings[req.id], r) == 0;
    NoChallansYet(s, req.id);
    TimesPoint(cfg, s.now, s.now, s.reservations, req.id, r);
    LaddersPoint(s.challans, s.challans, s.bookings, s.reservations, req.id, t.bookings[req.id], r);
    PaymentsPoint(s.challans, s.challans, s.payments, s.payments, s.reservations, req.id, r);
    CreateKeepsCodes(cfg, s, req.token, t.qrCodes[req.token], req.id, r);
    CreateKeepsCache(s.slots, t.slots, s.reservations, req.id, r);
  }

  lemma NoChallansYet(s: State, id: Uuid)
    requires References(s) && id !in s.reservations
    ensures id !in s.payments && forall k :: k in s.challans ==> k.reservation != id
  {
  }

  lemma CreateKeepsCodes(cfg: Config, s: State, token: Uuid, code: QrCode, id: Uuid, r: Reservation)
    requires CodesOk(cfg, s.qrCodes, s.reservations) && token !in s.qrCodes && id !in s.reservations
    requires forall t :: t in s.qrCodes ==> s.qrCodes[t].reservation in s.reservations
    requires r.status == Confirmed && code == EntryCode(cfg, id, r)
    ensures CodesOk(cfg, s.qrCodes[token := code], s.reservations[id := r])
  {
    assert s.qrCodes[token := code][token] == EntryCode(cfg, id, r);
    CodesPoint(cfg, s.qrCodes, s.qrCodes[token := code], s.reservations, id, r);
  }

  lemma CreateKeepsCache(slots: map<Uuid, Slot>, slots': map<Uuid, Slot>, rows: map<Uuid, Reservation>, id: Uuid,
                         r: Reservation)
    requires CacheOk(slots, rows) && id !in rows && r.slot in slots && r.status == Confirmed
    requires slots' == if slots[r.slot].status == Available
      then slots[r.slot := slots[r.slot].(status := Reserved)] else slots
    ensures CacheOk(slots', rows[id := r])
  {
    assert SlotCacheOk(slots[r.slot].status, rows, r.slot);
    if slots[r.slot].status == Available {
      assert rows[id := r][id].slot == r.slot && rows[id := r][id].status == Confirmed;
    } else {
      CacheKeep(slots[r.slot].status, rows, r.slot, id, r);
    }
    CachePoint(slots, slots', rows, id, r);
  }

  lemma CreateKeepsApart(cfg: Config, s: State, req: BookingRequest)
    requires ConfirmedApart(cfg, s.reservations) && CreateOutcome(cfg, s, req) == Accepted
    ensures ConfirmedApart(cfg, Create(cfg, s, req).reservations)
  {
    ApartPoint(cfg, s.reservations, req.id, Create(cfg, s, req).reservations[req.id]);
  }

  // ------------------------------------------------------------------ checking in

  /** The scanned code is the reservation's own check-in code, so its expiry is the grace limit. */
  lemma ScannedEntryCode(cfg: Config, s: State, token: Uuid)
    requires CodesOk(cfg, s.qrCodes, s.reservations) && ScanOutcome(s, token, CheckInCode) == Accepted
    ensures var id := s.qrCodes[token].reservation;
      s.qrCodes[token] == EntryCode(cfg, id, s.reservations[id]) && s.reservations[id].status == Confirmed
      && s.now <= s.reservations[id].startTime + cfg.grace
  {
    var id := s.qrCodes[token].reservation;
    assert CodesOf(cfg, s.qrCodes, id, s.reservations[id]);
    var q :| q in s.qrCodes && s.qrCodes[q] == EntryCode(cfg, id, s.reservations[id]);
    assert q == token;
  }

  lemma CheckInKeepsCore(cfg: Config, s: State, token: Uuid, exitToken: Uuid)
    requires Core(cfg, s) && CheckInOutcome(cfg, s, token, exitToken) == Accepted
    ensures Core(cfg, CheckIn(cfg, s, token, exitToken))
  {
    var id := s.qrCodes[token].reservation;
    ScannedEntryCode(cfg, s, token);
    CheckInKeepsRows(cfg, s, id);
    CheckInKeepsCodes(cfg, s.qrCodes, s.reservations, token, exitToken, s.now);
    CheckInKeepsCache(s.slots, s.reservations, id, s.now);
  }

  lemma CheckInKeepsRows(cfg: Config, s: State, id: Uuid)
    requires AllTimesOk(cfg, s.now, s.reservations) && s.bookings.Keys == s.reservations.Keys
    requires Ladders(s.challans, s.bookings, s.reservations) && PaymentsOk(s.challans, s.payments, s.reservations)
    requires id in s.reservations && s.reservations[id].status == Confirmed
    requires s.reservations[id].startTime - cfg.early <= s.now <= s.reservations[id].startTime + cfg.grace
    ensures var rows := s.reservations[id := s.reservations[id].(status := CheckedIn, checkedInAt := Some(s.now))];
      && AllTimesOk(cfg, s.now, rows)
      && Ladders(s.challans, s.bookings, rows) && PaymentsOk(s.challans, s.payments, rows)
  {
    var r := s.reservations[id].(status := CheckedIn, checkedInAt := Some(s.now));
    TimesPoint(cfg, s.now, s.now, s.reservations, id, r);
    assert Ladder(s.challans, id, s.bookings[id], s.reservations[id]);
    LaddersPoint(s.challans, s.challans, s.bookings, s.reservations, id, s.bookings[id], r);
    assert s.bookings[id := s.bookings[id]] == s.bookings;
    assert PaymentOk(s.challans, s.payments, id, s.reservations[id]);
    PaymentsPoint(s.challans, s.challans, s.payments, s.payments, s.reservations, id, r);
  }

  lemma CheckInKeepsCodes(cfg: Config, codes: map<Uuid, QrCode>, rows: map<Uuid, Reservation>,
                          token: Uuid, exitToken: Uuid, now: int)
    requires CodesOk(cfg, codes, rows) && token in codes && exitToken !in codes
    requires codes[token].reservation in rows && rows[codes[token].reservation].status == Confirmed
    requires codes[token] == EntryCode(cfg, codes[token].reservation, rows[codes[token].reservation])
    ensures var id := codes[token].reservation;
      CodesOk(cfg, codes[token := codes[token].(status := Used)][exitToken := QrCode(id, CheckOutCode, Active, None)],
              rows[id := rows[id].(status := CheckedIn, checkedInAt := Some(now))])
  {
    var id := codes[token].reservation;
    var r := rows[id].(status := CheckedIn, checkedInAt := Some(now));
    var more := codes[token := codes[token].(status := Used)][exitToken := QrCode(id, CheckOutCode, Active, None)];
    assert CodesOf(cfg, codes, id, rows[id]);
    assert more[token] == EntryCode(cfg, id, r);
    assert more[exitToken] == ExitCode(id, r);
    CodesPoint(cfg, codes, more, rows, id, r);
  }

  lemma CheckInKeepsCache(slots: map<Uuid, Slot>, rows: map<Uuid, Reservation>, id: Uuid, now: int)
    requires CacheOk(slots, rows) && id in rows && rows[id].slot in slots
    ensures CacheOk(slots[rows[id].slot := slots[rows[id].slot].(status := Occupied)],
                    rows[id := rows[id].(status := CheckedIn, checkedInAt := Some(now))])
  {
    var r := rows[id].(status := CheckedIn, checkedInAt := Some(now));
    assert rows[id := r][id].slot == r.slot && InUse(rows[id := r][id]);
    CachePoint(slots, slots[r.slot := slots[r.slot].(status := Occupied)], rows, id, r);
  }

  lemma CheckInKeepsApart(cfg: Config, rows: map<Uuid, Reservation>, id: Uuid, now: int)
    requires ConfirmedApart(cfg, rows) && id in rows && rows[id].status == Confirmed
    ensures ConfirmedApart(cfg, rows[id := rows[id].(status := CheckedIn, checkedInAt := Some(now))])
  {
    var r := rows[id].(status := CheckedIn, checkedInAt := Some(now));
    forall x | x in rows && x != id && Rivals(rows[x], r)
      ensures Apart(cfg.buffer, rows[x], r)
    {
      assert Rivals(rows[x], rows[id]);
    }
    ApartPoint(cfg, rows, id, r);
  }

  // ------------------------------------------------------------------ checking out

  lemma DeclineKeepsCore(cfg: Config, s: State, token: Uuid)
    requires Core(cfg, s) && CheckOutOutcome(s, token) == Declined
    ensures Core(cfg, CheckOut(s, token))
  {
    var id := s.qrCodes[token].reservation;
    var r := s.reservations[id];
    assert PaymentOk(s.challans, s.payments, id, r);
    PaymentsPoint(s.challans, s.challans, s.payments, CheckOut(s, token).payments, s.reservations, id, r);
    assert s.reservations[id := r] == s.reservations;
  }

  lemma CheckOutKeepsCore(cfg: Config, s: State, token: Uuid)
    requires Core(cfg, s) && CheckOutOutcome(s, token) == Accepted
    ensures Core(cfg, CheckOut(s, token))
  {
    var id := s.qrCodes[token].reservation;
    CheckOutKeepsRows(cfg, s, id);
    CheckOutKeepsCodes(cfg, s.qrCodes, s.reservations, token);
    CheckOutKeepsCache(s.slots, s.reservations, id);
  }

  lemma CheckOutKeepsRows(cfg: Config, s: State, id: Uuid)
    requires AllTimesOk(cfg, s.now, s.reservations) && s.bookings.Keys == s.reservations.Keys
    requires Ladders(s.challans, s.bookings, s.reservations) && PaymentsOk(s.challans, s.payments, s.reservations)
    requires id in s.reservations && InUse(s.reservations[id])
    ensures var rows := s.reservations[id := s.reservations[id].(status := Completed)];
      && AllTimesOk(cfg, s.now, rows)
      && Ladders(s.challans, s.bookings, rows)
      && PaymentsOk(s.challans, s.payments[id := Payment(FinalCharge(s, id), Successful)], rows)
  {
    var r := s.reservations[id].(status := Completed);
    assert TimesOk(cfg, s.now, s.reservations[id]);
    TimesPoint(cfg, s.now, s.now, s.reservations, id, r);
    assert Ladder(s.challans, id, s.bookings[id], s.reservations[id]);
    LaddersPoint(s.challans, s.challans, s.bookings, s.reservations, id, s.bookings[id], r);
    assert s.bookings[id := s.bookings[id]] == s.bookings;
    PaymentsPoint(s.challans, s.challans, s.payments, s.payments[id := Payment(FinalCharge(s, id), Successful)],
                  s.reservations, id, r);
  }

  lemma CheckOutKeepsCodes(cfg: Config, codes: map<Uuid, QrCode>, rows: map<Uuid, Reservation>, token: Uuid)
    requires CodesOk(cfg, codes, rows) && token in codes && codes[token].kind == CheckOutCode
    requires codes[token].reservation in rows && InUse(rows[codes[token].reservation])
    ensures var id := codes[token].reservation;
      CodesOk(cfg, codes[token := codes[token].(status := Used)], rows[id := rows[id].(status := Completed)])
  {
    var id := codes[token].reservation;
    var r := rows[id].(status := Completed);
    var used := codes[token := codes[token].(status := Used)];
    assert CodesOf(cfg, codes, id, rows[id]);
    var q :| q in codes && codes[q] == EntryCode(cfg, id, rows[id]);
    assert used[q] == EntryCode(cfg, id, r);
    var e :| e in codes && codes[e] == ExitCode(id, rows[id]);
    assert e == token;
    assert used[token] == ExitCode(id, r);
    CodesPoint(cfg, codes, used, rows, id, r);
  }

  lemma CheckOutKeepsCache(slots: map<Uuid, Slot>, rows: map<Uuid, Reservation>, id: Uuid)
    requires CacheOk(slots, rows) && id in rows && rows[id].slot in slots
    ensures CacheOk(slots[rows[id].slot := slots[rows[id].slot].(status := Available)],
                    rows[id := rows[id].(status := Completed)])
  {
    var r := rows[id].(status := Completed);
    CachePoint(slots, slots[r.slot := slots[r.slot].(status := Available)], rows, id, r);
  }

  lemma CheckOutKeepsApart(cfg: Config, rows: map<Uuid, Reservation>, id: Uuid)
    requires ConfirmedApart(cfg, rows) && id in rows
    ensures ConfirmedApart(cfg, rows[id := rows[id].(status := Completed)])
  {
    ApartPoint(cfg, rows, id, rows[id].(status := Completed));
  }

  // ------------------------------------------------------------------ extending and penalising

  /** On the ladder the `alreadyProcessed` exits are dead: an expired grace period always has its effect. */
  lemma NeverAlreadyProcessed(cfg: Config, s: State, id: Uuid, row: ActiveRow, at: int)
    requires s.bookings.Keys == s.reservations.Keys && Ladders(s.challans, s.bookings, s.reservations)
    requires FreshRow(s.reservations, id, row) && GraceExpired(cfg, row, at)
    ensures ChallanKey(id, OvertimePenalty, row.endTime) !in s.challans
    ensures ChallanKey(id, Extension, row.endTime) !in s.challans
    ensures Decide(cfg, s, id, row, at) == if Queued(s.reservations, row.slot, row.endTime) then Penalise else Extend
  {
    assert Ladder(s.challans, id, s.bookings[id], s.reservations[id]);
  }

  lemma ResolveKeepsCore(cfg: Config, s: State, id: Uuid, row: ActiveRow, at: int)
    requires Core(cfg, s) && Remembered(cfg, s.reservations, id, row, at)
    ensures Core(cfg, Resolve(cfg, s, id, row, at))
  {
    var d := Decide(cfg, s, id, row, at);
    if d != Leave {
      NeverAlreadyProcessed(cfg, s, id, row, at);
      ApplyKeepsCore(cfg, s, id, row, d);
    }
  }

  lemma ApplyKeepsCore(cfg: Config, s: State, id: Uuid, row: ActiveRow, d: Decision)
    requires Core(cfg, s) && FreshRow(s.reservations, id, row) && d != Leave && KeyOf(id, row, d) !in s.challans
    ensures Core(cfg, Apply(cfg, s, id, row, d))
  {
    var key := KeyOf(id, row, d);
    var more := s.challans[key := AmountOf(cfg, key.kind, row)];
    var r := RowAfter(s.reservations[id], row, d);
    assert TimesOk(cfg, s.now, s.reservations[id]);
    TimesPoint(cfg, s.now, s.now, s.reservations, id, r);
    ApplyKeepsLadders(cfg, s, id, row, d);
    ApplyKeepsPayments(s.challans, more, s.payments, s.reservations, id, r);
    ApplyKeepsCodes(cfg, s.qrCodes, s.reservations, id, r);
    ApplyKeepsCache(s.slots, s.reservations, id, r);
  }

  lemma ApplyKeepsLadders(cfg: Config, s: State, id: Uuid, row: ActiveRow, d: Decision)
    requires s.bookings.Keys == s.reservations.Keys && Ladders(s.challans, s.bookings, s.reservations)
    requires FreshRow(s.reservations, id, row) && d != Leave
    ensures var key := KeyOf(id, row, d);
      Ladders(s.challans[key := AmountOf(cfg, key.kind, row)], s.bookings,
              s.reservations[id := RowAfter(s.reservations[id], row, d)])
  {
    var key := KeyOf(id, row, d);
    var amount := AmountOf(cfg, key.kind, row);
    var r := RowAfter(s.reservations[id], row, d);
    assert Ladder(s.challans, id, s.bookings[id], s.reservations[id]);
    if d == Extend {
      ExtendKeepsLadder(s.challans, id, s.bookings[id], s.reservations[id], amount);
    } else {
      PenaliseKeepsLadder(s.challans, id, s.bookings[id], s.reservations[id], amount);
    }
    LaddersPoint(s.challans, s.challans[key := amount], s.bookings, s.reservations, id, s.bookings[id], r);
    assert s.bookings[id := s.bookings[id]] == s.bookings;
  }

  lemma ExtendKeepsLadder(challans: map<ChallanKey, int>, id: Uuid, b: BookingRecord, r: Reservation, amount: int)
    requires Ladder(challans, id, b, r) && r.status == CheckedIn
    ensures Ladder(challans[ChallanKey(id, Extension, r.endTime) := amount], id, b, r.(endTime := r.endTime + HOUR))
  {
    var more, longer := challans[ChallanKey(id, Extension, r.endTime) := amount], r.(endTime := r.endTime + HOUR);
    assert Rungs(b, longer) == Rungs(b, r) + 1;
    forall i | 0 <= i < Rungs(b, longer)
      ensures ChallanKey(id, Extension, RungAt(b, i)) in more
    {
      if i < Rungs(b, r) {
        assert ChallanKey(id, Extension, RungAt(b, i)) in challans;
      }
    }
    forall k | k in more && k.reservation == id && k.kind == Extension
      ensures exists i :: 0 <= i < Rungs(b, longer) && k.forCheckoutAt == RungAt(b, i)
    {
      if k in challans {
        var i :| 0 <= i < Rungs(b, r) && k.forCheckoutAt == RungAt(b, i);
        assert 0 <= i < Rungs(b, longer);
      } else {
        assert k.forCheckoutAt == RungAt(b, Rungs(b, r));
      }
    }
  }

  lemma PenaliseKeepsLadder(challans: map<ChallanKey, int>, id: Uuid, b: BookingRecord, r: Reservation, amount: int)
    requires Ladder(challans, id, b, r) && r.status == CheckedIn
    ensures Ladder(challans[ChallanKey(id, OvertimePenalty, r.endTime) := amount], id, b, r.(status := Overtime))
  {
    assert Rungs(b, r.(status := Overtime)) == Rungs(b, r);
  }

  lemma ApplyKeepsPayments(a: map<ChallanKey, int>, b: map<ChallanKey, int>, payments: map<Uuid, Payment>,
                           rows: map<Uuid, Reservation>, id: Uuid, r: Reservation)
    requires PaymentsOk(a, payments, rows) && ChallansElsewhere(a, b, id)
    requires id in rows && InUse(rows[id]) && InUse(r)
    ensures PaymentsOk(b, payments, rows[id := r])
  {
    assert PaymentOk(a, payments, id, rows[id]);
    PaymentsPoint(a, b, payments, payments, rows, id, r);
  }

  lemma ApplyKeepsCodes(cfg: Config, codes: map<Uuid, QrCode>, rows: map<Uuid, Reservation>, id: Uuid, r: Reservation)
    requires CodesOk(cfg, codes, rows) && id in rows && InUse(rows[id]) && InUse(r) && r.startTime == rows[id].startTime
    ensures CodesOk(cfg, codes, rows[id := r])
  {
    assert CodesOf(cfg, codes, id, rows[id]);
    assert EntryCode(cfg, id, r) == EntryCode(cfg, id, rows[id]) && ExitCode(id, r) == ExitCode(id, rows[id]);
    CodesPoint(cfg, codes, codes, rows, id, r);
  }

  lemma ApplyKeepsCache(slots: map<Uuid, Slot>, rows: map<Uuid, Reservation>, id: Uuid, r: Reservation)
    requires CacheOk(slots, rows) && id in rows && InUse(rows[id]) && InUse(r) && r.slot == rows[id].slot
    ensures CacheOk(slots, rows[id := r])
  {
    if r.slot in slots {
      assert SlotCacheOk(slots[r.slot].status, rows, r.slot);
      CacheKeep(slots[r.slot].status, rows, r.slot, id, r);
    }
    CachePoint(slots, slots, rows, id, r);
  }

  /**
   * With a positive buffer an extension never reaches a confirmed window: a window that lies after
   * the booking would have been found in the queue.
   */
  lemma ResolveKeepsApart(cfg: Config, s: State, id: Uuid, row: ActiveRow, at: int)
    requires cfg.buffer > 0 && ConfirmedApart(cfg, s.reservations)
    requires Remembered(cfg, s.reservations, id, row, at)
    ensures ConfirmedApart(cfg, Resolve(cfg, s, id, row, at).reservations)
  {
    var d := Decide(cfg, s, id, row, at);
    if d != Leave {
      var r := RowAfter(s.reservations[id], row, d);
      forall x | x in s.reservations && x != id && Rivals(s.reservations[x], r)
        ensures Apart(cfg.buffer, s.reservations[x], r)
      {
        assert Rivals(s.reservations[x], s.reservations[id]);
      }
      ApartPoint(cfg, s.reservations, id, r);
    }
  }

  // ------------------------------------------------------------------ changes around the reservations

  /** Users, lots, prices, new slots, restrictions and the clock. */
  ghost predicate Surroundings(s: State, t: State) {
    && s.now <= t.now
    && t.reservations == s.reservations && t.qrCodes == s.qrCodes && t.challans == s.challans
    && t.payments == s.payments && t.bookings == s.bookings
    && (forall id :: id in s.reservations ==> s.reservations[id].slot in t.slots)
    && (forall slot :: slot in t.slots ==>
          t.slots[slot].status == Available || t.slots[slot].status == Maintenance
          || (slot in s.slots && t.slots[slot].status == s.slots[slot].status))
  }

  lemma SurroundingsKeepCore(cfg: Config, s: State, t: State)
    requires Core(cfg, s) && Surroundings(s, t)
    ensures Core(cfg, t)
  {
    forall id | id in t.reservations
      ensures TimesOk(cfg, t.now, t.reservations[id])
    {
      assert TimesOk(cfg, s.now, s.reservations[id]);
    }
    forall slot | slot in t.slots
      ensures SlotCacheOk(t.slots[slot].status, t.reservations, slot)
    {
      if slot in s.slots {
        assert SlotCacheOk(s.slots[slot].status, s.reservations, slot);
      }
    }
  }

  /** Every stay lasts at least the shortest booking. */
  lemma LadderBound(cfg: Config, s: State, id: Uuid)
    requires Core(cfg, s) && id in s.reservations
    ensures TimesOk(cfg, s.now, s.reservations[id])
    ensures s.reservations[id].endTime >= s.reservations[id].startTime + MIN_DURATION_MINUTES * MINUTE
  {
    assert TimesOk(cfg, s.now, s.reservations[id]);
    assert Ladder(s.challans, id, s.bookings[id], s.reservations[id]);
  }
}
