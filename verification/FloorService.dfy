/**
 * ParkingLotService (parking-lot.service.ts) on its tables, step by step: slot numbers are compared
 * as strings, as the source does. Each method is proved to have exactly the effect that ParkingLots
 * states on the cells of the grid.
 */
module FloorService {
  import opened Collections
  import opened Model
  import opened RowLabels
  import opened SlotGrid
  import opened ParkingLots
  import opened FloorGuarantees

  lemma FloorSlotsSnoc(lot: Uuid, floor: Uuid, price: int, numbers: seq<string>, number: string)
    ensures FloorSlots(lot, floor, price, numbers + [number])
         == FloorSlots(lot, floor, price, numbers) + [FloorSlot(lot, floor, number, price, Available)]
  {
  }

  /** `buildSlotGrid`. */
  method BuildSlotGrid(lot: Uuid, floor: Uuid, rows: int, columns: int, price: int) returns (slots: seq<FloorSlot>)
    requires rows >= 1 && columns >= 1
    ensures slots == FloorSlots(lot, floor, price, GridNumbers(rows, columns))
  {
    slots := [];
    var row := 1;
    while row <= rows
      invariant 1 <= row <= rows + 1
      invariant slots == FloorSlots(lot, floor, price, GridNumbers(row - 1, columns))
    {
      var rowLetters := BuildRowLabel(row);
      var col := 1;
      while col <= columns
        invariant 1 <= col <= columns + 1
        invariant slots == FloorSlots(lot, floor, price, CellsBefore(row, col, columns))
      {
        FloorSlotsSnoc(lot, floor, price, CellsBefore(row, col, columns), SlotNumber(row, col));
        NextCell(row, col, columns);
        slots := slots + [FloorSlot(lot, floor, rowLetters + Decimal(col), price, Available)];
        col := col + 1;
      }
      row := row + 1;
    }
  }

  /** `assertUniqueFloorNumbers`. */
  method AssertUniqueFloorNumbers(inputs: seq<FloorInput>) returns (ok: bool)
    ensures ok == DistinctFloorNumbers(inputs)
  {
    var seen: set<int> := {};
    var i := 0;
    while i < |inputs|
      invariant 0 <= i <= |inputs|
      invariant forall n :: n in seen <==> NumberIn(inputs[..i], n)
      invariant DistinctFloorNumbers(inputs[..i])
    {
      if inputs[i].floorNumber in seen {
        assert NumberIn(inputs[..i], inputs[i].floorNumber);
        return false;
      }
      assert inputs[..i + 1] == inputs[..i] + [inputs[i]];
      forall n
        ensures NumberIn(inputs[..i + 1], n) <==> NumberIn(inputs[..i], n) || inputs[i].floorNumber == n
      {
        NumberInSnoc(inputs[..i], inputs[i], n);
      }
      assert forall j :: 0 <= j < i ==> inputs[j] == inputs[..i][j];
      assert forall j :: 0 <= j < i ==> NumberIn(inputs[..i], inputs[..i][j].floorNumber);
      seen := seen + {inputs[i].floorNumber};
      i := i + 1;
    }
    assert inputs[..i] == inputs;
    ok := true;
  }

  /** `assertWithinSlotLimit`. */
  method AssertWithinSlotLimit(inputs: seq<FloorInput>) returns (ok: bool)
    ensures ok == WithinSlotLimit(inputs)
  {
    var i := 0;
    while i < |inputs|
      invariant 0 <= i <= |inputs|
      invariant forall j :: 0 <= j < i ==> inputs[j].rows * inputs[j].columns <= MAX_TOTAL_SLOTS
    {
      if inputs[i].rows * inputs[i].columns > MAX_TOTAL_SLOTS {
        return false;
      }
      i := i + 1;
    }
    ok := true;
  }

  function AvailableOn(slots: map<Uuid, FloorSlot>, floor: Uuid): set<Uuid> {
    set id | id in slots && slots[id].floor == floor && slots[id].status == Available
  }

  lemma NewFloorIsAvailable(t: Tables, lot: Uuid, input: FloorInput)
    requires GridInv(t)
    ensures AvailableOn(AddFloor(t, lot, input).slots, t.nextFloor)
      == SlotsOn(AddFloor(t, lot, input).slots, t.nextFloor)
  {
    NoSlotsYet(t);
  }

  /** The numbers that are not in the set, in order. */
  function Without(numbers: seq<string>, existing: set<string>): seq<string> {
    if numbers == [] then []
    else
      var most := Without(numbers[..|numbers| - 1], existing);
      if numbers[|numbers| - 1] in existing then most else most + [numbers[|numbers| - 1]]
  }

  lemma {:induction false} WithoutIsOutside(numbers: seq<string>, existing: set<string>, rows: int, columns: int)
    requires forall number :: number in existing <==> InGrid(number, rows, columns)
    ensures Without(numbers, existing) == Outside(numbers, rows, columns)
  {
    if numbers != [] {
      WithoutIsOutside(numbers[..|numbers| - 1], existing, rows, columns);
    }
  }

  /** The diff of the two sets of strings is the difference of the two rectangles. */
  lemma DiffIsNewCells(slots: map<Uuid, FloorSlot>, floor: Uuid, was: Floor, target: Floor, existing: set<string>)
    requires FillsGrid(slots, floor, was.rows, was.columns)
    requires existing == set id | id in slots && slots[id].floor == floor :: slots[id].slotNumber
    requires was.rows >= 1 && was.columns >= 1 && target.rows >= 1 && target.columns >= 1
    ensures var toAdd := Without(GridNumbers(target.rows, target.columns), existing);
      toAdd == NewCells(was, target) && (toAdd != [] <==> Grows(was, target))
  {
    forall number
      ensures number in existing <==> InGrid(number, was.rows, was.columns)
    {
      assert HasNumber(slots, floor, number) <==> InGrid(number, was.rows, was.columns);
    }
    var numbers := GridNumbers(target.rows, target.columns);
    WithoutIsOutside(numbers, existing, was.rows, was.columns);
    GridCells(target.rows, target.columns);
    NewCellsIffGrowing(was.rows, was.columns, target.rows, target.columns);
    var toAdd := NewCells(was, target);
    if toAdd != [] {
      assert toAdd[0] in toAdd;
    }
  }

  /** The new cells fit in beside the kept slots, so the insertion cannot fail. */
  lemma NewCellsFit(slots: map<Uuid, FloorSlot>, nextSlot: Uuid, lot: Uuid, floor: Uuid, was: Floor, target: Floor,
                    price: int)
    requires NumbersUnique(slots) && FillsGrid(slots, floor, was.rows, was.columns)
    requires target.rows >= 1 && target.columns >= 1 && forall id :: id in slots ==> id < nextSlot
    ensures var added := FloorSlots(lot, floor, price, NewCells(was, target));
      NumbersUnique(Insert(KeptSlots(slots, floor, target, None), nextSlot, added))
  {
    KeptNumbers(slots, floor, target, None);
    GridCells(target.rows, target.columns);
    OutsideDistinct(GridNumbers(target.rows, target.columns), was.rows, was.columns);
    InsertNumbers(KeptSlots(slots, floor, target, None), nextSlot, lot, floor, price, NewCells(was, target));
  }

  function RepriceAll(slots: map<Uuid, FloorSlot>, floor: Uuid, price: Option<int>): map<Uuid, FloorSlot> {
    map id | id in slots :: Repriced(slots[id], floor, price)
  }

  lemma RepriceKeepsNumbers(slots: map<Uuid, FloorSlot>, floor: Uuid, price: Option<int>)
    requires NumbersUnique(slots)
    ensures NumbersUnique(RepriceAll(slots, floor, price))
    ensures forall other, number ::
      HasNumber(RepriceAll(slots, floor, price), other, number) <==> HasNumber(slots, other, number)
  {
    var more := RepriceAll(slots, floor, price);
    forall other, number
      ensures HasNumber(more, other, number) <==> HasNumber(slots, other, number)
    {
      if HasNumber(more, other, number) {
        var id :| id in more && more[id].floor == other && more[id].slotNumber == number;
        assert slots[id].floor == other && slots[id].slotNumber == number;
      }
      if HasNumber(slots, other, number) {
        var id :| id in slots && slots[id].floor == other && slots[id].slotNumber == number;
        assert more[id].floor == other && more[id].slotNumber == number;
      }
    }
  }

  lemma RepriceThenKeep(slots: map<Uuid, FloorSlot>, floor: Uuid, target: Floor, price: Option<int>)
    ensures KeptSlots(RepriceAll(slots, floor, price), floor, target, None) == KeptSlots(slots, floor, target, price)
  {
  }

  lemma RemovalIsFallingOutside(slots: map<Uuid, FloorSlot>, booked: set<Uuid>, floor: Uuid, target: Floor,
                                toRemove: set<Uuid>)
    requires target.rows >= 1 && target.columns >= 1
    requires toRemove == set id | id in slots && slots[id].floor == floor
      && slots[id].slotNumber !in GridNumbers(target.rows, target.columns)
    ensures toRemove * booked != {} <==> BookedOutside(slots, booked, floor, target)
    ensures slots - toRemove == KeptSlots(slots, floor, target, None)
  {
    GridCells(target.rows, target.columns);
    forall id | id in slots
      ensures id in toRemove <==> FallsOutside(slots[id], floor, target)
    {
    }
    if BookedOutside(slots, booked, floor, target) {
      var id :| id in slots && id in booked && FallsOutside(slots[id], floor, target);
      assert id in toRemove * booked;
    }
    if id :| id in toRemove * booked {
      assert FallsOutside(slots[id], floor, target);
    }
  }

  lemma InsertNothing(slots: map<Uuid, FloorSlot>, nextSlot: Uuid)
    ensures Insert(slots, nextSlot, []) == slots
  {
  }

  lemma RepriceKeepsOutside(slots: map<Uuid, FloorSlot>, booked: set<Uuid>, floor: Uuid, target: Floor,
                            price: Option<int>)
    ensures BookedOutside(RepriceAll(slots, floor, price), booked, floor, target)
      == BookedOutside(slots, booked, floor, target)
  {
    var more := RepriceAll(slots, floor, price);
    forall id | id in slots
      ensures FallsOutside(more[id], floor, target) == FallsOutside(slots[id], floor, target)
    {
    }
  }

  lemma {:induction false} OutsideNothing(numbers: seq<string>, rows: int, columns: int)
    requires forall number :: number in numbers ==> InGrid(number, rows, columns)
    ensures Outside(numbers, rows, columns) == []
  {
    if numbers != [] {
      OutsideNothing(numbers[..|numbers| - 1], rows, columns);
      assert numbers[|numbers| - 1] in numbers;
    }
  }

  /** A floor that keeps its shape keeps all its slots and gets no new one. */
  lemma SameShape(slots: map<Uuid, FloorSlot>, nextSlot: Uuid, booked: set<Uuid>, lot: Uuid, floor: Uuid,
                  was: Floor, target: Floor, price: Option<int>)
    requires FillsGrid(slots, floor, was.rows, was.columns) && was.rows >= 1 && was.columns >= 1
    requires target.rows == was.rows && target.columns == was.columns
    ensures NewCells(was, target) == [] && !Grows(was, target)
    ensures !BookedOutside(slots, booked, floor, target)
    ensures KeptSlots(slots, floor, target, price) == RepriceAll(slots, floor, price)
    ensures var repriced := RepriceAll(slots, floor, price);
      Insert(repriced, nextSlot, FloorSlots(lot, floor, GetOr(price, 0), [])) == repriced
  {
    GridCells(target.rows, target.columns);
    OutsideNothing(GridNumbers(target.rows, target.columns), was.rows, was.columns);
    forall id | id in slots
      ensures !FallsOutside(slots[id], floor, target)
    {
      assert slots[id].floor == floor ==> HasNumber(slots, floor, slots[id].slotNumber);
    }
  }

  lemma EditApplied(t: Tables, lot: Uuid, floor: Uuid, edit: FloorEdit, target: Floor, refusal: Option<Error>,
                    more: Tables)
    requires GridInv(t) && edit.Valid() && lot in t.lots && floor in t.floors && t.floors[floor].lot == lot
    requires target == edit.Target(t.floors[floor]) && target.rows * target.columns <= MAX_TOTAL_SLOTS
    requires refusal == EditRefusal(t, lot, floor, edit, target)
    requires more == if refusal.Some? then t else EditedTables(t, lot, floor, edit, target)
    ensures UpdateFloorOutcome(t, lot, floor, edit) == (if refusal.Some? then Refused(refusal.value) else Accepted)
    ensures UpdateFloor(t, lot, floor, edit) == more && GridInv(more)
  {
    UpdateFloorKeeps(t, lot, floor, edit);
  }

  lemma FloorFacts(t: Tables, floor: Uuid)
    requires GridInv(t) && floor in t.floors
    ensures FloorOk(t.lots, t.floors[floor]) && FillsGrid(t.slots, floor, t.floors[floor].rows, t.floors[floor].columns)
    ensures NumbersUnique(t.slots) && t.booked <= t.slots.Keys && forall id :: id in t.slots ==> id < t.nextSlot
  {
  }

  lemma NextAddable(t: Tables, lot: Uuid, inputs: seq<FloorInput>, i: nat)
    requires GridInv(t) && Addable(t, lot, inputs) && i < |inputs|
    ensures var most := AddFloors(t, lot, inputs[..i]);
      && lot in most.lots && !NumberTaken(most.floors, None, lot, inputs[i].floorNumber)
      && AddFloors(t, lot, inputs[..i + 1]) == AddFloor(most, lot, inputs[i])
  {
    AddFloorsKeeps(t, lot, inputs[..i]);
    assert !NumberIn(inputs[..i], inputs[i].floorNumber);
    assert inputs[..i + 1][..i] == inputs[..i];
  }

  function TotalOr(totals: map<Uuid, int>, lot: Uuid): int {
    if lot in totals then totals[lot] else 0
  }

  ghost predicate TotalOver(floors: map<Uuid, Floor>, seen: set<Uuid>, totals: map<Uuid, int>, lot: Uuid) {
    var own := FloorsOf(floors, lot) * seen;
    (lot in totals <==> own != {}) && TotalOr(totals, lot) == SumOver(FloorSizes(floors), own)
  }

  /** The totals of the floors seen so far. */
  ghost predicate TotalsOver(floors: map<Uuid, Floor>, seen: set<Uuid>, totals: map<Uuid, int>) {
    forall lot :: TotalOver(floors, seen, totals, lot)
  }

  lemma TotalsNext(floors: map<Uuid, Floor>, seen: set<Uuid>, totals: map<Uuid, int>, id: Uuid)
    requires TotalsOver(floors, seen, totals) && id in floors && id !in seen
    ensures var f := floors[id];
      TotalsOver(floors, seen + {id}, totals[f.lot := TotalOr(totals, f.lot) + f.rows * f.columns])
  {
    var f := floors[id];
    var more := totals[f.lot := TotalOr(totals, f.lot) + f.rows * f.columns];
    forall lot
      ensures TotalOver(floors, seen + {id}, more, lot)
    {
      var own := FloorsOf(floors, lot) * seen;
      assert TotalOver(floors, seen, totals, lot);
      if lot == f.lot {
        assert FloorsOf(floors, lot) * (seen + {id}) == own + {id};
        SumOverRemove(FloorSizes(floors), own + {id}, id);
        assert own + {id} - {id} == own;
      } else {
        assert FloorsOf(floors, lot) * (seen + {id}) == own;
      }
    }
  }

  lemma TotalOfListedLot(t: Tables, lotIds: set<Uuid>, found: set<Uuid>, totals: map<Uuid, int>, lot: Uuid)
    requires GridInv(t) && TotalsOver(t.floors, found, totals)
    requires found == set id | id in t.floors && t.floors[id].lot in lotIds
    ensures lot in totals <==> lot in lotIds && FloorsOf(t.floors, lot) != {}
    ensures lot in totals ==> totals[lot] == |SlotsOfLot(t.slots, lot)|
  {
    assert TotalOver(t.floors, found, totals, lot);
    assert FloorsOf(t.floors, lot) * found == if lot in lotIds then FloorsOf(t.floors, lot) else {};
    LotTotalIsCount(t, lot);
  }

  /** The loop of `getTotalSlotsMap` over the rows found, in whatever order they come back. */
  method AddUpFloors(floors: map<Uuid, Floor>, found: set<Uuid>) returns (totals: map<Uuid, int>)
    requires found <= floors.Keys
    ensures TotalsOver(floors, found, totals)
  {
    totals := map[];
    var rest := found;
    while rest != {}
      invariant rest <= found
      invariant TotalsOver(floors, found - rest, totals)
      decreases rest
    {
      var id :| id in rest;
      var floor := floors[id];
      TotalsNext(floors, found - rest, totals, id);
      assert found - (rest - {id}) == found - rest + {id};
      totals := totals[floor.lot := TotalOr(totals, floor.lot) + floor.rows * floor.columns];
      rest := rest - {id};
    }
    assert found - rest == found;
  }

  class ParkingLotService {
    var lots: set<Uuid>
    var floors: map<Uuid, Floor>
    var slots: map<Uuid, FloorSlot>
    var booked: set<Uuid>
    var nextLot: Uuid
    var nextFloor: Uuid
    var nextSlot: Uuid

    ghost function Snapshot(): Tables
      reads this
    {
      Tables(lots, floors, slots, booked, nextLot, nextFloor, nextSlot)
    }

    ghost predicate Valid()
      reads this
    {
      GridInv(Snapshot())
    }

    constructor ()
      ensures Valid() && Snapshot() == Empty()
    {
      lots, floors, slots, booked := {}, map[], map[], {};
      nextLot, nextFloor, nextSlot := 0, 0, 0;
    }

    // ---------------------------------------------------------------- the table of slots

    /** `createMany`: all rows or, if the key (floor, slotNumber) would repeat, none. */
    method CreateMany(rows: seq<FloorSlot>) returns (ok: bool)
      modifies this
      ensures ok == NumbersUnique(Insert(old(slots), old(nextSlot), rows))
      ensures Snapshot() == if !ok then old(Snapshot()) else
        old(Snapshot()).(slots := Insert(old(slots), old(nextSlot), rows), nextSlot := old(nextSlot) + |rows|)
    {
      var more := Insert(slots, nextSlot, rows);
      ok := NumbersUnique(more);
      if ok {
        slots, nextSlot := more, nextSlot + |rows|;
      }
    }

    /**
     * A floor row and the rows of its slots: one pass of the loop of `create`, and the transaction of
     * `createFloor`.
     */
    method InsertFloor(lot: Uuid, input: FloorInput) returns (ok: bool)
      requires Valid() && input.Valid() && lot in lots && input.rows * input.columns <= MAX_TOTAL_SLOTS
      modifies this
      ensures Valid() && ok == !NumberTaken(old(floors), None, lot, input.floorNumber)
      ensures Snapshot() == if ok then AddFloor(old(Snapshot()), lot, input) else old(Snapshot())
    {
      if NumberTaken(floors, None, lot, input.floorNumber) {
        return false;
      }
      AddFloorKeeps(Snapshot(), lot, input);
      var floor := nextFloor;
      floors := floors[floor := Floor(lot, input.floorNumber, input.rows, input.columns)];
      nextFloor := nextFloor + 1;
      var grid := BuildSlotGrid(lot, floor, input.rows, input.columns, input.price);
      // The key (floor, slotNumber) never refuses: the generated numbers are distinct.
      ok := CreateMany(grid);
    }

    // ---------------------------------------------------------------- create, createFloor

    method Create(inputs: seq<FloorInput>, duplicate: bool) returns (outcome: Outcome)
      requires Valid()
      modifies this
      ensures Valid() && outcome == CreateOutcome(inputs, duplicate)
      ensures Snapshot() == ParkingLots.Create(old(Snapshot()), inputs, duplicate)
    {
      if !(1 <= |inputs| <= MAX_FLOORS) || (exists input :: input in inputs && !input.Valid()) {
        return Refused(BadRequest);
      }
      var unique := AssertUniqueFloorNumbers(inputs);
      if !unique {
        return Refused(BadRequest);
      }
      var within := AssertWithinSlotLimit(inputs);
      if !within {
        return Refused(BadRequest);
      }
      if duplicate {
        return Refused(Conflict);
      }
      forall i | 0 <= i < |inputs|
        ensures inputs[i].Valid()
      {
        assert inputs[i] in inputs;
      }
      NewLotKeeps(Snapshot());
      var lot := nextLot;
      lots, nextLot := lots + {lot}, nextLot + 1;
      InsertFloors(lot, inputs);
      outcome := Accepted;
    }

    /** The loop of `create` over the floors of a new lot. */
    method InsertFloors(lot: Uuid, inputs: seq<FloorInput>)
      requires Valid() && Addable(Snapshot(), lot, inputs)
      modifies this
      ensures Valid() && Snapshot() == AddFloors(old(Snapshot()), lot, inputs)
    {
      ghost var start := Snapshot();
      var i := 0;
      while i < |inputs|
        invariant 0 <= i <= |inputs|
        invariant Valid() && Snapshot() == AddFloors(start, lot, inputs[..i])
      {
        NextAddable(start, lot, inputs, i);
        var ok := InsertFloor(lot, inputs[i]);
        i := i + 1;
      }
      assert inputs[..i] == inputs;
    }

    method CreateFloor(lot: Uuid, input: FloorInput) returns (outcome: Outcome, totalSlots: int, availableSlots: int)
      requires Valid()
      modifies this
      ensures Valid() && outcome == CreateFloorOutcome(old(Snapshot()), lot, input)
      ensures Snapshot() == ParkingLots.CreateFloor(old(Snapshot()), lot, input)
      ensures outcome == Accepted ==>
        totalSlots == |SlotsOn(slots, old(nextFloor))| && availableSlots == |AvailableOn(slots, old(nextFloor))|
    {
      totalSlots, availableSlots := 0, 0;
      if !input.Valid() {
        return Refused(BadRequest), 0, 0;
      }
      if lot !in lots {
        return Refused(NotFound), 0, 0;
      }
      if input.rows * input.columns > MAX_TOTAL_SLOTS {
        return Refused(BadRequest), 0, 0;
      }
      var ok := InsertFloor(lot, input);
      if !ok {
        return Refused(Conflict), 0, 0;
      }
      NewFloorIsAvailable(old(Snapshot()), lot, input);
      TotalIsCount(Snapshot(), old(nextFloor));
      return Accepted, input.rows * input.columns, input.rows * input.columns;
    }

    // ---------------------------------------------------------------- updateFloor

    method UpdateFloor(lot: Uuid, floor: Uuid, edit: FloorEdit)
      returns (outcome: Outcome, totalSlots: int, availableSlots: int)
      requires Valid()
      modifies this
      ensures Valid() && outcome == UpdateFloorOutcome(old(Snapshot()), lot, floor, edit)
      ensures Snapshot() == ParkingLots.UpdateFloor(old(Snapshot()), lot, floor, edit)
      ensures outcome == Accepted ==>
        totalSlots == |SlotsOn(slots, floor)| && availableSlots == |AvailableOn(slots, floor)|
    {
      totalSlots, availableSlots := 0, 0;
      if !edit.Valid() {
        return Refused(BadRequest), 0, 0;
      }
      if lot !in lots || floor !in floors || floors[floor].lot != lot {
        return Refused(NotFound), 0, 0;
      }
      FloorFacts(Snapshot(), floor);
      var was := floors[floor];
      var newRows, newColumns := GetOr(edit.rows, was.rows), GetOr(edit.columns, was.columns);
      var isResizing := newRows != was.rows || newColumns != was.columns;
      if isResizing {
        if newRows * newColumns > MAX_TOTAL_SLOTS {
          return Refused(BadRequest), 0, 0;
        }
      }
      var target := Floor(lot, GetOr(edit.floorNumber, was.floorNumber), newRows, newColumns);
      var refusal := ApplyFloorEdit(lot, floor, edit, target, isResizing);
      EditApplied(old(Snapshot()), lot, floor, edit, edit.Target(was), refusal, Snapshot());
      if refusal.Some? {
        return Refused(refusal.value), 0, 0;
      }
      TotalIsCount(Snapshot(), floor);
      return Accepted, newRows * newColumns, |AvailableOn(slots, floor)|;
    }

    /** The transaction of `updateFloor`: whatever it has written before a refusal is rolled back. */
    method ApplyFloorEdit(lot: Uuid, floor: Uuid, edit: FloorEdit, target: Floor, isResizing: bool)
      returns (refusal: Option<Error>)
      requires NumbersUnique(slots) && booked <= slots.Keys && forall id :: id in slots ==> id < nextSlot
      requires floor in floors && FloorOk(lots, floors[floor]) && FloorOk(lots, target) && lot == target.lot
      requires FillsGrid(slots, floor, floors[floor].rows, floors[floor].columns)
      requires isResizing == (target.rows != floors[floor].rows || target.columns != floors[floor].columns)
      modifies this
      ensures refusal == EditRefusal(old(Snapshot()), lot, floor, edit, target)
      ensures Snapshot()
        == if refusal.Some? then old(Snapshot()) else EditedTables(old(Snapshot()), lot, floor, edit, target)
    {
      refusal := None;
      if NumberTaken(floors, Some(floor), lot, target.floorNumber) {
        return Some(Conflict);
      }
      var floorsBefore, slotsBefore := floors, slots;
      var was := floors[floor];
      floors := floors[floor := target];
      if edit.price.Some? {
        slots := RepriceAll(slots, floor, edit.price);
      }
      assert slots == RepriceAll(slotsBefore, floor, edit.price);
      RepriceKeepsNumbers(slotsBefore, floor, edit.price);
      RepriceThenKeep(slotsBefore, floor, target, edit.price);
      if isResizing {
        RepriceKeepsOutside(slotsBefore, booked, floor, target, edit.price);
        refusal := ResizeSlots(lot, floor, was, target, edit.price);
        if refusal.Some? {
          floors, slots := floorsBefore, slotsBefore;
        }
      } else {
        SameShape(slotsBefore, nextSlot, booked, lot, floor, was, target, edit.price);
      }
    }

    /** The slots of a resized floor: the rows without a number are removed, the numbers without a row added. */
    method ResizeSlots(lot: Uuid, floor: Uuid, was: Floor, target: Floor, price: Option<int>)
      returns (refusal: Option<Error>)
      requires was.rows >= 1 && was.columns >= 1 && target.rows >= 1 && target.columns >= 1
      requires NumbersUnique(slots) && FillsGrid(slots, floor, was.rows, was.columns)
      requires booked <= slots.Keys && forall id :: id in slots ==> id < nextSlot
      modifies this
      ensures refusal ==
        if Grows(was, target) && price.None? then Some(BadRequest)
        else if BookedOutside(old(slots), booked, floor, target) then Some(Conflict)
        else None
      ensures refusal.Some? ==> Snapshot() == old(Snapshot())
      ensures refusal.None? ==>
        var added := FloorSlots(lot, floor, GetOr(price, 0), NewCells(was, target));
        Snapshot() == old(Snapshot()).(
          slots := Insert(KeptSlots(old(slots), floor, target, None), old(nextSlot), added),
          nextSlot := old(nextSlot) + |added|)
    {
      var existingNumbers := set id | id in slots && slots[id].floor == floor :: slots[id].slotNumber;
      var targetNumbers := BuildSlotGridNumbers(target.rows, target.columns);
      var toRemove := set id | id in slots && slots[id].floor == floor && slots[id].slotNumber !in targetNumbers;
      var toAdd := Without(targetNumbers, existingNumbers);
      DiffIsNewCells(slots, floor, was, target, existingNumbers);
      RemovalIsFallingOutside(slots, booked, floor, target, toRemove);
      if toAdd != [] && price.None? {
        return Some(BadRequest);
      }
      // The foreign key of the reservations.
      if toRemove * booked != {} {
        return Some(Conflict);
      }
      NewCellsFit(slots, nextSlot, lot, floor, was, target, GetOr(price, 0));
      slots := slots - toRemove;
      InsertNothing(slots, nextSlot);
      if toAdd != [] {
        var ok := CreateMany(FloorSlots(lot, floor, price.value, toAdd));
      }
      refusal := None;
    }

    // ---------------------------------------------------------------- the totals of a list response

    /** `getTotalSlotsMap`: an entry for each listed lot that has a floor, and it is the lot's true slot count. */
    method GetTotalSlotsMap(lotIds: set<Uuid>) returns (totals: map<Uuid, int>)
      requires Valid()
      ensures forall lot :: lot in totals <==> lot in lotIds && FloorsOf(floors, lot) != {}
      ensures forall lot :: lot in totals ==> totals[lot] == |SlotsOfLot(slots, lot)|
    {
      var found := set id | id in floors && floors[id].lot in lotIds;
      totals := AddUpFloors(floors, found);
      forall lot
        ensures lot in totals <==> lot in lotIds && FloorsOf(floors, lot) != {}
        ensures lot in totals ==> totals[lot] == |SlotsOfLot(slots, lot)|
      {
        TotalOfListedLot(Snapshot(), lotIds, found, totals, lot);
      }
    }
  }
}
