/**
 * Floors and their slots (parking-lot.service.ts): what creating a lot, creating a floor and
 * resizing a floor do to the tables, stated on the cells of the grid.
 */
module ParkingLots {
  import opened Collections
  import opened Model
  import opened SlotGrid

  const MAX_ROWS := 200
  const MAX_COLUMNS := 500
  const MAX_TOTAL_SLOTS := 5000
  const MAX_FLOOR_NUMBER := 999
  const MAX_FLOORS := 50

  datatype Floor = Floor(lot: Uuid, floorNumber: int, rows: int, columns: int)
  datatype FloorSlot = FloorSlot(lot: Uuid, floor: Uuid, slotNumber: string, basePrice: int, status: SlotStatus)

  // `booked` are the slots that some reservation row names. Fresh identifiers are counted upwards.
  datatype Tables = Tables(
    lots: set<Uuid>, floors: map<Uuid, Floor>, slots: map<Uuid, FloorSlot>, booked: set<Uuid>,
    nextLot: Uuid, nextFloor: Uuid, nextSlot: Uuid)

  datatype FloorInput = FloorInput(floorNumber: int, rows: int, columns: int, price: int)
  {
    predicate Valid() {
      0 <= floorNumber <= MAX_FLOOR_NUMBER && 1 <= rows <= MAX_ROWS && 1 <= columns <= MAX_COLUMNS && price > 0
    }
  }

  datatype FloorEdit = FloorEdit(floorNumber: Option<int>, rows: Option<int>, columns: Option<int>, price: Option<int>)
  {
    predicate Valid() {
      && (floorNumber.Some? ==> 0 <= floorNumber.value <= MAX_FLOOR_NUMBER)
      && (rows.Some? ==> 1 <= rows.value <= MAX_ROWS)
      && (columns.Some? ==> 1 <= columns.value <= MAX_COLUMNS)
      && (price.Some? ==> price.value > 0)
    }

    /** The floor row after the edit: fields left out stay. */
    function Target(floor: Floor): Floor {
      Floor(floor.lot, GetOr(floorNumber, floor.floorNumber), GetOr(rows, floor.rows), GetOr(columns, floor.columns))
    }
  }

  function GetOr(option: Option<int>, default: int): int {
    if option.Some? then option.value else default
  }

  // ------------------------------------------------------------------ rows to insert

  function FloorSlots(lot: Uuid, floor: Uuid, price: int, numbers: seq<string>): seq<FloorSlot> {
    seq(|numbers|, i requires 0 <= i < |numbers| => FloorSlot(lot, floor, numbers[i], price, Available))
  }

  /** `createMany`: the new rows get the next free identifiers. */
  function Insert(slots: map<Uuid, FloorSlot>, nextId: Uuid, rows: seq<FloorSlot>): map<Uuid, FloorSlot> {
    slots + map id: Uuid | nextId <= id < nextId + |rows| :: RowFor(rows, nextId, id)
  }

  function RowFor(rows: seq<FloorSlot>, nextId: Uuid, id: Uuid): FloorSlot
    requires nextId <= id < nextId + |rows|
  {
    rows[id - nextId]
  }

  // ------------------------------------------------------------------ create, createFloor

  /** The unique key (lot, floorNumber), with the floor itself left out. */
  predicate NumberTaken(floors: map<Uuid, Floor>, self: Option<Uuid>, lot: Uuid, floorNumber: int) {
    exists id :: id in floors && self != Some(id) && floors[id].lot == lot && floors[id].floorNumber == floorNumber
  }

  function CreateFloorOutcome(t: Tables, lot: Uuid, input: FloorInput): Outcome {
    if !input.Valid() then Refused(BadRequest)
    else if lot !in t.lots then Refused(NotFound)
    else if input.rows * input.columns > MAX_TOTAL_SLOTS then Refused(BadRequest)
    else if NumberTaken(t.floors, None, lot, input.floorNumber) then Refused(Conflict)
    else Accepted
  }

  /** The slot rows of a new floor: its whole grid. */
  function GridSlots(lot: Uuid, floor: Uuid, input: FloorInput): seq<FloorSlot> {
    FloorSlots(lot, floor, input.price, GridNumbers(input.rows, input.columns))
  }

  function AddFloor(t: Tables, lot: Uuid, input: FloorInput): Tables {
    var slots := GridSlots(lot, t.nextFloor, input);
    t.(floors := t.floors[t.nextFloor := Floor(lot, input.floorNumber, input.rows, input.columns)],
       nextFloor := t.nextFloor + 1,
       slots := Insert(t.slots, t.nextSlot, slots),
       nextSlot := t.nextSlot + |slots|)
  }

  function CreateFloor(t: Tables, lot: Uuid, input: FloorInput): Tables {
    if CreateFloorOutcome(t, lot, input) == Accepted then AddFloor(t, lot, input) else t
  }

  function AddFloors(t: Tables, lot: Uuid, inputs: seq<FloorInput>): Tables {
    if inputs == [] then t else AddFloor(AddFloors(t, lot, inputs[..|inputs| - 1]), lot, inputs[|inputs| - 1])
  }

  predicate DistinctFloorNumbers(inputs: seq<FloorInput>) {
    forall i, j :: 0 <= i < j < |inputs| ==> inputs[i].floorNumber != inputs[j].floorNumber
  }

  predicate WithinSlotLimit(inputs: seq<FloorInput>) {
    forall i :: 0 <= i < |inputs| ==> inputs[i].rows * inputs[i].columns <= MAX_TOTAL_SLOTS
  }

  /** `duplicate`: another lot has the name or the place. */
  function CreateOutcome(inputs: seq<FloorInput>, duplicate: bool): Outcome {
    if !(1 <= |inputs| <= MAX_FLOORS) || (exists input :: input in inputs && !input.Valid()) then Refused(BadRequest)
    else if !DistinctFloorNumbers(inputs) then Refused(BadRequest)
    else if !WithinSlotLimit(inputs) then Refused(BadRequest)
    else if duplicate then Refused(Conflict)
    else Accepted
  }

  function Create(t: Tables, inputs: seq<FloorInput>, duplicate: bool): Tables {
    if CreateOutcome(inputs, duplicate) != Accepted then t
    else AddFloors(t.(lots := t.lots + {t.nextLot}, nextLot := t.nextLot + 1), t.nextLot, inputs)
  }

  // ------------------------------------------------------------------ updateFloor

  predicate Grows(floor: Floor, target: Floor) {
    target.rows > floor.rows || target.columns > floor.columns
  }

  /** A slot of the floor that has no cell in the new grid. */
  predicate FallsOutside(slot: FloorSlot, floor: Uuid, target: Floor) {
    slot.floor == floor && !InGrid(slot.slotNumber, target.rows, target.columns)
  }

  /** Some booked slot of the floor has no cell in the new grid. */
  predicate BookedOutside(slots: map<Uuid, FloorSlot>, booked: set<Uuid>, floor: Uuid, target: Floor) {
    exists id :: id in slots && id in booked && FallsOutside(slots[id], floor, target)
  }

  /** Why an edit whose row checks have passed is refused after all. */
  function EditRefusal(t: Tables, lot: Uuid, floor: Uuid, edit: FloorEdit, target: Floor): Option<Error>
    requires floor in t.floors
  {
    if NumberTaken(t.floors, Some(floor), lot, target.floorNumber) then Some(Conflict)
    else if Grows(t.floors[floor], target) && edit.price.None? then Some(BadRequest)
    else if BookedOutside(t.slots, t.booked, floor, target) then Some(Conflict)
    else None
  }

  function UpdateFloorOutcome(t: Tables, lot: Uuid, floor: Uuid, edit: FloorEdit): Outcome {
    if !edit.Valid() then Refused(BadRequest)
    else if lot !in t.lots || floor !in t.floors || t.floors[floor].lot != lot then Refused(NotFound)
    else
      var target := edit.Target(t.floors[floor]);
      if target.rows * target.columns > MAX_TOTAL_SLOTS then Refused(BadRequest)
      else
        var refusal := EditRefusal(t, lot, floor, edit, target);
        if refusal.Some? then Refused(refusal.value) else Accepted
  }

  function Repriced(slot: FloorSlot, floor: Uuid, price: Option<int>): FloorSlot {
    if slot.floor == floor && price.Some? then slot.(basePrice := price.value) else slot
  }

  /** The slots that stay, at the new price if there is one. */
  function KeptSlots(slots: map<Uuid, FloorSlot>, floor: Uuid, target: Floor, price: Option<int>): map<Uuid,
                     FloorSlot> {
    map id | id in slots && !FallsOutside(slots[id], floor, target) :: Repriced(slots[id], floor, price)
  }

  /** The numbers that are not cells of the given grid, in order. */
  function Outside(numbers: seq<string>, rows: int, columns: int): (outside: seq<string>)
    ensures forall number :: number in outside <==> number in numbers && !InGrid(number, rows, columns)
  {
    if numbers == [] then []
    else
      var most := Outside(numbers[..|numbers| - 1], rows, columns);
      var last := numbers[|numbers| - 1];
      if InGrid(last, rows, columns) then most else most + [last]
  }

  function NewCells(floor: Floor, target: Floor): seq<string> {
    Outside(GridNumbers(target.rows, target.columns), floor.rows, floor.columns)
  }

  /** The writes of an edit that is not refused. */
  function EditedTables(t: Tables, lot: Uuid, floor: Uuid, edit: FloorEdit, target: Floor): Tables
    requires floor in t.floors
  {
    var added := FloorSlots(lot, floor, GetOr(edit.price, 0), NewCells(t.floors[floor], target));
    t.(floors := t.floors[floor := target],
       slots := Insert(KeptSlots(t.slots, floor, target, edit.price), t.nextSlot, added),
       nextSlot := t.nextSlot + |added|)
  }

  function UpdateFloor(t: Tables, lot: Uuid, floor: Uuid, edit: FloorEdit): Tables {
    if UpdateFloorOutcome(t, lot, floor, edit) != Accepted then t
    else EditedTables(t, lot, floor, edit, edit.Target(t.floors[floor]))
  }

  // ------------------------------------------------------------------ the invariant

  ghost predicate HasNumber(slots: map<Uuid, FloorSlot>, floor: Uuid, number: string) {
    exists id :: id in slots && slots[id].floor == floor && slots[id].slotNumber == number
  }

  predicate NumbersUnique(slots: map<Uuid, FloorSlot>) {
    forall a, b :: a in slots && b in slots && a != b && slots[a].floor == slots[b].floor ==>
      slots[a].slotNumber != slots[b].slotNumber
  }

  /** The numbers on the floor are exactly the cells of the grid. */
  ghost predicate FillsGrid(slots: map<Uuid, FloorSlot>, floor: Uuid, rows: int, columns: int) {
    forall number :: HasNumber(slots, floor, number) <==> InGrid(number, rows, columns)
  }

  predicate FloorOk(lots: set<Uuid>, floor: Floor) {
    floor.lot in lots && 1 <= floor.rows <= MAX_ROWS && 1 <= floor.columns <= MAX_COLUMNS
    && floor.rows * floor.columns <= MAX_TOTAL_SLOTS
  }

  predicate OnItsFloor(floors: map<Uuid, Floor>, slot: FloorSlot) {
    slot.floor in floors && slot.lot == floors[slot.floor].lot
  }

  predicate FloorNumbersUnique(floors: map<Uuid, Floor>) {
    forall a, b :: a in floors && b in floors && a != b && floors[a].lot == floors[b].lot ==>
      floors[a].floorNumber != floors[b].floorNumber
  }

  predicate IdsTaken(t: Tables) {
    && (forall id :: id in t.lots ==> id < t.nextLot)
    && (forall id :: id in t.floors ==> id < t.nextFloor)
    && (forall id :: id in t.slots ==> id < t.nextSlot)
  }

  ghost predicate GridInv(t: Tables) {
    && IdsTaken(t)
    && (forall id :: id in t.floors ==> FloorOk(t.lots, t.floors[id]))
    && FloorNumbersUnique(t.floors)
    && (forall id :: id in t.slots ==> OnItsFloor(t.floors, t.slots[id]))
    && NumbersUnique(t.slots)
    && (forall id :: id in t.floors ==> FillsGrid(t.slots, id, t.floors[id].rows, t.floors[id].columns))
    && t.booked <= t.slots.Keys
  }

  // ------------------------------------------------------------------ inserting cells

  /** Distinct numbers that a floor does not have yet can be inserted, and join its numbers. */
  lemma InsertNumbers(slots: map<Uuid, FloorSlot>, nextId: Uuid, lot: Uuid, floor: Uuid, price: int,
                      numbers: seq<string>)
    requires NumbersUnique(slots) && (forall id :: id in slots ==> id < nextId)
    requires Distinct(numbers) && (forall number :: number in numbers ==> !HasNumber(slots, floor, number))
    ensures var more := Insert(slots, nextId, FloorSlots(lot, floor, price, numbers));
      && NumbersUnique(more)
      && (forall number :: HasNumber(more, floor, number) <==> HasNumber(slots, floor, number) || number in numbers)
      && (forall other, number :: other != floor ==>
        (HasNumber(more, other, number) <==> HasNumber(slots, other, number)))
  {
    var rows := FloorSlots(lot, floor, price, numbers);
    var more := Insert(slots, nextId, rows);
    forall a, b | a in more && b in more && a != b && more[a].floor == more[b].floor
      ensures more[a].slotNumber != more[b].slotNumber
    {
      if a >= nextId && b < nextId {
        assert numbers[a - nextId] in numbers;
      } else if a < nextId && b >= nextId {
        assert numbers[b - nextId] in numbers;
      }
    }
    forall number
      ensures HasNumber(more, floor, number) <==> HasNumber(slots, floor, number) || number in numbers
    {
      InsertedNumber(slots, nextId, rows, floor, number);
      if number in numbers {
        var i :| 0 <= i < |numbers| && numbers[i] == number;
        assert rows[i].slotNumber == number && rows[i].floor == floor;
      }
    }
    forall other, number | other != floor
      ensures HasNumber(more, other, number) <==> HasNumber(slots, other, number)
    {
      InsertedNumber(slots, nextId, rows, other, number);
    }
  }

  lemma InsertedNumber(slots: map<Uuid, FloorSlot>, nextId: Uuid, rows: seq<FloorSlot>, floor: Uuid, number: string)
    requires forall id :: id in slots ==> id < nextId
    ensures HasNumber(Insert(slots, nextId, rows), floor, number)
       <==> HasNumber(slots, floor, number)
            || exists i :: 0 <= i < |rows| && rows[i].floor == floor && rows[i].slotNumber == number
  {
    var more := Insert(slots, nextId, rows);
    if HasNumber(more, floor, number) {
      var id :| id in more && more[id].floor == floor && more[id].slotNumber == number;
      if id >= nextId {
        assert rows[id - nextId] == more[id];
      }
    }
    if HasNumber(slots, floor, number) {
      var id :| id in slots && slots[id].floor == floor && slots[id].slotNumber == number;
      assert more[id] == slots[id];
    }
    if i :| 0 <= i < |rows| && rows[i].floor == floor && rows[i].slotNumber == number {
      assert more[nextId + i] == rows[i];
    }
  }

  // ------------------------------------------------------------------ every operation keeps the invariant

  lemma NoSlotsYet(t: Tables)
    requires GridInv(t)
    ensures forall number :: !HasNumber(t.slots, t.nextFloor, number)
  {
    forall id | id in t.slots
      ensures t.slots[id].floor != t.nextFloor
    {
      assert OnItsFloor(t.floors, t.slots[id]);
    }
  }

  lemma NewGrid(slots: map<Uuid, FloorSlot>, nextId: Uuid, lot: Uuid, floor: Uuid, input: FloorInput)
    requires NumbersUnique(slots) && (forall id :: id in slots ==> id < nextId) && input.Valid()
    requires forall number :: !HasNumber(slots, floor, number)
    ensures var more := Insert(slots, nextId, GridSlots(lot, floor, input));
      && NumbersUnique(more) && FillsGrid(more, floor, input.rows, input.columns)
      && (forall other, number :: other != floor ==>
        (HasNumber(more, other, number) <==> HasNumber(slots, other, number)))
  {
    GridCells(input.rows, input.columns);
    InsertNumbers(slots, nextId, lot, floor, input.price, GridNumbers(input.rows, input.columns));
  }

  lemma AddFloorRows(t: Tables, lot: Uuid, input: FloorInput)
    requires GridInv(t) && input.Valid() && lot in t.lots && input.rows * input.columns <= MAX_TOTAL_SLOTS
    requires !NumberTaken(t.floors, None, lot, input.floorNumber)
    ensures var more := AddFloor(t, lot, input);
      && IdsTaken(more) && FloorNumbersUnique(more.floors) && more.booked <= more.slots.Keys
      && (forall id :: id in more.floors ==> FloorOk(more.lots, more.floors[id]))
      && (forall id :: id in more.slots ==> OnItsFloor(more.floors, more.slots[id]))
  {
    var more := AddFloor(t, lot, input);
    forall id | id in more.floors
      ensures FloorOk(more.lots, more.floors[id])
    {
      assert id != t.nextFloor ==> FloorOk(t.lots, t.floors[id]);
    }
    forall id | id in more.slots
      ensures OnItsFloor(more.floors, more.slots[id])
    {
      assert id < t.nextSlot ==> id in t.slots && OnItsFloor(t.floors, t.slots[id]);
    }
  }

  lemma AddFloorKeeps(t: Tables, lot: Uuid, input: FloorInput)
    requires GridInv(t) && input.Valid() && lot in t.lots && input.rows * input.columns <= MAX_TOTAL_SLOTS
    requires !NumberTaken(t.floors, None, lot, input.floorNumber)
    ensures GridInv(AddFloor(t, lot, input))
  {
    var more := AddFloor(t, lot, input);
    NoSlotsYet(t);
    NewGrid(t.slots, t.nextSlot, lot, t.nextFloor, input);
    AddFloorRows(t, lot, input);
    forall id | id in more.floors
      ensures FillsGrid(more.slots, id, more.floors[id].rows, more.floors[id].columns)
    {
      if id != t.nextFloor {
        assert FillsGrid(t.slots, id, t.floors[id].rows, t.floors[id].columns);
      }
    }
  }

  predicate NumberIn(inputs: seq<FloorInput>, n: int) {
    exists i :: 0 <= i < |inputs| && inputs[i].floorNumber == n
  }

  /** What a list of floors needs to be added one by one. */
  predicate Addable(t: Tables, lot: Uuid, inputs: seq<FloorInput>) {
    lot in t.lots && DistinctFloorNumbers(inputs) && WithinSlotLimit(inputs)
    && forall i :: 0 <= i < |inputs| ==> inputs[i].Valid() && !NumberTaken(t.floors, None, lot, inputs[i].floorNumber)
  }

  lemma {:induction false} AddFloorsKeeps(t: Tables, lot: Uuid, inputs: seq<FloorInput>)
    requires GridInv(t) && Addable(t, lot, inputs)
    ensures GridInv(AddFloors(t, lot, inputs))
    ensures AddFloors(t, lot, inputs).lots == t.lots
    ensures forall n :: NumberTaken(AddFloors(t, lot, inputs).floors, None, lot, n) <==>
      NumberTaken(t.floors, None, lot, n) || NumberIn(inputs, n)
    decreases |inputs|
  {
    if inputs != [] {
      var init, last := inputs[..|inputs| - 1], inputs[|inputs| - 1];
      var most := AddFloors(t, lot, init);
      AddFloorsKeeps(t, lot, init);
      assert inputs == init + [last];
      assert !NumberIn(init, last.floorNumber);
      AddFloorKeeps(most, lot, last);
      OneMoreNumber(t.floors, most.floors, most.nextFloor,
                    Floor(lot, last.floorNumber, last.rows, last.columns), init, last);
    }
  }

  /** If the numbers taken are those of before and of `init`, one more floor adds its own. */
  lemma OneMoreNumber(before: map<Uuid, Floor>, floors: map<Uuid, Floor>, id: Uuid, floor: Floor,
                      init: seq<FloorInput>, last: FloorInput)
    requires id !in floors && floor.floorNumber == last.floorNumber
    requires forall n ::
      NumberTaken(floors, None, floor.lot, n) <==> NumberTaken(before, None, floor.lot, n) || NumberIn(init, n)
    ensures forall n :: NumberTaken(floors[id := floor], None, floor.lot, n) <==>
      NumberTaken(before, None, floor.lot, n) || NumberIn(init + [last], n)
  {
    forall n
      ensures NumberTaken(floors[id := floor], None, floor.lot, n) <==>
        NumberTaken(before, None, floor.lot, n) || NumberIn(init + [last], n)
    {
      NumberTakenByOneMore(floors, id, floor, n);
      NumberInSnoc(init, last, n);
    }
  }

  lemma NumberInSnoc(init: seq<FloorInput>, last: FloorInput, n: int)
    ensures NumberIn(init + [last], n) <==> NumberIn(init, n) || last.floorNumber == n
  {
    var all := init + [last];
    if i :| 0 <= i < |init| && init[i].floorNumber == n {
      assert all[i].floorNumber == n;
    }
    assert all[|init|] == last;
  }

  lemma NumberTakenByOneMore(floors: map<Uuid, Floor>, id: Uuid, floor: Floor, n: int)
    requires id !in floors
    ensures NumberTaken(floors[id := floor], None, floor.lot, n) <==>
      NumberTaken(floors, None, floor.lot, n) || floor.floorNumber == n
  {
    var more := floors[id := floor];
    if NumberTaken(floors, None, floor.lot, n) {
      var x :| x in floors && floors[x].lot == floor.lot && floors[x].floorNumber == n;
      assert more[x] == floors[x];
    }
    assert more[id] == floor;
  }

  lemma NewLotKeeps(t: Tables)
    requires GridInv(t)
    ensures GridInv(t.(lots := t.lots + {t.nextLot}, nextLot := t.nextLot + 1))
    ensures forall n :: !NumberTaken(t.floors, None, t.nextLot, n)
  {
    var more := t.(lots := t.lots + {t.nextLot}, nextLot := t.nextLot + 1);
    forall id | id in t.floors
      ensures FloorOk(more.lots, t.floors[id]) && t.floors[id].lot != t.nextLot
    {
      assert FloorOk(t.lots, t.floors[id]);
    }
  }

  lemma CreateKeeps(t: Tables, inputs: seq<FloorInput>, duplicate: bool)
    requires GridInv(t)
    ensures GridInv(Create(t, inputs, duplicate))
  {
    if CreateOutcome(inputs, duplicate) == Accepted {
      NewLotKeeps(t);
      forall i | 0 <= i < |inputs|
        ensures inputs[i].Valid()
      {
        assert inputs[i] in inputs;
      }
      AddFloorsKeeps(t.(lots := t.lots + {t.nextLot}, nextLot := t.nextLot + 1), t.nextLot, inputs);
    }
  }

  lemma CreateFloorKeeps(t: Tables, lot: Uuid, input: FloorInput)
    requires GridInv(t)
    ensures GridInv(CreateFloor(t, lot, input))
  {
    if CreateFloorOutcome(t, lot, input) == Accepted {
      AddFloorKeeps(t, lot, input);
    }
  }

  lemma KeptNumbers(slots: map<Uuid, FloorSlot>, floor: Uuid, target: Floor, price: Option<int>)
    requires NumbersUnique(slots)
    ensures var kept := KeptSlots(slots, floor, target, price);
      && NumbersUnique(kept)
      && (forall number :: HasNumber(kept, floor, number) <==>
            HasNumber(slots, floor, number) && InGrid(number, target.rows, target.columns))
      && (forall other, number :: other != floor ==>
        (HasNumber(kept, other, number) <==> HasNumber(slots, other, number)))
  {
    var kept := KeptSlots(slots, floor, target, price);
    forall other, number
      ensures HasNumber(kept, other, number) <==>
        HasNumber(slots, other, number) && (other == floor ==> InGrid(number, target.rows, target.columns))
    {
      if HasNumber(kept, other, number) {
        var id :| id in kept && kept[id].floor == other && kept[id].slotNumber == number;
        assert slots[id].slotNumber == number && slots[id].floor == other;
      }
      if HasNumber(slots, other, number) && (other == floor ==> InGrid(number, target.rows, target.columns)) {
        var id :| id in slots && slots[id].floor == other && slots[id].slotNumber == number;
        assert id in kept && kept[id].slotNumber == number && kept[id].floor == other;
      }
    }
  }

  lemma {:induction false} OutsideDistinct(numbers: seq<string>, rows: int, columns: int)
    requires Distinct(numbers)
    ensures Distinct(Outside(numbers, rows, columns))
  {
    if numbers != [] {
      OutsideDistinct(numbers[..|numbers| - 1], rows, columns);
      assert numbers[|numbers| - 1] !in numbers[..|numbers| - 1];
    }
  }

  lemma UpdateFloorSlots(t: Tables, lot: Uuid, floor: Uuid, edit: FloorEdit)
    requires GridInv(t) && UpdateFloorOutcome(t, lot, floor, edit) == Accepted
    ensures var more := UpdateFloor(t, lot, floor, edit);
      && NumbersUnique(more.slots)
      && FillsGrid(more.slots, floor, more.floors[floor].rows, more.floors[floor].columns)
      && (forall other, number :: other != floor ==>
        (HasNumber(more.slots, other, number) <==> HasNumber(t.slots, other, number)))
  {
    var was, target := t.floors[floor], edit.Target(t.floors[floor]);
    var kept := KeptSlots(t.slots, floor, target, edit.price);
    var numbers := GridNumbers(target.rows, target.columns);
    var cells := NewCells(was, target);
    assert FloorOk(t.lots, was) && FillsGrid(t.slots, floor, was.rows, was.columns);
    KeptNumbers(t.slots, floor, target, edit.price);
    GridCells(target.rows, target.columns);
    OutsideDistinct(numbers, was.rows, was.columns);
    InsertNumbers(kept, t.nextSlot, lot, floor, GetOr(edit.price, 0), cells);
  }

  lemma UpdateFloorKeeps(t: Tables, lot: Uuid, floor: Uuid, edit: FloorEdit)
    requires GridInv(t)
    ensures GridInv(UpdateFloor(t, lot, floor, edit))
  {
    if UpdateFloorOutcome(t, lot, floor, edit) == Accepted {
      var more := UpdateFloor(t, lot, floor, edit);
      UpdateFloorSlots(t, lot, floor, edit);
      forall id | id in more.floors
        ensures FillsGrid(more.slots, id, more.floors[id].rows, more.floors[id].columns)
      {
        if id != floor {
          assert FillsGrid(t.slots, id, t.floors[id].rows, t.floors[id].columns);
        }
      }
      UpdateFloorRows(t, lot, floor, edit);
    }
  }

  lemma UpdateFloorRows(t: Tables, lot: Uuid, floor: Uuid, edit: FloorEdit)
    requires GridInv(t) && UpdateFloorOutcome(t, lot, floor, edit) == Accepted
    ensures var more := UpdateFloor(t, lot, floor, edit);
      && IdsTaken(more) && FloorNumbersUnique(more.floors) && more.booked <= more.slots.Keys
      && (forall id :: id in more.floors ==> FloorOk(more.lots, more.floors[id]))
      && (forall id :: id in more.slots ==> OnItsFloor(more.floors, more.slots[id]))
  {
    var was, target := t.floors[floor], edit.Target(t.floors[floor]);
    var more := UpdateFloor(t, lot, floor, edit);
    assert FloorOk(t.lots, was);
    TargetFits(t.floors, floor, target);
    KeptRows(t.floors, t.slots, t.nextSlot, t.booked, floor, target, edit.price,
             FloorSlots(lot, floor, GetOr(edit.price, 0), NewCells(was, target)));
  }

  lemma KeptRows(floors: map<Uuid, Floor>, slots: map<Uuid, FloorSlot>, nextSlot: Uuid, booked: set<Uuid>,
                 floor: Uuid, target: Floor, price: Option<int>, added: seq<FloorSlot>)
    requires floor in floors && target.lot == floors[floor].lot
    requires booked <= slots.Keys && !BookedOutside(slots, booked, floor, target)
    requires forall id :: id in slots ==> id < nextSlot && OnItsFloor(floors, slots[id])
    requires forall k :: 0 <= k < |added| ==> added[k].floor == floor && added[k].lot == target.lot
    ensures var more := Insert(KeptSlots(slots, floor, target, price), nextSlot, added);
      && booked <= more.Keys
      && (forall id :: id in more ==> id < nextSlot + |added| && OnItsFloor(floors[floor := target], more[id]))
  {
    var more := Insert(KeptSlots(slots, floor, target, price), nextSlot, added);
    forall id | id in booked
      ensures id in more
    {
      assert id in slots && !FallsOutside(slots[id], floor, target);
    }
    forall id | id in more
      ensures id < nextSlot + |added| && OnItsFloor(floors[floor := target], more[id])
    {
      assert id < nextSlot ==> id in slots && OnItsFloor(floors, slots[id]);
    }
  }

  lemma TargetFits(floors: map<Uuid, Floor>, floor: Uuid, target: Floor)
    requires FloorNumbersUnique(floors) && floor in floors
    requires !NumberTaken(floors, Some(floor), target.lot, target.floorNumber)
    ensures FloorNumbersUnique(floors[floor := target])
  {
  }
}
