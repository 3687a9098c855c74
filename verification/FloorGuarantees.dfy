/** What holds of lots, floors and slots after any sequence of edits. */
module FloorGuarantees {
  import opened Collections
  import opened Model
  import opened SlotGrid
  import opened ParkingLots

  // ------------------------------------------------------------------ the reported total is the true slot count

  function SlotsOn(slots: map<Uuid, FloorSlot>, floor: Uuid): set<Uuid> {
    set id | id in slots && slots[id].floor == floor
  }

  predicate Numbered(slots: map<Uuid, FloorSlot>, ids: set<Uuid>, number: string)
    requires ids <= slots.Keys
  {
    exists id :: id in ids && slots[id].slotNumber == number
  }

  /** As many rows as numbers, when every number has one row and no row has a number of its own. */
  lemma {:induction false} CountByNumbers(slots: map<Uuid, FloorSlot>, ids: set<Uuid>, numbers: seq<string>)
    requires ids <= slots.Keys && Distinct(numbers)
    requires forall a, b :: a in ids && b in ids && a != b ==> slots[a].slotNumber != slots[b].slotNumber
    requires forall id :: id in ids ==> slots[id].slotNumber in numbers
    requires forall i :: 0 <= i < |numbers| ==> Numbered(slots, ids, numbers[i])
    ensures |ids| == |numbers|
    decreases |numbers|
  {
    if numbers == [] {
      assert ids == {};
    } else {
      var init, last := numbers[..|numbers| - 1], numbers[|numbers| - 1];
      var id :| id in ids && slots[id].slotNumber == last;
      forall x | x in ids - {id}
        ensures slots[x].slotNumber in init
      {
        assert slots[x].slotNumber in numbers && slots[x].slotNumber != last;
      }
      forall i | 0 <= i < |init|
        ensures Numbered(slots, ids - {id}, init[i])
      {
        assert Numbered(slots, ids, numbers[i]);
        var x :| x in ids && slots[x].slotNumber == numbers[i];
        assert x in ids - {id};
      }
      CountByNumbers(slots, ids - {id}, init);
    }
  }

  /** `rows * columns`, which every response reports without counting, is the number of slot rows of the floor. */
  lemma TotalIsCount(t: Tables, floor: Uuid)
    requires GridInv(t) && floor in t.floors
    ensures |SlotsOn(t.slots, floor)| == t.floors[floor].rows * t.floors[floor].columns <= MAX_TOTAL_SLOTS
  {
    var f := t.floors[floor];
    var numbers := GridNumbers(f.rows, f.columns);
    assert FloorOk(t.lots, f) && FillsGrid(t.slots, floor, f.rows, f.columns);
    GridCells(f.rows, f.columns);
    forall id | id in SlotsOn(t.slots, floor)
      ensures t.slots[id].slotNumber in numbers
    {
      assert HasNumber(t.slots, floor, t.slots[id].slotNumber);
    }
    forall i | 0 <= i < |numbers|
      ensures Numbered(t.slots, SlotsOn(t.slots, floor), numbers[i])
    {
      assert InGrid(numbers[i], f.rows, f.columns) && HasNumber(t.slots, floor, numbers[i]);
      var id :| id in t.slots && t.slots[id].floor == floor && t.slots[id].slotNumber == numbers[i];
      assert id in SlotsOn(t.slots, floor);
    }
    CountByNumbers(t.slots, SlotsOn(t.slots, floor), numbers);
  }

  function FloorSizes(floors: map<Uuid, Floor>): map<Uuid, int> {
    map id | id in floors :: floors[id].rows * floors[id].columns
  }

  function FloorsOf(floors: map<Uuid, Floor>, lot: Uuid): set<Uuid> {
    set id | id in floors && floors[id].lot == lot
  }

  function SlotsOnAny(slots: map<Uuid, FloorSlot>, floors: set<Uuid>): set<Uuid> {
    set id | id in slots && slots[id].floor in floors
  }

  lemma OneFloorMore(slots: map<Uuid, FloorSlot>, floors: set<Uuid>, floor: Uuid)
    requires floor in floors
    ensures |SlotsOnAny(slots, floors)| == |SlotsOnAny(slots, floors - {floor})| + |SlotsOn(slots, floor)|
  {
    assert SlotsOnAny(slots, floors) == SlotsOnAny(slots, floors - {floor}) + SlotsOn(slots, floor);
  }

  lemma {:induction false} TotalOverFloors(t: Tables, floors: set<Uuid>)
    requires GridInv(t) && floors <= t.floors.Keys
    ensures |SlotsOnAny(t.slots, floors)| == SumOver(FloorSizes(t.floors), floors)
    decreases floors
  {
    if floors == {} {
      assert SlotsOnAny(t.slots, floors) == {};
    } else {
      var floor :| floor in floors;
      SumOverRemove(FloorSizes(t.floors), floors, floor);
      TotalOverFloors(t, floors - {floor});
      TotalIsCount(t, floor);
      OneFloorMore(t.slots, floors, floor);
    }
  }

  function SlotsOfLot(slots: map<Uuid, FloorSlot>, lot: Uuid): set<Uuid> {
    set id | id in slots && slots[id].lot == lot
  }

  ghost function LotTotal(t: Tables, lot: Uuid): int {
    SumOver(FloorSizes(t.floors), FloorsOf(t.floors, lot))
  }

  /** The total of a lot, summed over its floors, is the number of slot rows that carry the lot's identifier. */
  lemma LotTotalIsCount(t: Tables, lot: Uuid)
    requires GridInv(t)
    ensures LotTotal(t, lot) == |SlotsOfLot(t.slots, lot)|
  {
    TotalOverFloors(t, FloorsOf(t.floors, lot));
    forall id | id in t.slots
      ensures t.slots[id].lot == lot <==> t.slots[id].floor in FloorsOf(t.floors, lot)
    {
      assert OnItsFloor(t.floors, t.slots[id]);
    }
    assert SlotsOnAny(t.slots, FloorsOf(t.floors, lot)) == SlotsOfLot(t.slots, lot);
  }

  // ------------------------------------------------------------------ what a new floor is

  predicate InputOk(input: FloorInput) {
    0 <= input.floorNumber <= 999 && 1 <= input.rows <= 200 && 1 <= input.columns <= 500 && input.price > 0
  }

  predicate HasFloor(floors: map<Uuid, Floor>, lot: Uuid, floorNumber: int) {
    exists id :: id in floors && floors[id].lot == lot && floors[id].floorNumber == floorNumber
  }

  /** When a floor is created: valid input, an existing lot, at most 5000 slots and a number the lot does not have. */
  lemma NewFloorAnswer(t: Tables, lot: Uuid, input: FloorInput)
    ensures CreateFloorOutcome(t, lot, input) ==
      if !InputOk(input) then Refused(BadRequest)
      else if lot !in t.lots then Refused(NotFound)
      else if input.rows * input.columns > 5000 then Refused(BadRequest)
      else if HasFloor(t.floors, lot, input.floorNumber) then Refused(Conflict)
      else Accepted
  {
  }

  /** The slots added for a floor: AVAILABLE, at the price asked for, in cells of its grid. */
  ghost predicate AddedFor(lot: Uuid, floor: Uuid, input: FloorInput, slot: FloorSlot) {
    && slot == FloorSlot(lot, floor, slot.slotNumber, input.price, Available)
    && InGrid(slot.slotNumber, input.rows, input.columns)
  }

  /** An accepted floor has exactly the grid, number and price that were asked for, and no other row changes. */
  lemma NewFloorIsItsInput(t: Tables, lot: Uuid, input: FloorInput)
    requires GridInv(t) && CreateFloorOutcome(t, lot, input) == Accepted
    ensures var more, floor := CreateFloor(t, lot, input), t.nextFloor;
      && floor !in t.floors
      && more.floors == t.floors[floor := Floor(lot, input.floorNumber, input.rows, input.columns)]
      && (forall id :: id in t.slots ==> id in more.slots && more.slots[id] == t.slots[id])
      && (forall id :: id in more.slots && id !in t.slots ==> AddedFor(lot, floor, input, more.slots[id]))
      && (forall number :: HasNumber(more.slots, floor, number) <==> InGrid(number, input.rows, input.columns))
      && NumbersUnique(more.slots) && more.lots == t.lots && more.booked == t.booked
  {
    var more, floor := CreateFloor(t, lot, input), t.nextFloor;
    CreateFloorKeeps(t, lot, input);
    assert FillsGrid(more.slots, floor, more.floors[floor].rows, more.floors[floor].columns);
    AddedSlots(t, lot, input);
  }

  lemma AddedSlots(t: Tables, lot: Uuid, input: FloorInput)
    requires IdsTaken(t) && input.rows >= 1 && input.columns >= 1
    ensures var more := AddFloor(t, lot, input);
      && (forall id :: id in t.slots ==> id in more.slots && more.slots[id] == t.slots[id])
      && (forall id :: id in more.slots && id !in t.slots ==> AddedFor(lot, t.nextFloor, input, more.slots[id]))
  {
    var more := AddFloor(t, lot, input);
    var numbers := GridNumbers(input.rows, input.columns);
    GridCells(input.rows, input.columns);
    forall id | id in more.slots && id !in t.slots
      ensures AddedFor(lot, t.nextFloor, input, more.slots[id])
    {
      InsertedRow(t.slots, t.nextSlot, GridSlots(lot, t.nextFloor, input), id);
      assert more.slots[id].slotNumber == numbers[id - t.nextSlot];
    }
  }

  /** The slots that a lot got for its floors. */
  ghost predicate AddedForOne(lot: Uuid, firstFloor: Uuid, inputs: seq<FloorInput>, slot: FloorSlot) {
    exists i :: 0 <= i < |inputs| && AddedFor(lot, firstFloor + i, inputs[i], slot)
  }

  /** The rows after some floors of a lot have been added. */
  ghost predicate FloorsAdded(t: Tables, more: Tables, lot: Uuid, inputs: seq<FloorInput>) {
    && IdsTaken(more) && more.nextFloor == t.nextFloor + |inputs|
    && (forall id :: id in more.floors <==> id in t.floors || t.nextFloor <= id < more.nextFloor)
    && (forall id :: id in t.floors ==> id in more.floors && more.floors[id] == t.floors[id])
    && (forall i :: 0 <= i < |inputs| ==> IsFloorOf(more.floors, t.nextFloor + i, lot, inputs[i]))
    && (forall id :: id in t.slots ==> id in more.slots && more.slots[id] == t.slots[id])
    && (forall id :: id in more.slots && id !in t.slots ==> AddedForOne(lot, t.nextFloor, inputs, more.slots[id]))
  }

  predicate IsFloorOf(floors: map<Uuid, Floor>, id: Uuid, lot: Uuid, input: FloorInput) {
    id in floors && floors[id] == Floor(lot, input.floorNumber, input.rows, input.columns)
  }

  lemma {:induction false} AddFloorsRows(t: Tables, lot: Uuid, inputs: seq<FloorInput>)
    requires IdsTaken(t) && lot in t.lots
    requires forall i :: 0 <= i < |inputs| ==> inputs[i].rows >= 1 && inputs[i].columns >= 1
    ensures FloorsAdded(t, AddFloors(t, lot, inputs), lot, inputs)
    decreases |inputs|
  {
    if inputs != [] {
      var init, last := inputs[..|inputs| - 1], inputs[|inputs| - 1];
      AddFloorsRows(t, lot, init);
      OneFloorAdded(t, AddFloors(t, lot, init), lot, init, last);
      InitAndLast(inputs);
    }
  }

  lemma OneFloorAdded(t: Tables, most: Tables, lot: Uuid, init: seq<FloorInput>, last: FloorInput)
    requires IdsTaken(t) && FloorsAdded(t, most, lot, init) && last.rows >= 1 && last.columns >= 1
    ensures FloorsAdded(t, AddFloor(most, lot, last), lot, init + [last])
  {
    var more, inputs := AddFloor(most, lot, last), init + [last];
    AddedSlots(most, lot, last);
    forall i | 0 <= i < |inputs|
      ensures IsFloorOf(more.floors, t.nextFloor + i, lot, inputs[i])
    {
      if i < |init| {
        assert IsFloorOf(most.floors, t.nextFloor + i, lot, init[i]);
      }
    }
    forall id | id in more.slots && id !in t.slots
      ensures AddedForOne(lot, t.nextFloor, inputs, more.slots[id])
    {
      if id in most.slots {
        AddedForMore(lot, t.nextFloor, init, last, most.slots[id]);
      } else {
        assert AddedFor(lot, t.nextFloor + |init|, inputs[|init|], more.slots[id]);
      }
    }
  }

  lemma AddedForMore(lot: Uuid, firstFloor: Uuid, init: seq<FloorInput>, last: FloorInput, slot: FloorSlot)
    requires AddedForOne(lot, firstFloor, init, slot)
    ensures AddedForOne(lot, firstFloor, init + [last], slot)
  {
    var i :| 0 <= i < |init| && AddedFor(lot, firstFloor + i, init[i], slot);
    assert (init + [last])[i] == init[i];
  }

  /** Every answer to the creation of a lot. */
  lemma NewLotAnswer(inputs: seq<FloorInput>, duplicate: bool)
    ensures CreateOutcome(inputs, duplicate) ==
      if !(1 <= |inputs| <= 50) || (exists input :: input in inputs && !InputOk(input)) then Refused(BadRequest)
      else if exists i, j :: 0 <= i < j < |inputs| && inputs[i].floorNumber == inputs[j].floorNumber
      then Refused(BadRequest)
      else if exists input :: input in inputs && input.rows * input.columns > 5000 then Refused(BadRequest)
      else if duplicate then Refused(Conflict)
      else Accepted
  {
    if !WithinSlotLimit(inputs) {
      var i :| 0 <= i < |inputs| && inputs[i].rows * inputs[i].columns > MAX_TOTAL_SLOTS;
      assert inputs[i] in inputs;
    }
  }

  /** An accepted lot gets one floor for each input, with that grid, number and price, and no other row changes. */
  lemma NewLotIsItsInputs(t: Tables, inputs: seq<FloorInput>, duplicate: bool)
    requires GridInv(t) && CreateOutcome(inputs, duplicate) == Accepted
    ensures var more := Create(t, inputs, duplicate);
      t.nextLot !in t.lots && more.lots == t.lots + {t.nextLot} && FloorsAdded(t, more, t.nextLot, inputs)
  {
    var begun := t.(lots := t.lots + {t.nextLot}, nextLot := t.nextLot + 1);
    AcceptedInputs(inputs, duplicate);
    AddFloorsRows(begun, t.nextLot, inputs);
    SameLots(begun, t.nextLot, inputs);
    SameStart(t, begun, Create(t, inputs, duplicate), t.nextLot, inputs);
  }

  lemma AcceptedInputs(inputs: seq<FloorInput>, duplicate: bool)
    requires CreateOutcome(inputs, duplicate) == Accepted
    ensures forall i :: 0 <= i < |inputs| ==> inputs[i].rows >= 1 && inputs[i].columns >= 1
  {
    forall i | 0 <= i < |inputs|
      ensures inputs[i].Valid()
    {
      assert inputs[i] in inputs;
    }
  }

  lemma SameStart(t: Tables, other: Tables, more: Tables, lot: Uuid, inputs: seq<FloorInput>)
    requires t.floors == other.floors && t.slots == other.slots && t.nextFloor == other.nextFloor
    requires FloorsAdded(other, more, lot, inputs)
    ensures FloorsAdded(t, more, lot, inputs)
  {
  }

  lemma {:induction false} SameLots(t: Tables, lot: Uuid, inputs: seq<FloorInput>)
    ensures AddFloors(t, lot, inputs).lots == t.lots
    decreases |inputs|
  {
    if inputs != [] {
      SameLots(t, lot, inputs[..|inputs| - 1]);
    }
  }

  // ------------------------------------------------------------------ what one resize does to the slots

  predicate EditOk(edit: FloorEdit) {
    && (edit.floorNumber.Some? ==> 0 <= edit.floorNumber.value <= 999)
    && (edit.rows.Some? ==> 1 <= edit.rows.value <= 200)
    && (edit.columns.Some? ==> 1 <= edit.columns.value <= 500)
    && (edit.price.Some? ==> edit.price.value > 0)
  }

  /** The floor that is asked for: what the edit names is new, everything else as before. */
  predicate AskedFor(floor: Floor, edit: FloorEdit, target: Floor) {
    && target.lot == floor.lot
    && (if edit.floorNumber == None then target.floorNumber == floor.floorNumber
        else edit.floorNumber == Some(target.floorNumber))
    && (if edit.rows == None then target.rows == floor.rows else edit.rows == Some(target.rows))
    && (if edit.columns == None then target.columns == floor.columns else edit.columns == Some(target.columns))
  }

  predicate AnotherHas(floors: map<Uuid, Floor>, floor: Uuid, lot: Uuid, floorNumber: int) {
    exists id :: id in floors && id != floor && floors[id].lot == lot && floors[id].floorNumber == floorNumber
  }

  predicate BookedOut(t: Tables, floor: Uuid, target: Floor) {
    exists id :: id in t.booked && id in t.slots && t.slots[id].floor == floor
      && !InGrid(t.slots[id].slotNumber, target.rows, target.columns)
  }

  /** Every answer to a resize: growing needs a price, and no booked slot may lose its cell. */
  lemma ResizeAnswer(t: Tables, lot: Uuid, floor: Uuid, edit: FloorEdit, target: Floor)
    requires floor in t.floors && AskedFor(t.floors[floor], edit, target)
    ensures UpdateFloorOutcome(t, lot, floor, edit) ==
      if !EditOk(edit) then Refused(BadRequest)
      else if lot !in t.lots || t.floors[floor].lot != lot then Refused(NotFound)
      else if target.rows * target.columns > 5000 then Refused(BadRequest)
      else if AnotherHas(t.floors, floor, lot, target.floorNumber) then Refused(Conflict)
      else if edit.price == None && (target.rows > t.floors[floor].rows || target.columns > t.floors[floor].columns)
      then Refused(BadRequest)
      else if BookedOut(t, floor, target) then Refused(Conflict)
      else Accepted
  {
    assert edit.Target(t.floors[floor]) == target;
  }

  /**
   * An accepted resize keeps exactly the slots with a cell in the new grid: same identifier, number
   * and status, and a new price only if one was given. Every other slot row is untouched, and every
   * added one is AVAILABLE, at the given price, in a cell that was not there before.
   */
  lemma ResizeKeepsCommonCells(t: Tables, lot: Uuid, floor: Uuid, edit: FloorEdit, id: Uuid)
    requires GridInv(t) && UpdateFloorOutcome(t, lot, floor, edit) == Accepted
    ensures var more := UpdateFloor(t, lot, floor, edit);
      && floor in t.floors && floor in more.floors && AskedFor(t.floors[floor], edit, more.floors[floor])
      && var target := more.floors[floor];
      && more.floors == t.floors[floor := target] && more.booked == t.booked && more.lots == t.lots
      && (id in t.slots && t.slots[id].floor != floor ==> id in more.slots && more.slots[id] == t.slots[id])
      && (id in t.slots && t.slots[id].floor == floor ==>
            (id in more.slots <==> InGrid(t.slots[id].slotNumber, target.rows, target.columns)))
      && (id in t.slots && id in more.slots && t.slots[id].floor == floor ==>
            more.slots[id] == t.slots[id].(basePrice := GetOr(edit.price, t.slots[id].basePrice)))
      && (id in more.slots && id !in t.slots ==>
            && edit.price.Some?
            && more.slots[id] == FloorSlot(lot, floor, more.slots[id].slotNumber, edit.price.value, Available)
            && InGrid(more.slots[id].slotNumber, target.rows, target.columns)
            && !InGrid(more.slots[id].slotNumber, t.floors[floor].rows, t.floors[floor].columns))
  {
    var was := t.floors[floor];
    assert FloorOk(t.lots, was);
    if id in t.slots {
      assert id < t.nextSlot;
    } else if id in UpdateFloor(t, lot, floor, edit).slots {
      AddedSlot(KeptSlots(t.slots, floor, edit.Target(was), edit.price), t.nextSlot, lot, floor, was, edit.Target(was),
                edit.price, id);
    }
  }

  lemma NewCellIsNew(was: Floor, target: Floor, i: nat)
    requires was.rows >= 1 && was.columns >= 1 && target.rows >= 1 && target.columns >= 1
    requires i < |NewCells(was, target)|
    ensures var number := NewCells(was, target)[i];
      InGrid(number, target.rows, target.columns) && !InGrid(number, was.rows, was.columns)
    ensures Grows(was, target)
  {
    var number := NewCells(was, target)[i];
    assert number in NewCells(was, target);
    GridMembers(number, target.rows, target.columns);
    NewCellsIffGrowing(was.rows, was.columns, target.rows, target.columns);
  }

  lemma InsertedRow(slots: map<Uuid, FloorSlot>, nextSlot: Uuid, rows: seq<FloorSlot>, id: Uuid)
    requires id !in slots && id in Insert(slots, nextSlot, rows)
    ensures nextSlot <= id < nextSlot + |rows| && Insert(slots, nextSlot, rows)[id] == rows[id - nextSlot]
  {
  }

  lemma AddedSlot(slots: map<Uuid, FloorSlot>, nextSlot: Uuid, lot: Uuid, floor: Uuid, was: Floor, target: Floor,
                  price: Option<int>, id: Uuid)
    requires was.rows >= 1 && was.columns >= 1 && target.rows >= 1 && target.columns >= 1
    requires Grows(was, target) ==> price.Some?
    requires id !in slots
    requires id in Insert(slots, nextSlot, FloorSlots(lot, floor, GetOr(price, 0), NewCells(was, target)))
    ensures var slot := Insert(slots, nextSlot, FloorSlots(lot, floor, GetOr(price, 0), NewCells(was, target)))[id];
      && price.Some? && slot == FloorSlot(lot, floor, slot.slotNumber, price.value, Available)
      && InGrid(slot.slotNumber, target.rows, target.columns) && !InGrid(slot.slotNumber, was.rows, was.columns)
  {
    var cells := NewCells(was, target);
    var rows := FloorSlots(lot, floor, GetOr(price, 0), cells);
    InsertedRow(slots, nextSlot, rows, id);
    NewCellIsNew(was, target, id - nextSlot);
    assert rows[id - nextSlot] == FloorSlot(lot, floor, cells[id - nextSlot], GetOr(price, 0), Available);
  }

  /** The check of the edit form: the rate may be left out if neither rows nor columns grow. */
  predicate EditFormAccepts(currentRows: int, currentColumns: int, rows: int, columns: int, price: Option<int>) {
    price.Some? || (rows <= currentRows && columns <= currentColumns)
  }

  /** The numbers `updateFloor` computes from the table: targets without a row. */
  ghost predicate AddsSlots(t: Tables, floor: Uuid, target: Floor) {
    exists number :: InGrid(number, target.rows, target.columns) && !HasNumber(t.slots, floor, number)
  }

  /** The backend, which compares sets of strings, demands a price in exactly the cases the edit form does. */
  lemma PriceDemandedIffGrowing(t: Tables, floor: Uuid, edit: FloorEdit)
    requires GridInv(t) && floor in t.floors && edit.Valid()
    ensures var was := t.floors[floor];
      var target := edit.Target(was);
      (AddsSlots(t, floor, target) && edit.price.None?)
      <==> !EditFormAccepts(was.rows, was.columns, target.rows, target.columns, edit.price)
  {
    var was := t.floors[floor];
    var target := edit.Target(was);
    assert FloorOk(t.lots, was) && FillsGrid(t.slots, floor, was.rows, was.columns);
    NewCellsIffGrowing(was.rows, was.columns, target.rows, target.columns);
    if AddsSlots(t, floor, target) {
      var number :| InGrid(number, target.rows, target.columns) && !HasNumber(t.slots, floor, number);
      assert !InGrid(number, was.rows, was.columns);
    }
    if number :| InGrid(number, target.rows, target.columns) && !InGrid(number, was.rows, was.columns) {
      assert !HasNumber(t.slots, floor, number);
    }
  }

  // ------------------------------------------------------------------ all runs

  datatype Edit =
    | OpenLot(inputs: seq<FloorInput>, duplicate: bool)
    | NewFloor(lot: Uuid, input: FloorInput)
    | EditFloor(lot: Uuid, floor: Uuid, edit: FloorEdit)
    // The reservation side: a reservation row comes to name a slot, or a slot changes status.
    | Reserve(slot: Uuid)
    | SetStatus(slot: Uuid, status: SlotStatus)

  function Next(t: Tables, e: Edit): Tables {
    match e
    case OpenLot(inputs, duplicate) => Create(t, inputs, duplicate)
    case NewFloor(lot, input) => CreateFloor(t, lot, input)
    case EditFloor(lot, floor, edit) => UpdateFloor(t, lot, floor, edit)
    case Reserve(slot) => if slot in t.slots then t.(booked := t.booked + {slot}) else t
    case SetStatus(slot, status) =>
      if slot in t.slots then t.(slots := t.slots[slot := t.slots[slot].(status := status)]) else t
  }

  function Run(t: Tables, edits: seq<Edit>): Tables
    decreases |edits|
  {
    if edits == [] then t else Run(Next(t, edits[0]), edits[1..])
  }

  function Empty(): Tables {
    Tables({}, map[], map[], {}, 0, 0, 0)
  }

  lemma StatusKeeps(t: Tables, slot: Uuid, status: SlotStatus)
    requires GridInv(t) && slot in t.slots
    ensures GridInv(t.(slots := t.slots[slot := t.slots[slot].(status := status)]))
  {
    var more := t.slots[slot := t.slots[slot].(status := status)];
    forall floor, number
      ensures HasNumber(more, floor, number) <==> HasNumber(t.slots, floor, number)
    {
      if HasNumber(more, floor, number) {
        var id :| id in more && more[id].floor == floor && more[id].slotNumber == number;
        assert t.slots[id].floor == floor && t.slots[id].slotNumber == number;
      }
      if HasNumber(t.slots, floor, number) {
        var id :| id in t.slots && t.slots[id].floor == floor && t.slots[id].slotNumber == number;
        assert more[id].floor == floor && more[id].slotNumber == number;
      }
    }
    forall id | id in t.floors
      ensures FillsGrid(more, id, t.floors[id].rows, t.floors[id].columns)
    {
      assert FillsGrid(t.slots, id, t.floors[id].rows, t.floors[id].columns);
    }
    forall id | id in more
      ensures OnItsFloor(t.floors, more[id])
    {
      assert OnItsFloor(t.floors, t.slots[id]);
    }
  }

  lemma StepKeepsGrid(t: Tables, e: Edit)
    requires GridInv(t)
    ensures GridInv(Next(t, e))
  {
    match e
    case OpenLot(inputs, duplicate) => CreateKeeps(t, inputs, duplicate);
    case NewFloor(lot, input) => CreateFloorKeeps(t, lot, input);
    case EditFloor(lot, floor, edit) => UpdateFloorKeeps(t, lot, floor, edit);
    case Reserve(slot) =>
      if slot in t.slots {
        assert forall id :: id in t.floors ==> FillsGrid(t.slots, id, t.floors[id].rows, t.floors[id].columns);
      }
    case SetStatus(slot, status) =>
      if slot in t.slots {
        StatusKeeps(t, slot, status);
      }
  }

  lemma {:induction false} RunKeepsGrid(t: Tables, edits: seq<Edit>)
    requires GridInv(t)
    ensures GridInv(Run(t, edits))
    decreases |edits|
  {
    if edits != [] {
      StepKeepsGrid(t, edits[0]);
      RunKeepsGrid(Next(t, edits[0]), edits[1..]);
    }
  }

  /**
   * After any sequence of edits every floor's slot numbers are exactly its grid, without duplicates,
   * and the totals that floors and lots report are true counts.
   */
  lemma GridsAreExact(edits: seq<Edit>, floor: Uuid)
    requires floor in Run(Empty(), edits).floors
    ensures var t := Run(Empty(), edits);
      var f := t.floors[floor];
      && (forall number :: HasNumber(t.slots, floor, number) <==> InGrid(number, f.rows, f.columns))
      && NumbersUnique(t.slots)
      && |SlotsOn(t.slots, floor)| == f.rows * f.columns <= MAX_TOTAL_SLOTS
      && LotTotal(t, f.lot) == |SlotsOfLot(t.slots, f.lot)|
  {
    var t := Run(Empty(), edits);
    RunKeepsGrid(Empty(), edits);
    assert FillsGrid(t.slots, floor, t.floors[floor].rows, t.floors[floor].columns);
    TotalIsCount(t, floor);
    LotTotalIsCount(t, t.floors[floor].lot);
  }

  /** The same slot: nothing but status and price may differ. */
  predicate SameSlot(a: FloorSlot, b: FloorSlot) {
    b == a.(status := b.status, basePrice := b.basePrice)
  }

  lemma AddFloorExtends(t: Tables, lot: Uuid, input: FloorInput, id: Uuid)
    requires id in t.slots && id < t.nextSlot
    ensures var more := AddFloor(t, lot, input);
      id in more.slots && more.slots[id] == t.slots[id] && more.booked == t.booked && t.nextSlot <= more.nextSlot
  {
  }

  lemma {:induction false} AddFloorsExtends(t: Tables, lot: Uuid, inputs: seq<FloorInput>, id: Uuid)
    requires id in t.slots && id < t.nextSlot
    ensures var more := AddFloors(t, lot, inputs);
      id in more.slots && more.slots[id] == t.slots[id] && more.booked == t.booked && t.nextSlot <= more.nextSlot
    decreases |inputs|
  {
    if inputs != [] {
      AddFloorsExtends(t, lot, inputs[..|inputs| - 1], id);
      AddFloorExtends(AddFloors(t, lot, inputs[..|inputs| - 1]), lot, inputs[|inputs| - 1], id);
    }
  }

  lemma ResizeKeepsBookedSlot(t: Tables, lot: Uuid, floor: Uuid, edit: FloorEdit, id: Uuid)
    requires GridInv(t) && id in t.booked
    ensures var more := UpdateFloor(t, lot, floor, edit);
      id in more.booked && id in more.slots && SameSlot(t.slots[id], more.slots[id])
  {
    if UpdateFloorOutcome(t, lot, floor, edit) == Accepted {
      ResizeKeepsCommonCells(t, lot, floor, edit, id);
      assert !FallsOutside(t.slots[id], floor, edit.Target(t.floors[floor]));
    }
  }

  lemma CreateKeepsBookedSlot(t: Tables, inputs: seq<FloorInput>, duplicate: bool, id: Uuid)
    requires id in t.slots && id < t.nextSlot && id in t.booked
    ensures var more := Create(t, inputs, duplicate);
      id in more.booked && id in more.slots && more.slots[id] == t.slots[id]
  {
    if CreateOutcome(inputs, duplicate) == Accepted {
      var begun := t.(lots := t.lots + {t.nextLot}, nextLot := t.nextLot + 1);
      AddFloorsExtends(begun, t.nextLot, inputs, id);
      CreatedFrom(t, begun, inputs, duplicate);
    }
  }

  lemma CreatedFrom(t: Tables, begun: Tables, inputs: seq<FloorInput>, duplicate: bool)
    requires CreateOutcome(inputs, duplicate) == Accepted
    requires begun == t.(lots := t.lots + {t.nextLot}, nextLot := t.nextLot + 1)
    ensures Create(t, inputs, duplicate) == AddFloors(begun, t.nextLot, inputs)
  {
  }

  lemma StepKeepsBookedSlot(t: Tables, e: Edit, id: Uuid)
    requires GridInv(t) && id in t.booked
    ensures var more := Next(t, e);
      id in more.booked && id in more.slots && SameSlot(t.slots[id], more.slots[id])
  {
    match e
    case OpenLot(inputs, duplicate) => CreateKeepsBookedSlot(t, inputs, duplicate, id);
    case NewFloor(lot, input) => AddFloorExtends(t, lot, input, id);
    case EditFloor(lot, floor, edit) => ResizeKeepsBookedSlot(t, lot, floor, edit, id);
    case Reserve(slot) =>
    case SetStatus(slot, status) =>
  }

  /** A slot that a reservation names is never removed, renumbered or moved. */
  lemma {:induction false} RunKeepsBookedSlot(t: Tables, edits: seq<Edit>, id: Uuid)
    requires GridInv(t) && id in t.booked
    ensures var more := Run(t, edits);
      id in more.booked && id in more.slots && SameSlot(t.slots[id], more.slots[id])
    decreases |edits|
  {
    if edits != [] {
      StepKeepsGrid(t, edits[0]);
      StepKeepsBookedSlot(t, edits[0], id);
      RunKeepsBookedSlot(Next(t, edits[0]), edits[1..], id);
    }
  }
}
