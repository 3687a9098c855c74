# Verification of the parking reservation system

A Dafny model of the reservation backend and of the few pure functions of the frontend that have to
agree with it. Run `dafny verify dfyconfig.toml` in this directory to check everything.

## What is modelled

**The reservation lifecycle as one step machine.** Six functions in four services write the same rows
(reservations, slots, QR codes, challans, payments) and no guard is shared between them. `Lifecycle` and
`Monitoring` say what each committed transaction does to the whole database state; `Services` holds the
services themselves as a class that changes its tables step by step, each method proved to have exactly
that effect. `Runs` puts all of it together: bookings, cancellations, blocking a user, check-in and
check-out scans, the confirm and fail endpoints, slot restriction, the monitoring tick (both as one step
and write by write, open to interleaving), floor edits, cards, accounts and the clock. `Invariants` is the
joint invariant, `Preservation` and `Safety` prove that every action keeps it. `Automaton`, `SlotLife` and
`Locality` say a second time what the actions do, row by row and without any function of the services, and
prove that the two descriptions agree. The other files draw the consequences for all runs:

| file | what it is about |
|---|---|
| `Safety` | no run takes a confirmed window; the invariant of every reachable state |
| `Automaton` | the life of one reservation, defined without the services; every action follows it |
| `SlotLife` | the same for slots, challans, payments, codes and users |
| `Locality` | the tick never looks from one slot at another; what it does to an overdue vehicle |
| `Guarantees` | QR codes, terminal states, payments, extension ladder, no-show sweep, slot status |
| `Declines` | declined check-outs, anywhere in a run, leave no trace |
| `Money` | the incremental ledger equals a direct recomputation of the bill |
| `OneCar` | what staff discipline (nobody is let into a taken slot) adds |
| `CatchUp` | repeated ticks reach a fixpoint |
| `Schedule` | regular ticks never fall behind, in one step or write by write |
| `Sharpness` | the bound on the time between ticks is exact |
| `Orders` | loops whose order the source leaves open; the tick is its writes |
| `Races` | what serial execution is worth: writers that read first and write later |
| `Search` | a slot shown as available can be booked |
| `Witnesses` | short runs that show which assumptions cannot be dropped |

**The floor slot grid.** `RowLabels` has the bijective base-26 row labels, slot numbers, their parser and
their sort order; `SlotGrid` the numbers of a floor; `ParkingLots` what creating and resizing floors does,
stated on cells; `FloorGuarantees` the theorems over all edit sequences; `FloorService` the service itself,
which compares sets of strings.

**Server-sent events.** `Sse` has the frame printer of the backend and the incremental parser of the
frontend, `Utf8` the bytes between them with the streaming decoder, `Json` the serialization of events,
`JsonReader` a reader of JSON values and the proof that it gives every value back.

**Two loops.** `Luhn` (Annex B of ISO/IEC 7812-1) and `Chunks` (the overlapping text chunker).

## Assumptions and parameters

- Times are integer milliseconds, money is integer cents, the configuration is constant in a run. A thrown
  exception rolls its transaction back, so a refused call leaves the state unchanged.
- *Serial requests.* Every request takes effect in one step, between the writes of a running tick. The source
  sets no isolation level; its row locks cover the slot in `create`
  (backend/src/modules/reservation/reservation.service.ts:117), the reservation in `cancel`
  (backend/src/modules/reservation/reservation.service.ts:407-431) and the code in both scans
  (backend/src/modules/checkpoint/checkpoint.service.ts:373). Two writers take no lock between what they read
  and what they write: `block` cancels the bookings it has read unconditionally
  (backend/src/modules/users/users.service.ts:130-138), and `bulkUpdateStatus` checks and writes in two
  statements (backend/src/modules/parking-slot/parking-slot.service.ts:157-191). `Races` takes both apart:
  `Races.CancelWriteSafeIff` says exactly when the cancel writes keep the tables consistent,
  `Races.BlockWriteSafeIffNobodyEnters` that this is so, whatever happens in between, if and only if no scan
  lets that vehicle in, and `Races.RestrictWriteSafeIffNoVehicle` is the exact condition for the restriction.
  `Witnesses.BlockingCanCancelAVehicle` is a reachable case that fails.
- *Atomicity of a turn.* One active booking's turn in the tick decides and writes in one step, on the row the tick
  read earlier, and no paid check-out falls between that read and the turn of a booking whose grace period
  had expired at the read (`Runs.RacesTick`; check-outs of bookings that were not due may come at any time).
  `Guarantees.CompletionIsFinalIffNoRace` shows that this is exact: a paid check-out completes its
  reservation for good, over every later run, if and only if it is no such race. `Witnesses.AtomicityIsNeeded`
  is a run that shows what happens otherwise. Because the queue query and the extension write are one step,
  no booking falls between them; `Witnesses.BookingBetweenSafeIffPastExtension` is the exact condition on one
  that would, and `Witnesses.BookingBetweenLosesAWindow` a reachable state where it does harm.
  The no-show sweep needs none of this: its query and its writes may be any number of requests apart
  (`Guarantees.SweepNeverHitsAVehicle`).
- *A positive buffer.* `Witnesses.ConfirmedWindowsSafeIffBuffer` shows that it is necessary and sufficient.
- *One vehicle per slot* is not enforced by `checkIn`. It is an explicit premise of the results of `OneCar`
  and of nothing else. Without it three properties fail, and for each the exact condition is proved at the step
  that breaks it: one vehicle per slot, at an accepted check-in (`OneCar.CheckInSafeIffSlotEmpty`); disjoint live
  windows, at an extension (`OneCar.ExtensionSafeIffNoVehicleAhead`); OCCUPIED exactly if a vehicle is in, at a
  paid check-out (`OneCar.CheckOutHonestIffAlone`). `Witnesses.DisciplineIsNeeded` and
  `Witnesses.PayingFreesTheSlot` are the runs that break them.
- Generated identifiers and tokens are inputs (or a counter) and an identifier that is already taken is
  refused. The calendar-day limit of a booking is the parameter `latestArrival`. `JSON.parse` is
  modelled by `JsonReader.ParseJson`, which reads what `JSON.stringify` writes.

## Where the code and its documentation disagree

- The README of the repository (README.md:94) lists PENDING_PAYMENT between check-in and completion. No write ever sets it: the two
  endpoints that wait for it always refuse (`Guarantees.PendingPaymentNeverReached`).
- README.md:108 and the comment at backend/src/modules/checkpoint/checkpoint.service.ts:158-160 say that a reservation stays CHECKED_IN on a
  declined card. One in OVERTIME stays OVERTIME.
- The EXPIRED write at backend/src/modules/checkpoint/checkpoint.service.ts:397-400 is undone by the exception that follows it in the same
  transaction, so an expired code stays ACTIVE in the table until a cancellation expires it.
- The search hides MAINTENANCE slots, but `create` does not look at the slot status
  (`Search.SearchAgreesWithBooking`).
- backend/prisma/schema.prisma:148 gives "A-10" as an example of a slot number; the code writes "A10".

## Model

| member | source | states |
|---|---|---|
| `Services.ParkingDatabase.Create` | backend/src/modules/reservation/reservation.service.ts:66-169 | The transaction, step by step, has the effect of `Lifecycle.Create` |
| `Services.ParkingDatabase.Cancel` | backend/src/modules/reservation/reservation.service.ts:400-450 | Likewise for `Lifecycle.Cancel` |
| `Services.ParkingDatabase.ConfirmCheckoutPayment` | backend/src/modules/reservation/reservation.service.ts:267-305 | Likewise for `Lifecycle.ConfirmPayment` |
| `Services.ParkingDatabase.FailCheckoutPayment` | backend/src/modules/reservation/reservation.service.ts:362-381 | Likewise for `Lifecycle.FailPayment` |
| `Services.ParkingDatabase.Block` | backend/src/modules/users/users.service.ts:121-151 | The loop, in any row order, has the order-free effect of cancelling all confirmed bookings of the user, and marks the user |
| `Services.ParkingDatabase.LoadValidQrCode` | backend/src/modules/checkpoint/checkpoint.service.ts:364-405 | The outcome is `Lifecycle.ScanOutcome`, and the EXPIRED write is rolled back |
| `Services.ParkingDatabase.CheckIn` | backend/src/modules/checkpoint/checkpoint.service.ts:59-105 | Likewise for `Lifecycle.CheckIn` |
| `Services.ParkingDatabase.CheckOut` | backend/src/modules/checkpoint/checkpoint.service.ts:162-289 | A declined check-out writes only the failed payment; a paid one completes, spends the code and frees the slot |
| `Services.ParkingDatabase.BulkUpdateStatus` | backend/src/modules/parking-slot/parking-slot.service.ts:110-194 | All or nothing over the listed slots; refused if one is missing, listed twice or in use; `updateStatus` is the case of one slot |
| `Services.ParkingDatabase.Monitor` | backend/src/modules/reservation/reservation-monitoring.service.ts:42-59 | One tick is the sweep followed by the turns of all active bookings; a tick that overlaps a running one does nothing |
| `Services.ParkingDatabase.CancelNoShows` | backend/src/modules/reservation/reservation-monitoring.service.ts:61-114 | The sweep loop cancels exactly the confirmed bookings past their grace, in any order |
| `Services.ParkingDatabase.ProcessActiveBookings` | backend/src/modules/reservation/reservation-monitoring.service.ts:123-176 | The loop over active bookings has an effect that does not depend on the list order |
| `Services.ParkingDatabase.ResolveGraceExpiry` | backend/src/modules/reservation/reservation-monitoring.service.ts:178-338 | Penalise if a confirmed booking is queued, else extend by one hour; nothing if the challan exists |
| `Billing.RoundUpHoursIsLeast` | backend/src/modules/reservation/billing.util.ts:7-9 | The billed hours are the least positive number of hours that covers the minutes |
| `Billing.BaseChargeIsStartedHours` | backend/src/modules/reservation/billing.util.ts:7-17 | The base charge is the rate times the hours started, and no whole number of hours covers the time for less |
| `Billing.OvertimeChargeIsNearest` | backend/src/modules/reservation/reservation-monitoring.service.ts:219-222 | The penalty is the whole number of cents nearest to rate times multiplier, half rounded up |
| `Billing.BaseChargeExtends` | backend/src/modules/reservation/billing.util.ts:11-17 | An hour more on the stay is exactly one hour's rate more on the recomputed base charge |
| `Billing.CalculateFinalCharge` | backend/src/modules/reservation/billing.service.ts:15-31 | The sum over challan rows in any order is base charge plus challan total |
| `Billing.ChallanTotalAdd` | backend/src/modules/reservation/billing.service.ts:20-28 | A new challan adds its amount to the bill of its own reservation and to no other |
| `Lifecycle.CancelAllNext` | backend/src/modules/users/users.service.ts:134-151 | One more cancellation after a set of them is the larger set, whichever comes next |
| `Monitoring.TurnsIndependent` | backend/src/modules/reservation/reservation-monitoring.service.ts:178-195 | One booking's turn does not change what another booking's turn decides |
| `Monitoring.ResolveAllSplit` | backend/src/modules/reservation/reservation-monitoring.service.ts:133-175 | Taking any active booking first and the rest as a set gives the same final state |
| `Runs.StepKeepsCore` | backend/src/modules/reservation/reservation-monitoring.service.ts:61-338 | From a state with the joint invariant, every action keeps the table part of it, a write of a running tick on the rows it remembers included |
| `Runs.StepMovesRows` | backend/src/modules/checkpoint/checkpoint.service.ts:71-105 | One action moves a reservation row only along its life cycle; check-in only up to start plus grace; identity, slot, start and price never change |
| `Automaton.ReservationFollows` | backend/src/modules/reservation/reservation-monitoring.service.ts:61-338 | Whatever the action, every reservation moves exactly as its life cycle says: cancelled by its user, staff, a block of its user or the sweep; let in by its own code between the early limit and the grace; completed by its own exit code and a card that pays; penalised if somebody waits for its slot, else one hour longer; otherwise untouched |
| `Automaton.BookingAnswer` | backend/src/modules/reservation/reservation.service.ts:66-134 | Each answer of a booking request and exactly when it is given; a time is free if no reservation of the slot that is not over comes within the buffer |
| `Automaton.NewReservation` | backend/src/modules/reservation/reservation.service.ts:141-169 | A reservation comes into being exactly by such a booking, with the user, slot, times, code and record asked for and the price of the hours started |
| `Automaton.CheckInAnswer` | backend/src/modules/checkpoint/checkpoint.service.ts:67-83 | What a check-in scan answers, told from the reservation alone; the status test never decides, because the code is spent first |
| `Automaton.CheckOutAnswer` | backend/src/modules/checkpoint/checkpoint.service.ts:174-206 | Likewise for a check-out scan: gone after payment, else accepted or declined by the card |
| `Automaton.WrongCodeAnswer` | backend/src/modules/checkpoint/checkpoint.service.ts:377-395 | An unknown token is not found and a code for the other gate is a bad request |
| `Automaton.BlockIsForOneUser` | backend/src/modules/users/users.service.ts:121-151 | Blocking cancels exactly the confirmed bookings of that user; every other reservation, and every code of another user, is the same |
| `SlotLife.SlotFollows` | backend/src/modules/parking-slot/parking-slot.service.ts:110-194 | Whatever the action, every slot changes exactly as its life says: reserved by a booking if AVAILABLE, freed when a booking goes or a vehicle pays, OCCUPIED by an entry, restricted only together with slots that are not in use |
| `SlotLife.NewSlot` | backend/src/modules/parking-lot/parking-lot.service.ts:464-486 | A slot comes into being exactly by a floor edit, AVAILABLE and at the given price |
| `SlotLife.ChallansFollow` | backend/src/modules/reservation/reservation-monitoring.service.ts:197-338 | A reservation is charged exactly when a tick finds its vehicle overdue: one new challan, the penalty or one hour, at the price read |
| `SlotLife.PaymentsFollow` | backend/src/modules/checkpoint/checkpoint.service.ts:194-272 | A payment row is written exactly by an exit scan of a vehicle that is in, with the price plus all challans, SUCCESSFUL or FAILED by the card |
| `SlotLife.NewCode` | backend/src/modules/checkpoint/checkpoint.service.ts:101-105 | A code is issued exactly by a booking or by an entry, and the latter is the exit code of the reservation let in |
| `SlotLife.UsersFollow` | backend/src/modules/users/users.service.ts:126-128 | A user row changes exactly by blocking that user or saving a card |
| `Locality.TickIsLocal` | backend/src/modules/reservation/reservation-monitoring.service.ts:181-188 | Slots do not interact: two states that agree on a slot, its reservations, their challans and codes agree on all of them after a tick |
| `Locality.OverdueTick` | backend/src/modules/reservation/reservation-monitoring.service.ts:197-338 | After a tick an overdue vehicle is in OVERTIME with a penalty if a booking of its own slot waits that the sweep has not cancelled, else checked in one hour longer with one hour charged, and nothing else is charged |
| `Locality.OverdueTurn` | backend/src/modules/reservation/reservation-monitoring.service.ts:178-338 | The same for one turn of a tick taken write by write, on the rows it finds |
| `Safety.StepKeepsInv` | backend/src/modules/reservation/reservation-monitoring.service.ts:61-89 | Every action keeps the joint invariant, including what a running tick remembers, unless it is a paid check-out of a booking the tick has read as overdue and not yet come to |
| `Safety.StepKeepsApart` | backend/src/modules/reservation/reservation.service.ts:119-151 | With a positive buffer, no action lets a live window meet a confirmed one of the same slot |
| `Safety.RunKeepsInv` | backend/src/modules/reservation/reservation-monitoring.service.ts:178-195 | Both invariants hold at the end of every run that starts in them |
| `Safety.ReachableInv` | backend/src/modules/reservation/reservation.service.ts:119-151 | In every reachable state the joint invariant holds and, with a positive buffer, each CONFIRMED window is disjoint from every other live window of its slot |
| `Safety.RunKeepsBooking` | backend/src/modules/reservation/reservation.service.ts:141-151 | User, slot, start, base price and booking record of a reservation are the same at the end of any run |
| `Guarantees.CodesFollowStatus` | backend/src/modules/checkpoint/checkpoint.service.ts:68-105 | In every reachable state each reservation has exactly one check-in code and, once entered, exactly one check-out code, each in the state its status calls for |
| `Guarantees.TokenWorksOnce` | backend/src/modules/checkpoint/checkpoint.service.ts:391-395 | A token that let a vehicle in or out is refused at every later scan of the run |
| `Guarantees.TerminalForGood` | backend/src/modules/reservation/reservation.service.ts:427-431 | A completed or cancelled reservation row never changes again |
| `Guarantees.PaidForGood` | backend/src/modules/checkpoint/checkpoint.service.ts:194-221 | A COMPLETED reservation has one SUCCESSFUL payment equal to its price plus all its challans, and row, payment and bill stay so for the rest of the run |
| `Guarantees.TurnSparesCompletedIffNotDue` | backend/src/modules/reservation/reservation-monitoring.service.ts:172-174 | The turn of a booking paid for since the tick's read leaves its row alone if and only if its grace period had not expired |
| `Guarantees.CompletionIsFinalIffNoRace` | backend/src/modules/reservation/reservation-monitoring.service.ts:124-174 | The exact condition, over all later runs: a paid check-out completes its reservation for good if and only if the tick has not read the booking as overdue with its turn still to come |
| `Guarantees.PendingPaymentNeverReached` | backend/src/modules/reservation/reservation.service.ts:277-281 | In no reachable state is a reservation in PENDING_PAYMENT, and the confirm and fail endpoints change nothing |
| `Guarantees.ConfirmIsPaidCheckOut` | backend/src/modules/reservation/reservation.service.ts:267-305 | If a reservation were in PENDING_PAYMENT, confirming would end in exactly the state of a paid exit scan from CHECKED_IN |
| `Guarantees.FailWritesOnePayment` | backend/src/modules/reservation/reservation.service.ts:362-381 | Failing would change only that payment, and for anybody but the customer both endpoints are forbidden and change nothing |
| `Declines.DeclinesLeaveNoTrace` | backend/src/modules/checkpoint/checkpoint.service.ts:206-272 | Dropping every declined scan from any run, wherever it stands, gives a run that ends in the same state except for payment rows, with the same payment for every completed reservation |
| `Declines.RetryPaysTheSame` | backend/src/modules/checkpoint/checkpoint.service.ts:206-221 | Any number of declines and then a saved card end in exactly the state of one scan with that card, payment row included |
| `Guarantees.ExtensionLadder` | backend/src/modules/reservation/reservation-monitoring.service.ts:300-338 | In every reachable state the end time is the booked end plus n hours, the extension challans are keyed by exactly the n end times passed, and there is at most one penalty, keyed by the current end |
| `Guarantees.NeverStuck` | backend/src/modules/reservation/reservation-monitoring.service.ts:206-217 | The already-processed exits are never taken: a booking past its grace is always penalised or extended, under a new key |
| `Guarantees.SweepNeverHitsAVehicle` | backend/src/modules/reservation/reservation-monitoring.service.ts:66-89 | However stale the sweep's snapshot, a remembered reservation is CONFIRMED or CANCELLED and no scan can check it in |
| `Guarantees.SlotStatusIsHonest` | backend/src/modules/reservation/reservation.service.ts:153-159 | In every reachable state RESERVED means some confirmed booking and OCCUPIED some vehicle, without any discipline |
| `Money.StepMovesChallans` | backend/src/modules/reservation/reservation-monitoring.service.ts:224-238 | Challans are append-only, and a new one comes with exactly its effect on a checked-in row, keyed by that row's end time |
| `Money.PenaltyIffEverOvertime` | backend/src/modules/reservation/reservation-monitoring.service.ts:197-238 | A penalty is on the books if and only if the reservation was in OVERTIME in some state of the run |
| `Money.BillIsRecomputation` | backend/src/modules/reservation/billing.service.ts:15-31 | At a constant price the final charge is the base charge of the whole stay, plus at most one penalty |
| `Money.BillFromBooking` | backend/src/modules/reservation/billing.util.ts:11-17 | From the moment of booking, through any run that does not reprice the slot, the bill is the rate times the hours started from start to current end, plus one penalty, rounded to the cent, if ever in OVERTIME |
| `OneCar.StepKeepsOneVehicle` | backend/src/modules/checkpoint/checkpoint.service.ts:92-101 | With the discipline, no action puts two vehicles into one slot |
| `OneCar.CheckInSafeIffSlotEmpty` | backend/src/modules/checkpoint/checkpoint.service.ts:68-101 | The exact condition: an accepted check-in keeps one vehicle per slot if and only if the slot is empty |
| `OneCar.DisciplineSeparates` | backend/src/modules/checkpoint/checkpoint.service.ts:274-289 | After any disciplined run, with a positive buffer, all live windows of a slot are disjoint, at most one vehicle is in it, and it is OCCUPIED if and only if one is |
| `CatchUp.TickRow` | backend/src/modules/reservation/reservation-monitoring.service.ts:123-176 | What one tick does to any row: cancelled, one hour more, OVERTIME, or untouched |
| `CatchUp.TickLowersTotal` | backend/src/modules/reservation/reservation-monitoring.service.ts:172-174 | The summed whole hours of delay strictly fall with each tick until none is left |
| `CatchUp.SettledIsFixpoint` | backend/src/modules/reservation/reservation-monitoring.service.ts:52-59 | A tick in a settled state changes nothing at all |
| `CatchUp.CatchUpTerminates` | backend/src/modules/reservation/reservation-monitoring.service.ts:52-59 | With the clock fixed, any sequence of ticks longer than the summed hours of delay ends in a fixpoint with no confirmed booking past its grace and no vehicle past its buffered end |
| `Schedule.RegularTicksKeepUp` | backend/src/modules/reservation/reservation-monitoring.service.ts:172-174 | If completed ticks, in one step or write by write, come at most `gap` apart (at most an hour, and grace plus gap below minimum duration plus buffer plus one hour), every checked-in vehicle was before its buffered end at the last one or came in after it, and right after a one-step tick every vehicle is; the defaults meet this, 60 + 1 < 15 + 30 + 60 minutes |
| `Schedule.DrainedTickKeepsUp` | backend/src/modules/reservation/reservation-monitoring.service.ts:123-176 | On the same schedule, once the turns of a write-by-write tick are done, every checked-in vehicle was before its buffered end when the tick read the clock, or came in since |
| `Sharpness.KeepsUpIffFrequentEnough` | backend/src/modules/reservation/reservation-monitoring.service.ts:172-174 | The bound is exact: for any positive gap, all runs whose completed ticks come at most that far apart leave every vehicle before its buffered end at their next tick if and only if the gap meets the two inequalities |
| `Orders.BlockIsCancelling` | backend/src/modules/users/users.service.ts:130-151 | Blocking equals cancelling the user's confirmed bookings through the ordinary endpoint in any order |
| `Orders.ResolveInOrderIsResolveAll` | backend/src/modules/reservation/reservation-monitoring.service.ts:133-175 | The turns of the tick add up to the same state in every order, with repetitions |
| `Orders.TickIsItsWrites` | backend/src/modules/reservation/reservation-monitoring.service.ts:52-59 | The two queries and single writes, each list in any order, with nothing in between, are the one-step tick |
| `Races.CancelWriteSafeIff` | backend/src/modules/users/users.service.ts:134-151 | The unconditional cancel writes keep the tables consistent if and only if the reservation is still confirmed, or already cancelled |
| `Races.BlockWriteSafeIffNobodyEnters` | backend/src/modules/users/users.service.ts:130-138 | Whatever run separates the read of the confirmed bookings from the write for one of them, the write keeps the tables consistent if and only if no scan of that run let the vehicle in |
| `Races.RestrictWriteSafeIffNoVehicle` | backend/src/modules/parking-slot/parking-slot.service.ts:174-191 | The write of a restriction, at any later time, keeps the tables consistent, and keeps OCCUPIED exact if and only if no vehicle is in one of the slots |
| `Races.RestrictionFindsVehicles` | backend/src/modules/parking-slot/parking-slot.service.ts:157-173 | The check before it refuses whenever a vehicle is in one of the slots, as long as OCCUPIED is exact |
| `Search.OverlapIsWindowsMeeting` | backend/src/modules/reservation/reservation.service.ts:119-131 | The column comparison of the booking check is exactly the meeting of buffered windows |
| `Search.SearchAgreesWithBooking` | backend/src/modules/parking-slot/parking-slot.service.ts:57-84 | The batch search and the booking check agree slot by slot, except that only the search looks at MAINTENANCE |
| `Search.AvailableCanBeBooked` | backend/src/modules/parking-slot/parking-slot.service.ts:65-66 | A slot shown as available for a window is never refused as taken when that window is booked in the same state |
| `Search.LiftingRestores` | backend/src/modules/parking-slot/parking-slot.service.ts:174-191 | Lifting a restriction is always accepted and gives back the state before it, if the slots were AVAILABLE |
| `Witnesses.ConfirmedWindowsSafeIffBuffer` | backend/src/modules/reservation/reservation-monitoring.service.ts:181-188 | Confirmed windows are safe in all reachable states if and only if the buffer is positive |
| `Witnesses.DisciplineIsNeeded` | backend/src/modules/checkpoint/checkpoint.service.ts:71-101 | With the default settings, a reachable state holds two vehicles in one slot with meeting windows |
| `OneCar.ExtensionSafeIffNoVehicleAhead` | backend/src/modules/reservation/reservation-monitoring.service.ts:181-188 | The exact condition: an extension keeps the live windows of a slot disjoint if and only if no other vehicle is in it on a booking that starts between the old end and the buffered new end, which the queue query for confirmed bookings does not see |
| `Witnesses.PayingFreesTheSlot` | backend/src/modules/checkpoint/checkpoint.service.ts:286-289 | In that situation paying for one vehicle marks the slot AVAILABLE under the other |
| `OneCar.CheckOutHonestIffAlone` | backend/src/modules/checkpoint/checkpoint.service.ts:286-289 | The exact condition: after a paid check-out OCCUPIED still means exactly that a vehicle is in if and only if no other vehicle is in that slot |
| `Witnesses.AtomicityIsNeeded` | backend/src/modules/reservation/reservation-monitoring.service.ts:235-238 | A check-out that races the tick is put back from COMPLETED to OVERTIME, with a penalty that was not charged |
| `Witnesses.BookingBetweenSafeIffPastExtension` | backend/src/modules/reservation/reservation-monitoring.service.ts:181-188 | The exact condition on a booking accepted between the queue query and the extension write: confirmed windows stay safe if and only if it is for another slot or arrives after the buffered end of the extension |
| `Witnesses.BookingBetweenLosesAWindow` | backend/src/modules/reservation/reservation-monitoring.service.ts:335-338 | With the default settings, a reachable state and an accepted booking where that condition fails and a confirmed window is lost |
| `Witnesses.BlockingCanCancelAVehicle` | backend/src/modules/users/users.service.ts:130-138 | With the default settings, a reachable state and one check-in after the read of `block`: the booking is cancelled under the vehicle, its slot stays OCCUPIED and its exit code ACTIVE |
| `RowLabels.BuildRowLabel` | backend/src/modules/parking-lot/row-label.util.ts:5-16 | The loop computes the bijective base-26 numeral of its index, empty for an index that is not positive |
| `RowLabels.ValueOfLabel` | backend/src/modules/parking-lot/row-label.util.ts:5-16 | Reading a label as a base-26 value gives back its row |
| `RowLabels.LabelOfValue` | backend/src/modules/parking-lot/row-label.util.ts:5-16 | Every string of the letters A to Z is the label of its value, so labels and positive integers are in bijection |
| `RowLabels.RowSortIsValueOrder` | frontend/src/features/parking-slots/components/slot-grid.tsx:14-17 | Sorting any two labels by length and then alphabetically is sorting by row number |
| `RowLabels.ParseSlotNumber` | frontend/src/features/parking-slots/components/slot-grid.tsx:6-12 | The parser recovers label and column of every slot number the backend can write |
| `RowLabels.SlotNumberInjective` | backend/src/modules/parking-lot/parking-lot.service.ts:352 | Different cells have different slot numbers |
| `RowLabels.DisplayIsRowMajor` | frontend/src/features/parking-slots/components/slot-grid.tsx:67-75 | The displayed order of slots is the row-major order of their cells |
| `SlotGrid.GridCells` | backend/src/modules/parking-lot/parking-lot.service.ts:464-486 | The generated numbers are exactly the cells of the grid, rows times columns of them, without duplicates |
| `SlotGrid.Corners` | backend/src/modules/parking-lot/parking-lot.service.ts:347-356 | Every grid begins with A1 and ends with the label of its last row and the number of its last column |
| `SlotGrid.BuildSlotGridNumbers` | backend/src/modules/parking-lot/parking-lot.service.ts:347-356 | The nested loops fill the set with all cells in row-major order; no insertion ever meets an element already there |
| `SlotGrid.CommonRectangle` | backend/src/modules/parking-lot/parking-lot.service.ts:273-278 | Two grids share exactly the cells of their common rectangle |
| `SlotGrid.NewCellsIffGrowing` | frontend/src/features/parking-lots/schemas.ts:39-49 | A grid has a cell outside another exactly if it has more rows or more columns |
| `FloorService.BuildSlotGrid` | backend/src/modules/parking-lot/parking-lot.service.ts:464-486 | The nested loops produce one AVAILABLE slot row for each cell |
| `FloorService.AssertUniqueFloorNumbers` | backend/src/modules/parking-lot/parking-lot.service.ts:438-448 | The loop accepts exactly the lists without a repeated floor number |
| `FloorService.AssertWithinSlotLimit` | backend/src/modules/parking-lot/parking-lot.service.ts:450-462 | The loop accepts exactly the lists whose floors are all within the slot limit |
| `FloorService.ParkingLotService.Create` | backend/src/modules/parking-lot/parking-lot.service.ts:58-120 | Creating a lot inserts all its floors with their grids or nothing, and keeps the grid invariant |
| `FloorService.ParkingLotService.CreateFloor` | backend/src/modules/parking-lot/parking-lot.service.ts:122-188 | Creating a floor keeps the grid invariant, and both reported counts are the true ones |
| `FloorService.ParkingLotService.UpdateFloor` | backend/src/modules/parking-lot/parking-lot.service.ts:222-345 | The diff of slot-number strings has exactly the effect stated on cells; a refusal rolls every write back; the reported counts are the true ones |
| `FloorService.DiffIsNewCells` | backend/src/modules/parking-lot/parking-lot.service.ts:264-278 | The target numbers without a row are the cells of the new rectangle outside the old one |
| `FloorService.ParkingLotService.GetTotalSlotsMap` | backend/src/modules/parking-lot/parking-lot.service.ts:519-539 | The totals map has an entry for each listed lot with a floor, and it is the true number of slot rows of the lot |
| `ParkingLots.UpdateFloorKeeps` | backend/src/modules/parking-lot/parking-lot.service.ts:231-301 | Resizing keeps the grid invariant of all floors |
| `ParkingLots.CreateKeeps` | backend/src/modules/parking-lot/parking-lot.service.ts:58-119 | Creating a lot with any list of floors keeps the grid invariant |
| `FloorGuarantees.TotalIsCount` | backend/src/modules/parking-lot/parking-lot.service.ts:215-219 | The reported rows times columns is the number of slot rows of the floor, at most 5000 |
| `FloorGuarantees.LotTotalIsCount` | backend/src/modules/parking-lot/parking-lot.service.ts:531-538 | The sum over a lot's floors is the number of slot rows that carry the lot's identifier |
| `FloorGuarantees.NewFloorAnswer` | backend/src/modules/parking-lot/parking-lot.service.ts:122-188 | Each answer to the creation of a floor and exactly when it is given, limits included |
| `FloorGuarantees.NewFloorIsItsInput` | backend/src/modules/parking-lot/parking-lot.service.ts:122-188 | An accepted floor has the number, the grid and the price asked for, its slots are AVAILABLE, and no other row changes |
| `FloorGuarantees.NewLotAnswer` | backend/src/modules/parking-lot/parking-lot.service.ts:58-119 | Each answer to the creation of a lot and exactly when it is given |
| `FloorGuarantees.NewLotIsItsInputs` | backend/src/modules/parking-lot/parking-lot.service.ts:58-119 | An accepted lot gets one floor for each input, each with its own grid and price, and no other row changes |
| `FloorGuarantees.ResizeAnswer` | backend/src/modules/parking-lot/parking-lot.service.ts:231-301 | Each answer to a resize and exactly when it is given: growing needs a price, and no booked slot may lose its cell |
| `FloorGuarantees.ResizeKeepsCommonCells` | backend/src/modules/parking-lot/parking-lot.service.ts:256-300 | A resize keeps the identity, number and status of the slots in the common rectangle, touches no other floor, and adds AVAILABLE slots at the given price in new cells only |
| `FloorGuarantees.PriceDemandedIffGrowing` | frontend/src/features/parking-lots/schemas.ts:39-49 | The backend's comparison of string sets demands a price in exactly the cases the edit form does |
| `FloorGuarantees.GridsAreExact` | backend/src/modules/parking-lot/parking-lot.service.ts:263-301 | After any sequence of creations and resizes a floor's numbers are exactly its grid, without duplicates, and the reported totals are true counts |
| `FloorGuarantees.RunKeepsBookedSlot` | backend/src/modules/parking-lot/parking-lot.service.ts:335-342 | A slot that a reservation names is never removed, renumbered or moved in any run |
| `Sse.PipeToSse` | backend/src/modules/assistant/assistant.controller.ts:80-104 | The bytes written are the encoded frames of the events up to the moment the client leaves |
| `Sse.ParseSseStream` | frontend/src/features/assistant/api.ts:14-38 | The events yielded depend on the concatenation of the byte chunks only, not on how it was cut, inside a character or not |
| `Sse.SplitAppend` | frontend/src/features/assistant/api.ts:23-26 | Splitting is online: later text never changes a finished block |
| `Sse.PrefixYieldsPrefix` | frontend/src/features/assistant/api.ts:20-37 | A prefix of any bytes, well-formed or not, yields a prefix of their events |
| `Sse.FrameBodyIsSolid` | backend/src/modules/assistant/assistant.controller.ts:97 | A frame has no blank line inside, and its data line is the serialized event |
| `Sse.FrameCarries` | frontend/src/features/assistant/types.ts:1-43 | For each of the seven events, the value read from the frame has the type name and every property of types.ts under its own key |
| `Sse.FrameNamesType` | backend/src/modules/assistant/assistant.controller.ts:97 | The event line of a frame names the type that the value carries |
| `Sse.DataLineByLine` | frontend/src/features/assistant/api.ts:28-31 | The first line of a block that starts with the data prefix is taken, and only what is behind the prefix |
| `Sse.RoundTrip` | frontend/src/features/assistant/api.ts:14-38 | For every event list and every way of cutting the bytes of its stream, decoder, splitter, JSON reader and property access give exactly that list; if they break off inside a frame, even inside a character, exactly the events before it |
| `Utf8.DecodeChunkJoin` | frontend/src/features/assistant/api.ts:23 | Two chunks of any bytes decode to what their concatenation does, malformed input and byte order mark included |
| `Utf8.DecodeEncoded` | frontend/src/features/assistant/api.ts:17-23 | Decoding encoded text gives the text back and leaves nothing pending |
| `Utf8.CleanIffEncoded` | frontend/src/features/assistant/api.ts:17-23 | Bytes decode completely to a text without replacement characters if and only if they are its encoding, so malformed input never passes for text |
| `Utf8.MalformedIsReplaced` | frontend/src/features/assistant/api.ts:23 | A byte that starts no character and a character that breaks off give exactly one replacement character each |
| `Utf8.MarkIsDropped` | frontend/src/features/assistant/api.ts:17-23 | A byte order mark is dropped at the very beginning and nowhere else |
| `Sse.StreamUnambiguous` | backend/src/modules/assistant/assistant.controller.ts:90-98 | Different event lists never give the same stream |
| `Json.StringifyIsOneLine` | backend/src/modules/assistant/assistant.controller.ts:97 | The serialization of any value has no raw line feed, whatever its strings contain |
| `JsonReader.ParseReadsBack` | frontend/src/features/assistant/api.ts:31 | A reader written after the grammar of RFC 8259 gives back every value that is serialized, escapes, lone surrogates and nesting included |
| `JsonReader.Unambiguous` | frontend/src/features/assistant/api.ts:31 | No two values are written alike, and none is written like the beginning of another |
| `Luhn.LuhnCheck` | backend/src/common/validators/luhn.validator.ts:8-21 | The loop decides whether ten divides the sum, over the positions from the right, of the decimal digit sums of the digits, every second one times two |
| `Luhn.Validate` | backend/src/common/validators/luhn.validator.ts:25-28 | A string is valid exactly if it is a non-empty digit string that passes the check |
| `Luhn.WrongDigitDetected` | backend/src/common/validators/luhn.validator.ts:8-21 | Changing any one digit of a valid number of any length makes it invalid |
| `Luhn.SwapUndetectedIff` | backend/src/common/validators/luhn.validator.ts:8-21 | Swapping two adjacent digits of a valid number goes unnoticed if and only if they are equal or 0 and 9 |
| `Luhn.CheckDigitUnique` | backend/src/common/validators/luhn.validator.ts:8-21 | Every payload has exactly one valid last digit |
| `Chunks.ChunkText` | backend/src/modules/policy/chunk-text.util.ts:6-24 | The loop terminates and yields the non-blank trimmed windows of the normalized text in order |
| `Chunks.WindowsRejoin` | backend/src/modules/policy/chunk-text.util.ts:16-22 | The windows, each later one without its first `overlap` code units, concatenate to the normalized text |
| `Chunks.WindowsAre` | backend/src/modules/policy/chunk-text.util.ts:16-22 | Window i starts at i times size minus overlap, is full unless it reaches the end, and the last one is the first that does |
| `Chunks.NormalizedKeepsInk` | backend/src/modules/policy/chunk-text.util.ts:11 | Normalization keeps every code unit but white space, in order |
| `Chunks.NormalizedKeepsWords` | backend/src/modules/policy/chunk-text.util.ts:11 | Normalization neither joins two words nor splits one |
| `Chunks.SpacesAreWhiteSpace` | backend/src/modules/policy/chunk-text.util.ts:11 | White space is the 25 code units of WhiteSpace and LineTerminator |
| `Chunks.NormalizedIsTidy` | backend/src/modules/policy/chunk-text.util.ts:11 | Normalized text has no white space but single U+0020 spaces, and none at its ends |
| `Chunks.NothingLost` | backend/src/modules/policy/chunk-text.util.ts:18-19 | Each code unit of the normalized text that is not white space is inside some chunk |
| `Chunks.ChunksAreOk` | backend/src/modules/policy/chunk-text.util.ts:18-19 | Every chunk is non-empty, trimmed and no longer than the chunk size |
| `Chunks.OneChunkPerWindow` | backend/src/modules/policy/chunk-text.util.ts:19 | With a positive overlap no window is blank, so the emptiness test never drops one |
| `Chunks.EndsIff` | backend/src/modules/policy/chunk-text.util.ts:16-22 | The loop ends if and only if the overlap is below the chunk size or the text fits one window |

## Left out

- The LLM agent, its tools, embeddings and cosine search: external libraries and floating point.
- Maps, geocoding, the distance query and the duplicate-lot check behind it: whether another lot has the name or the place is an input of lot creation.
- Authentication, roles and lot ownership, except whether the canceller is staff; socket messages, QR images, notification texts and audit rows other than the booking record.
- React pages and hooks, except the parser, the sort order and the price rule above.
- Deletion of accounts, lots and floors: the database cascades do it, and it does not maintain the slot cache.
- Several server instances with different clocks, and a check-out or booking in the middle of one active booking's turn: excluded by the atomicity assumption.
- IEEE double rounding: amounts are exact cents, rounded half up only for the overtime multiplier.
- The timestamps paidAt, usedAt and checkedOutAt and the restriction reason: nothing reads them back.
- The search without a window and its filter by floor: easy filters.
- Prices of a floor edit in the step machine: any set of slots may be repriced, which covers the slots of one floor.
- Services.ParkingDatabase.Create: the calendar-day limit is the parameter `latestArrival`, because it depends on the time zone.
- Services.ParkingDatabase.Block: its read and its writes are one step, because requests are serial; `Races` has the exact condition for a check-in in between.
- Orders.BlockIsCancelling: likewise; the ordinary cancellation rechecks the status under a lock and `block` does not.
- Services.ParkingDatabase.BulkUpdateStatus: its check and its write are one step, because requests are serial; `Races` has the exact condition for the write on its own.
- FloorService.ParkingLotService.GetTotalSlotsMap: the rows come back as a set, so their order is arbitrary.
- RowLabels.RowSortIsValueOrder: `localeCompare` is modelled as alphabetical order, which is what it is on the letters A to Z.
- Sse.ParseSseStream: the idle timeout is not modelled.
- JsonReader.ParseReadsBack: the reader takes no white space between tokens and does not join escaped surrogate pairs, because the serializer writes neither.
- Json.StringifyIsOneLine: a finite number is carried by the text that Number::toString gives it, and property values are never undefined.
