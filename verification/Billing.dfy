/** backend/src/modules/reservation/billing.util.ts and billing.service.ts, in exact cents. */
module Billing {
  import opened Collections
  import opened Model

  function RoundUpHours(minutes: int): int {
    var hours := (minutes + 59) / 60;
    if hours < 1 then 1 else hours
  }

  function BaseCharge(hourlyRate: int, minutes: int): int {
    hourlyRate * RoundUpHours(minutes)
  }

  /** Round half up, as `Math.round` does. */
  function OvertimeCharge(cfg: Config, hourlyRate: int): int {
    (hourlyRate as real * cfg.overtimeMultiplier + 0.5).Floor
  }

  function ChallansOf(challans: map<ChallanKey, int>, id: Uuid): (keys: set<ChallanKey>)
    ensures keys <= challans.Keys
  {
    set k | k in challans && k.reservation == id
  }

  ghost function ChallanTotal(challans: map<ChallanKey, int>, id: Uuid): int {
    SumOver(challans, ChallansOf(challans, id))
  }

  /** `roundUpHours` charges every started hour: the least positive hour count covering the minutes. */
  lemma RoundUpHoursIsLeast(minutes: int, hours: int)
    ensures RoundUpHours(minutes) >= 1 && 60 * RoundUpHours(minutes) >= minutes
    ensures hours >= 1 && 60 * hours >= minutes ==> RoundUpHours(minutes) <= hours
  {
  }

  /** So many hours have been started after so many minutes, at least one. */
  predicate StartedHours(hours: int, minutes: int) {
    hours >= 1 && 60 * hours >= minutes && (hours == 1 || 60 * (hours - 1) < minutes)
  }

  /** The base charge is the rate for every started hour: no whole number of hours covers the time for less. */
  lemma BaseChargeIsStartedHours(hourlyRate: int, minutes: int)
    ensures exists hours :: StartedHours(hours, minutes) && BaseCharge(hourlyRate, minutes) == hourlyRate * hours
    ensures hourlyRate >= 0 ==>
      forall hours :: hours >= 1 && 60 * hours >= minutes ==> BaseCharge(hourlyRate, minutes) <= hourlyRate * hours
  {
    var least := RoundUpHours(minutes);
    assert StartedHours(least, minutes);
    if hourlyRate >= 0 {
      forall hours | hours >= 1 && 60 * hours >= minutes
        ensures hourlyRate * least <= hourlyRate * hours
      {
        assert hourlyRate * (hours - least) >= 0;
      }
    }
  }

  /** The whole number nearest to `exact`, the larger one of two. */
  predicate NearestHalfUp(rounded: int, exact: real) {
    rounded as real - 0.5 <= exact < rounded as real + 0.5
  }

  lemma OvertimeChargeIsNearest(cfg: Config, hourlyRate: int)
    ensures NearestHalfUp(OvertimeCharge(cfg, hourlyRate), hourlyRate as real * cfg.overtimeMultiplier)
  {
  }

  /** Every extension adds exactly one hour's rate to the recomputed base charge. */
  lemma BaseChargeExtends(hourlyRate: int, minutes: int, hours: nat)
    requires minutes > 0
    ensures BaseCharge(hourlyRate, minutes + 60 * hours) == BaseCharge(hourlyRate, minutes) + hourlyRate * hours
  {
    assert (minutes + 60 * hours + 59) / 60 == (minutes + 59) / 60 + hours;
    assert RoundUpHours(minutes + 60 * hours) == RoundUpHours(minutes) + hours;
    var h := RoundUpHours(minutes);
    assert hourlyRate * (h + hours) == hourlyRate * h + hourlyRate * hours;
  }

  /** A new challan adds its amount to its own reservation's total and to no other. */
  lemma ChallanTotalAdd(challans: map<ChallanKey, int>, key: ChallanKey, amount: int, id: Uuid)
    requires key !in challans
    ensures ChallanTotal(challans[key := amount], id)
         == ChallanTotal(challans, id) + (if key.reservation == id then amount else 0)
  {
    var more := challans[key := amount];
    var keys := ChallansOf(challans, id);
    if key.reservation == id {
      assert ChallansOf(more, id) == keys + {key};
      SumOverRemove(more, keys + {key}, key);
      assert keys + {key} - {key} == keys;
    } else {
      assert ChallansOf(more, id) == keys;
    }
    SumOverAgree(challans, more, keys);
  }

  /**
   * `calculateFinalCharge`: the rows come back in no particular order and are added up one by one.
   */
  method CalculateFinalCharge(totalPrice: int, challans: map<ChallanKey, int>, id: Uuid) returns (charge: int)
    ensures charge == totalPrice + ChallanTotal(challans, id)
  {
    var rest := ChallansOf(challans, id);
    var challanTotal := 0;
    while rest != {}
      invariant rest <= ChallansOf(challans, id)
      invariant challanTotal + SumOver(challans, rest) == ChallanTotal(challans, id)
      decreases rest
    {
      var challan :| challan in rest;
      SumOverRemove(challans, rest, challan);
      challanTotal := challanTotal + challans[challan];
      rest := rest - {challan};
    }
    charge := totalPrice + challanTotal;
  }
}
