/**
 * The card-number check of luhn.validator.ts: the "double-add-double" formula of Annex B of
 * ISO/IEC 7812-1, on digit strings of any length.
 */
module Luhn {
  import opened RowLabels

  function DigitValue(c: char): nat
    requires IsDigit(c)
  {
    c as int - 48
  }

  function DigitChar(d: nat): char
    requires d < 10
  {
    (48 + d) as char
  }

  /** A doubled digit counts as the sum of its two digits. */
  function Weighed(d: nat, doubled: bool): nat
    requires d < 10
  {
    if !doubled then d else if 2 * d > 9 then 2 * d - 9 else 2 * d
  }

  /** What the digit at `i` of a number with `length` digits adds: every second one from the right is doubled. */
  function Weight(c: char, i: nat, length: nat): nat
    requires IsDigit(c) && i < length
  {
    Weighed(DigitValue(c), (length - 1 - i) % 2 == 1)
  }

  function SumFrom(digits: string, i: nat): nat
    requires IsNumeral(digits) && i <= |digits|
    decreases |digits| - i
  {
    if i == |digits| then 0 else Weight(digits[i], i, |digits|) + SumFrom(digits, i + 1)
  }

  function LuhnSum(digits: string): nat
    requires IsNumeral(digits)
  {
    SumFrom(digits, 0)
  }

  predicate LuhnValid(digits: string)
    requires IsNumeral(digits)
  {
    LuhnSum(digits) % 10 == 0
  }

  /** `luhnCheck`: from the right, toggling `shouldDouble`. */
  method LuhnCheck(digits: string) returns (valid: bool)
    requires IsNumeral(digits)
    ensures valid == LuhnValid(digits)
    ensures valid <==> DigitSums(digits, 0) % 10 == 0
  {
    SumIsDigitSums(digits, |digits|);
    var sum := 0;
    var shouldDouble := false;
    var i := |digits| - 1;
    while i >= 0
      invariant -1 <= i < |digits|
      invariant shouldDouble == ((|digits| - 1 - i) % 2 == 1)
      invariant sum == SumFrom(digits, i + 1)
    {
      var digit := DigitValue(digits[i]);
      if shouldDouble {
        digit := digit * 2;
        if digit > 9 {
          digit := digit - 9;
        }
      }
      sum := sum + digit;
      shouldDouble := !shouldDouble;
      i := i - 1;
    }
    valid := sum % 10 == 0;
  }

  /** `IsLuhnValidConstraint.validate` on a string: one or more digits, and the check. */
  method Validate(value: string) returns (valid: bool)
    ensures valid <==> value != "" && IsNumeral(value) && DigitSums(value, 0) % 10 == 0
  {
    if value == "" || !IsNumeral(value) {
      return false;
    }
    valid := LuhnCheck(value);
  }

  // ------------------------------------------------------------------ the formula of the standard

  /** The sum of the decimal digits. */
  function DigitSum(n: nat): nat {
    if n < 10 then n else DigitSum(n / 10) + n % 10
  }

  /** Annex B: from position `k` on, counted from the right, every second digit times two, and the digits added up. */
  function DigitSums(digits: string, k: nat): nat
    requires IsNumeral(digits) && k <= |digits|
    decreases |digits| - k
  {
    if k == |digits| then 0
    else DigitSum((digits[|digits| - 1 - k] as int - 48) * (1 + k % 2)) + DigitSums(digits, k + 1)
  }

  /** Doubling and subtracting nine is adding the two digits of the double. */
  lemma WeighedIsDigitSum(d: nat, k: nat)
    requires d < 10
    ensures Weighed(d, k % 2 == 1) == DigitSum(d * (1 + k % 2))
  {
  }

  /** What the loop adds up from the left end of the last `k` digits on, the standard adds up from the right end. */
  lemma {:induction false} SumIsDigitSums(digits: string, k: nat)
    requires IsNumeral(digits) && k <= |digits|
    ensures SumFrom(digits, |digits| - k) + DigitSums(digits, k) == DigitSums(digits, 0)
  {
    if k > 0 {
      SumIsDigitSums(digits, k - 1);
      WeighedIsDigitSum(DigitValue(digits[|digits| - k]), k - 1);
    }
  }

  // ------------------------------------------------------------------ the sum, one digit at a time

  lemma {:induction false} SumAgrees(a: string, b: string, i: nat)
    requires IsNumeral(a) && IsNumeral(b) && |a| == |b| && i <= |a|
    requires forall k :: i <= k < |a| ==> a[k] == b[k]
    ensures SumFrom(a, i) == SumFrom(b, i)
    decreases |a| - i
  {
    if i < |a| {
      SumAgrees(a, b, i + 1);
    }
  }

  /** Replacing one digit changes the sum by the difference of the two weights. */
  lemma {:induction false} SumAfterChange(digits: string, at: nat, c: char, i: nat)
    requires IsNumeral(digits) && i <= at < |digits| && IsDigit(c)
    ensures IsNumeral(digits[at := c])
    ensures SumFrom(digits[at := c], i) + Weight(digits[at], at, |digits|)
      == SumFrom(digits, i) + Weight(c, at, |digits|)
    decreases at - i
  {
    var changed := digits[at := c];
    if i == at {
      SumAgrees(digits, changed, i + 1);
    } else {
      SumAfterChange(digits, at, c, i + 1);
    }
  }

  /** The weights of the ten digits are ten different numbers below ten, doubled or not. */
  lemma WeighedIsPermutation(d: nat, e: nat, doubled: bool)
    requires d < 10 && e < 10
    ensures Weighed(d, doubled) < 10
    ensures Weighed(d, doubled) == Weighed(e, doubled) <==> d == e
  {
  }

  /** Starting from a multiple of ten, the new sum is one exactly if the difference is. */
  lemma StillMultipleOfTen(before: int, after: int, removed: int, added: int)
    requires before % 10 == 0 && after + removed == before + added
    ensures after % 10 == 0 <==> (added - removed) % 10 == 0
  {
  }

  // ------------------------------------------------------------------ error detection

  lemma SmallMultiple(difference: int)
    requires -10 < difference < 10 && difference % 10 == 0
    ensures difference == 0
  {
  }

  /** Every single wrong digit is detected. */
  lemma WrongDigitDetected(digits: string, at: nat, c: char)
    requires IsNumeral(digits) && LuhnValid(digits) && at < |digits| && IsDigit(c) && c != digits[at]
    ensures IsNumeral(digits[at := c]) && !LuhnValid(digits[at := c])
  {
    SumAfterChange(digits, at, c, 0);
    var was, now := Weight(digits[at], at, |digits|), Weight(c, at, |digits|);
    WeighedIsPermutation(DigitValue(digits[at]), DigitValue(c), (|digits| - 1 - at) % 2 == 1);
    StillMultipleOfTen(LuhnSum(digits), LuhnSum(digits[at := c]), was, now);
    if LuhnValid(digits[at := c]) {
      SmallMultiple(now - was);
    }
  }

  function Swapped(digits: string, at: nat): string
    requires at + 1 < |digits|
  {
    digits[at := digits[at + 1]][at + 1 := digits[at]]
  }

  lemma SumAfterSwap(digits: string, at: nat)
    requires IsNumeral(digits) && at + 1 < |digits|
    ensures IsNumeral(Swapped(digits, at))
    ensures var n := |digits|;
      LuhnSum(Swapped(digits, at)) + Weight(digits[at], at, n) + Weight(digits[at + 1], at + 1, n)
      == LuhnSum(digits) + Weight(digits[at + 1], at, n) + Weight(digits[at], at + 1, n)
  {
    var once := digits[at := digits[at + 1]];
    SumAfterChange(digits, at, digits[at + 1], 0);
    SumAfterChange(once, at + 1, digits[at], 0);
  }

  /** What a swap of two digits does to the sum, modulo ten: nothing only for equal digits and for 0 with 9. */
  lemma SwapWeights(d: nat, e: nat, firstDoubled: bool)
    requires d < 10 && e < 10
    ensures (Weighed(d, firstDoubled) + Weighed(e, !firstDoubled)
             - Weighed(e, firstDoubled) - Weighed(d, !firstDoubled)) % 10 == 0
       <==> d == e || (d == 0 && e == 9) || (d == 9 && e == 0)
  {
  }

  predicate ZeroAndNine(a: char, b: char) {
    (a == '0' && b == '9') || (a == '9' && b == '0')
  }

  /** Swapping two adjacent digits of a valid number goes unnoticed exactly if they are equal or 0 and 9. */
  lemma SwapUndetectedIff(digits: string, at: nat)
    requires IsNumeral(digits) && LuhnValid(digits) && at + 1 < |digits|
    ensures IsNumeral(Swapped(digits, at))
    ensures LuhnValid(Swapped(digits, at)) <==> digits[at] == digits[at + 1] || ZeroAndNine(digits[at], digits[at + 1])
  {
    SumAfterSwap(digits, at);
    var n, first, second := |digits|, digits[at], digits[at + 1];
    var firstDoubled := (n - 1 - at) % 2 == 1;
    assert ((n - 1 - (at + 1)) % 2 == 1) == !firstDoubled;
    SwapWeights(DigitValue(second), DigitValue(first), firstDoubled);
    StillMultipleOfTen(LuhnSum(digits), LuhnSum(Swapped(digits, at)),
                       Weight(first, at, n) + Weight(second, at + 1, n),
                       Weight(second, at, n) + Weight(first, at + 1, n));
  }

  // ------------------------------------------------------------------ the check digit

  /** The digit that completes a payload. */
  function CheckDigit(payload: string): (d: nat)
    requires IsNumeral(payload)
    ensures d < 10
  {
    (10 - LuhnSum(payload + "0") % 10) % 10
  }

  /** Every payload has exactly one valid last digit. */
  lemma CheckDigitUnique(payload: string, d: nat)
    requires IsNumeral(payload) && d < 10
    ensures IsNumeral(payload + [DigitChar(d)])
    ensures LuhnValid(payload + [DigitChar(d)]) <==> d == CheckDigit(payload)
  {
    var zero := payload + "0";
    var last := |payload|;
    SumAfterChange(zero, last, DigitChar(d), 0);
    assert zero[last := DigitChar(d)] == payload + [DigitChar(d)];
    assert Weight('0', last, last + 1) == 0 && Weight(DigitChar(d), last, last + 1) == d;
    CompletesIff(LuhnSum(zero), d);
  }

  lemma CompletesIff(sum: nat, d: nat)
    requires d < 10
    ensures (sum + d) % 10 == 0 <==> d == (10 - sum % 10) % 10
  {
  }
}
