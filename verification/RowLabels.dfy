/**
 * Row labels and slot numbers: how the backend writes them (row-label.util.ts) and how the slot
 * grid of the frontend reads and sorts them (slot-grid.tsx).
 */
module RowLabels {
  import opened Collections

  // ------------------------------------------------------------------ labels are base-26 numerals without a zero

  predicate IsLetter(c: char) {
    'A' <= c <= 'Z'
  }

  predicate IsLabel(s: string) {
    forall i :: 0 <= i < |s| ==> IsLetter(s[i])
  }

  function Letter(k: nat): char
    requires k < 26
  {
    (65 + k) as char
  }

  /** The label of a 1-based row index; an index that is not positive has none. */
  function RowLabel(index: int): string {
    if index <= 0 then "" else RowLabel((index - 1) / 26) + [Letter((index - 1) % 26)]
  }

  /** The row a label stands for. */
  function LabelValue(letters: string): nat
    requires IsLabel(letters)
  {
    if letters == "" then 0
    else 26 * LabelValue(letters[..|letters| - 1]) + (letters[|letters| - 1] as int - 64)
  }

  /** The loop of `rowLabel`. */
  method BuildRowLabel(index: int) returns (letters: string)
    ensures letters == RowLabel(index)
  {
    letters := "";
    var n := index;
    while n > 0
      invariant RowLabel(n) + letters == RowLabel(index)
    {
      var remainder := (n - 1) % 26;
      assert RowLabel(n) + letters == RowLabel((n - 1) / 26) + ([Letter(remainder)] + letters);
      letters := [Letter(remainder)] + letters;
      n := (n - 1) / 26;
    }
  }

  /** The turns of the alphabet. */
  lemma KnownLabels()
    ensures RowLabel(1) == "A" && RowLabel(26) == "Z" && RowLabel(27) == "AA" && RowLabel(702) == "ZZ"
  {
    assert RowLabel(0) == "";
    assert RowLabel(1) == "" + "A" && RowLabel(26) == "" + "Z";
    assert RowLabel(27) == RowLabel(1) + "A" && RowLabel(702) == RowLabel(26) + "Z";
  }

  lemma ValueOfSnoc(init: string, digit: nat)
    requires IsLabel(init) && digit < 26
    ensures IsLabel(init + [Letter(digit)])
    ensures LabelValue(init + [Letter(digit)]) == 26 * LabelValue(init) + digit + 1
  {
    SnocInit(init, Letter(digit));
  }

  /** Reading a label back gives its row. */
  lemma {:induction false} ValueOfLabel(index: nat)
    ensures IsLabel(RowLabel(index)) && LabelValue(RowLabel(index)) == index
    ensures RowLabel(index) == "" <==> index == 0
  {
    if index > 0 {
      ValueOfLabel((index - 1) / 26);
      ValueOfSnoc(RowLabel((index - 1) / 26), (index - 1) % 26);
    }
  }

  /** Every string of letters is the label of its value: together with ValueOfLabel, a bijection. */
  lemma {:induction false} LabelOfValue(letters: string)
    requires IsLabel(letters)
    ensures RowLabel(LabelValue(letters)) == letters
  {
    if letters != "" {
      var init, last := letters[..|letters| - 1], letters[|letters| - 1] as int - 65;
      LabelOfValue(init);
      assert IsLetter(letters[|letters| - 1]);
      assert LabelValue(letters) - 1 == 26 * LabelValue(init) + last;
      assert letters == init + [Letter(last)];
    }
  }

  // ------------------------------------------------------------------ label order is row order

  /** `localeCompare` on upper-case letters: alphabetical. */
  function Compare(a: string, b: string): int {
    if a == "" || b == "" then |a| - |b|
    else if a[0] != b[0] then a[0] as int - b[0] as int
    else Compare(a[1..], b[1..])
  }

  function RowSort(a: string, b: string): int {
    if |a| != |b| then |a| - |b| else Compare(a, b)
  }

  /** Two integers on the same side of zero. */
  predicate SameSign(x: int, y: int) {
    (x < 0 <==> y < 0) && (x == 0 <==> y == 0)
  }

  /** Alphabetical order of equally long strings, read from the back. */
  lemma {:induction false} CompareFromBack(a: string, b: string)
    requires |a| == |b| > 0
    ensures var head := Compare(a[..|a| - 1], b[..|b| - 1]);
      Compare(a, b) == if head != 0 then head else a[|a| - 1] as int - b[|b| - 1] as int
  {
    if |a| > 1 && a[0] == b[0] {
      CompareFromBack(a[1..], b[1..]);
      assert a[1..][..|a| - 2] == a[..|a| - 1][1..];
      assert b[1..][..|b| - 2] == b[..|b| - 1][1..];
    }
  }

  /** The rows whose labels have `length` letters start here. */
  function FirstRow(length: nat): nat {
    if length == 0 then 0 else 26 * FirstRow(length - 1) + 1
  }

  lemma {:induction false} LengthBounds(letters: string)
    requires IsLabel(letters)
    ensures FirstRow(|letters|) <= LabelValue(letters) < FirstRow(|letters| + 1)
  {
    if letters != "" {
      LengthBounds(letters[..|letters| - 1]);
      assert IsLetter(letters[|letters| - 1]);
    }
  }

  lemma {:induction false} FirstRowGrows(shorter: nat, longer: nat)
    requires shorter <= longer
    ensures FirstRow(shorter) <= FirstRow(longer)
  {
    if shorter < longer {
      FirstRowGrows(shorter, longer - 1);
    }
  }

  lemma {:induction false} CompareIsValueOrder(a: string, b: string)
    requires IsLabel(a) && IsLabel(b) && |a| == |b|
    ensures SameSign(Compare(a, b), LabelValue(a) - LabelValue(b))
  {
    if a != "" {
      CompareFromBack(a, b);
      CompareIsValueOrder(a[..|a| - 1], b[..|b| - 1]);
      assert IsLetter(a[|a| - 1]) && IsLetter(b[|b| - 1]);
    }
  }

  /** `rowSort` on any two labels sorts by the rows they stand for. */
  lemma RowSortIsValueOrder(a: string, b: string)
    requires IsLabel(a) && IsLabel(b)
    ensures SameSign(RowSort(a, b), LabelValue(a) - LabelValue(b))
  {
    if |a| == |b| {
      CompareIsValueOrder(a, b);
    } else {
      LengthBounds(a);
      LengthBounds(b);
      if |a| < |b| {
        FirstRowGrows(|a| + 1, |b|);
      } else {
        FirstRowGrows(|b| + 1, |a|);
      }
    }
  }

  // ------------------------------------------------------------------ slot numbers

  predicate IsDigit(c: char) {
    '0' <= c <= '9'
  }

  predicate IsNumeral(s: string) {
    forall i :: 0 <= i < |s| ==> IsDigit(s[i])
  }

  function Decimal(n: nat): string {
    (if n < 10 then "" else Decimal(n / 10)) + [(48 + n % 10) as char]
  }

  function DecimalValue(s: string): nat
    requires IsNumeral(s)
  {
    if s == "" then 0 else 10 * DecimalValue(s[..|s| - 1]) + (s[|s| - 1] as int - 48)
  }

  lemma {:induction false} ValueOfDecimal(n: nat)
    ensures IsNumeral(Decimal(n)) && Decimal(n) != "" && DecimalValue(Decimal(n)) == n
  {
    var init := if n < 10 then "" else Decimal(n / 10);
    if n >= 10 {
      ValueOfDecimal(n / 10);
    }
    assert Decimal(n)[..|Decimal(n)| - 1] == init;
  }

  function SlotNumber(row: int, column: nat): string {
    RowLabel(row) + Decimal(column)
  }

  datatype ParsedSlot = ParsedSlot(row: string, col: nat)

  function LetterCount(s: string): (n: nat)
    ensures n <= |s| && IsLabel(s[..n]) && (n < |s| ==> !IsLetter(s[n]))
  {
    if s == "" || !IsLetter(s[0]) then 0 else 1 + LetterCount(s[1..])
  }

  /** Letters, then digits, and nothing else; any other string is a row of its own. */
  function ParseSlot(slotNumber: string): ParsedSlot {
    var n := LetterCount(slotNumber);
    if 0 < n < |slotNumber| && IsNumeral(slotNumber[n..])
    then ParsedSlot(slotNumber[..n], DecimalValue(slotNumber[n..]))
    else ParsedSlot(slotNumber, 0)
  }

  lemma {:induction false} LetterCountOfSlot(letters: string, digits: string)
    requires IsLabel(letters) && IsNumeral(digits) && digits != ""
    ensures LetterCount(letters + digits) == |letters|
  {
    if letters != "" {
      assert (letters + digits)[1..] == letters[1..] + digits;
      LetterCountOfSlot(letters[1..], digits);
    } else {
      assert IsDigit(digits[0]) && letters + digits == digits;
    }
  }

  /** The frontend recovers the row label and the column of every slot number the backend can write. */
  lemma ParseSlotNumber(row: int, column: nat)
    requires row >= 1
    ensures ParseSlot(SlotNumber(row, column)) == ParsedSlot(RowLabel(row), column)
  {
    ValueOfLabel(row);
    ValueOfDecimal(column);
    var letters, digits := RowLabel(row), Decimal(column);
    LetterCountOfSlot(letters, digits);
    assert (letters + digits)[..|letters|] == letters && (letters + digits)[|letters|..] == digits;
  }

  /** Different cells have different numbers. */
  lemma SlotNumberInjective(row: int, column: nat, otherRow: int, otherColumn: nat)
    requires row >= 1 && otherRow >= 1
    requires SlotNumber(row, column) == SlotNumber(otherRow, otherColumn)
    ensures row == otherRow && column == otherColumn
  {
    ParseSlotNumber(row, column);
    ParseSlotNumber(otherRow, otherColumn);
    ValueOfLabel(row);
    ValueOfLabel(otherRow);
  }

  /** The frontend's order of two slots: by row label, then by column. */
  function DisplayOrder(a: string, b: string): int {
    var p, q := ParseSlot(a), ParseSlot(b);
    if RowSort(p.row, q.row) != 0 then RowSort(p.row, q.row) else p.col - q.col
  }

  /** The grid is displayed in row-major order of its cells. */
  lemma DisplayIsRowMajor(row: int, column: nat, otherRow: int, otherColumn: nat)
    requires row >= 1 && otherRow >= 1
    ensures SameSign(DisplayOrder(SlotNumber(row, column), SlotNumber(otherRow, otherColumn)),
                     if row != otherRow then row - otherRow else column - otherColumn)
  {
    ParseSlotNumber(row, column);
    ParseSlotNumber(otherRow, otherColumn);
    LabelsInOrder(row, otherRow);
    ParsedOrder(SlotNumber(row, column), SlotNumber(otherRow, otherColumn),
                RowLabel(row), column, RowLabel(otherRow), otherColumn);
  }

  lemma LabelsInOrder(row: nat, otherRow: nat)
    ensures SameSign(RowSort(RowLabel(row), RowLabel(otherRow)), row - otherRow)
  {
    ValueOfLabel(row);
    ValueOfLabel(otherRow);
    RowSortIsValueOrder(RowLabel(row), RowLabel(otherRow));
  }

  lemma ParsedOrder(a: string, b: string, row: string, column: nat, otherRow: string, otherColumn: nat)
    requires ParseSlot(a) == ParsedSlot(row, column) && ParseSlot(b) == ParsedSlot(otherRow, otherColumn)
    ensures DisplayOrder(a, b) == if RowSort(row, otherRow) != 0 then RowSort(row, otherRow) else column - otherColumn
  {
  }
}
