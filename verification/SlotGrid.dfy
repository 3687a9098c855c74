/** The slot numbers of a floor: the cells of its rows x columns grid, once each. */
module SlotGrid {
  import opened Collections
  import opened RowLabels

  /** `number` names a cell of the grid. */
  predicate InGrid(number: string, rows: int, columns: int) {
    exists row, column :: 1 <= row <= rows && 1 <= column <= columns && number == SlotNumber(row, column)
  }

  predicate InRow(number: string, row: int, columns: int)
    requires row >= 1
  {
    exists column :: 1 <= column <= columns && number == SlotNumber(row, column)
  }

  /** The cells (row, 1) to (row, columns). */
  function RowNumbers(row: int, columns: int): seq<string> {
    if columns <= 0 then [] else RowNumbers(row, columns - 1) + [SlotNumber(row, columns)]
  }

  /** All cells, row by row. */
  function GridNumbers(rows: int, columns: int): seq<string> {
    if rows <= 0 then [] else GridNumbers(rows - 1, columns) + RowNumbers(rows, columns)
  }

  lemma {:induction false} RowCells(row: int, columns: int)
    requires row >= 1 && columns >= 0
    ensures |RowNumbers(row, columns)| == columns
    ensures forall number :: number in RowNumbers(row, columns) <==> InRow(number, row, columns)
    ensures Distinct(RowNumbers(row, columns))
  {
    if columns > 0 {
      RowCells(row, columns - 1);
      var most, last := RowNumbers(row, columns - 1), SlotNumber(row, columns);
      if last in most {
        var column :| 1 <= column <= columns - 1 && last == SlotNumber(row, column);
        SlotNumberInjective(row, columns, row, column);
      }
      forall number
        ensures number in most + [last] <==> InRow(number, row, columns)
      {
        if InRow(number, row, columns) {
          var column :| 1 <= column <= columns && number == SlotNumber(row, column);
          assert column < columns ==> InRow(number, row, columns - 1);
        }
      }
    }
  }

  lemma LastRow(number: string, rows: int, columns: int)
    requires rows >= 1
    ensures InGrid(number, rows, columns) <==> InGrid(number, rows - 1, columns) || InRow(number, rows, columns)
    ensures !(InGrid(number, rows - 1, columns) && InRow(number, rows, columns))
  {
    if InGrid(number, rows, columns) {
      var row, column :| 1 <= row <= rows && 1 <= column <= columns && number == SlotNumber(row, column);
      assert row <= rows - 1 ==> InGrid(number, rows - 1, columns);
    }
    if InGrid(number, rows - 1, columns) && InRow(number, rows, columns) {
      var row, column :| 1 <= row <= rows - 1 && 1 <= column <= columns && number == SlotNumber(row, column);
      var other :| 1 <= other <= columns && number == SlotNumber(rows, other);
      SlotNumberInjective(row, column, rows, other);
    }
  }

  lemma {:induction false} GridSize(rows: int, columns: int)
    requires rows >= 0 && columns >= 0
    ensures |GridNumbers(rows, columns)| == rows * columns
  {
    if rows > 0 {
      GridSize(rows - 1, columns);
      RowCells(rows, columns);
      assert rows * columns == (rows - 1) * columns + columns;
    }
  }

  lemma {:induction false} GridMembers(number: string, rows: int, columns: int)
    requires rows >= 0 && columns >= 0
    ensures number in GridNumbers(rows, columns) <==> InGrid(number, rows, columns)
  {
    if rows > 0 {
      GridMembers(number, rows - 1, columns);
      RowCells(rows, columns);
      LastRow(number, rows, columns);
    }
  }

  lemma NotInLastRow(number: string, rows: int, columns: int)
    requires rows >= 1 && columns >= 0 && number in GridNumbers(rows - 1, columns)
    ensures number !in RowNumbers(rows, columns)
  {
    GridMembers(number, rows - 1, columns);
    LastRow(number, rows, columns);
    RowMembers(number, rows, columns);
  }

  lemma RowMembers(number: string, row: int, columns: int)
    requires row >= 1 && columns >= 0
    ensures number in RowNumbers(row, columns) <==> InRow(number, row, columns)
  {
    RowCells(row, columns);
  }

  lemma {:induction false} GridDistinct(rows: int, columns: int)
    requires rows >= 0 && columns >= 0
    ensures Distinct(GridNumbers(rows, columns))
  {
    if rows > 0 {
      var most, last := GridNumbers(rows - 1, columns), RowNumbers(rows, columns);
      GridDistinct(rows - 1, columns);
      RowCells(rows, columns);
      forall number | number in most
        ensures number !in last
      {
        NotInLastRow(number, rows, columns);
      }
      DistinctJoin(most, last);
    }
  }

  /** The generated numbers are exactly the cells of the grid, rows * columns of them, none twice. */
  lemma GridCells(rows: int, columns: int)
    requires rows >= 0 && columns >= 0
    ensures |GridNumbers(rows, columns)| == rows * columns
    ensures forall number :: number in GridNumbers(rows, columns) <==> InGrid(number, rows, columns)
    ensures Distinct(GridNumbers(rows, columns))
  {
    GridSize(rows, columns);
    GridDistinct(rows, columns);
    forall number
      ensures number in GridNumbers(rows, columns) <==> InGrid(number, rows, columns)
    {
      GridMembers(number, rows, columns);
    }
  }

  lemma DistinctJoin<T>(a: seq<T>, b: seq<T>)
    requires Distinct(a) && Distinct(b) && forall x :: x in a ==> x !in b
    ensures Distinct(a + b)
  {
    forall i, j | 0 <= i < j < |a + b|
      ensures (a + b)[i] != (a + b)[j]
    {
      if i < |a| <= j {
        assert a[i] in a && b[j - |a|] in b;
      }
    }
  }

  /** The first and the last cell, by name. */
  lemma Corners(rows: int, columns: int)
    requires rows >= 1 && columns >= 1
    ensures "A1" in GridNumbers(rows, columns) && RowLabel(rows) + Decimal(columns) in GridNumbers(rows, columns)
  {
    KnownLabels();
    assert Decimal(1) == "1" && SlotNumber(1, 1) == "A1";
    assert InGrid(SlotNumber(1, 1), rows, columns) && InGrid(SlotNumber(rows, columns), rows, columns);
    GridMembers(SlotNumber(1, 1), rows, columns);
    GridMembers(SlotNumber(rows, columns), rows, columns);
  }

  /** A larger grid has all cells of a smaller one, and shares only the common rectangle with any other. */
  lemma CommonRectangle(number: string, rows: int, columns: int, newRows: int, newColumns: int)
    ensures InGrid(number, rows, columns) && InGrid(number, newRows, newColumns)
       <==> InGrid(number, if rows < newRows then rows else newRows,
                   if columns < newColumns then columns else newColumns)
  {
    if InGrid(number, rows, columns) && InGrid(number, newRows, newColumns) {
      var row, column :| 1 <= row <= rows && 1 <= column <= columns && number == SlotNumber(row, column);
      var row', column' :| 1 <= row' <= newRows && 1 <= column' <= newColumns && number == SlotNumber(row', column');
      SlotNumberInjective(row, column, row', column');
    }
  }

  /** Some cell is new exactly if the grid grows in one of the two directions. */
  lemma NewCellsIffGrowing(rows: int, columns: int, newRows: int, newColumns: int)
    requires rows >= 1 && columns >= 1 && newRows >= 1 && newColumns >= 1
    ensures (exists number :: InGrid(number, newRows, newColumns) && !InGrid(number, rows, columns))
       <==> (newRows > rows || newColumns > columns)
  {
    if newRows > rows || newColumns > columns {
      var number := SlotNumber(newRows, newColumns);
      assert InGrid(number, newRows, newColumns);
      if InGrid(number, rows, columns) {
        var row, column :| 1 <= row <= rows && 1 <= column <= columns && number == SlotNumber(row, column);
        SlotNumberInjective(newRows, newColumns, row, column);
      }
    }
  }

  /** The numbers of the rows above `row` and of the cells left of `column` in it. */
  function CellsBefore(row: int, column: int, columns: int): seq<string> {
    GridNumbers(row - 1, columns) + RowNumbers(row, column - 1)
  }

  lemma NextCell(row: int, column: int, columns: int)
    requires 1 <= row && 1 <= column <= columns
    ensures CellsBefore(row, column + 1, columns) == CellsBefore(row, column, columns) + [SlotNumber(row, column)]
    ensures column == columns ==> CellsBefore(row, column + 1, columns) == GridNumbers(row, columns)
  {
    JoinAssociates(GridNumbers(row - 1, columns), RowNumbers(row, column - 1), [SlotNumber(row, column)]);
  }

  /** `buildSlotGridNumbers`: a JavaScript set keeps its elements in insertion order. */
  method BuildSlotGridNumbers(rows: int, columns: int) returns (numbers: seq<string>)
    requires rows >= 1 && columns >= 1
    ensures numbers == GridNumbers(rows, columns)
  {
    numbers := [];
    var row := 1;
    while row <= rows
      invariant 1 <= row <= rows + 1 && numbers == GridNumbers(row - 1, columns)
    {
      var rowLetters := BuildRowLabel(row);
      var col := 1;
      while col <= columns
        invariant 1 <= col <= columns + 1
        invariant numbers == CellsBefore(row, col, columns)
      {
        var number := rowLetters + Decimal(col);
        NextIsNew(row, col, columns);
        NextCell(row, col, columns);
        if number !in numbers {
          numbers := numbers + [number];
        }
        col := col + 1;
      }
      row := row + 1;
    }
  }

  lemma NextIsNew(row: int, col: int, columns: int)
    requires row >= 1 && 1 <= col <= columns
    ensures SlotNumber(row, col) !in CellsBefore(row, col, columns)
  {
    var number := SlotNumber(row, col);
    GridCells(row - 1, columns);
    RowCells(row, col - 1);
    if number in GridNumbers(row - 1, columns) {
      var r, c :| 1 <= r <= row - 1 && 1 <= c <= columns && number == SlotNumber(r, c);
      SlotNumberInjective(row, col, r, c);
    }
    if number in RowNumbers(row, col - 1) {
      var c :| 1 <= c <= col - 1 && number == SlotNumber(row, c);
      SlotNumberInjective(row, col, row, c);
    }
  }
}
