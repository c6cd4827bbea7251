/** The game board: nine cells in row-major order, each empty or holding one marker. */
module Board {

  datatype Option<T> = None | Some(value: T)

  /** The two markers a player can place. */
  datatype Marker = X | O

  /** A cell is empty (`null` in the original) or holds a marker. */
  type Cell = Option<Marker>

  /** Number of cells on the board. */
  const Size: nat := 9

  /** The board object. Its array is created once and then only written cell by cell. */
  class Gameboard {
    const cells: array<Cell>

    ghost predicate Valid() {
      cells.Length == Size
    }

    /** A fresh board: nine empty cells. */
    constructor ()
      ensures Valid() && fresh(cells)
      ensures cells[..] == seq(Size, _ => None)
    {
      cells := new Cell[Size](_ => None);
    }

    /** Hands out the board's own array, not a copy: writes through it change the board. */
    method GetBoard() returns (board: array<Cell>)
      ensures board == cells
    {
      board := cells;
    }

    /** Writes `marker` into one cell, with no check of what the cell held before.
        An index outside 0..8 stores the value outside the nine cells, so they keep
        their contents; such a write always carries a marker (it comes from a move). */
    method SetCell(cellIndex: int, marker: Cell)
      requires Valid()
      requires 0 <= cellIndex < Size || marker != None
      modifies cells
      ensures 0 <= cellIndex < Size ==> cells[..] == old(cells[..])[cellIndex := marker]
      ensures !(0 <= cellIndex < Size) ==> cells[..] == old(cells[..])
    {
      if 0 <= cellIndex < Size {
        cells[cellIndex] := marker;
      }
    }

    /** Copies `mockBoard` into the board cell by cell, from index 0 upwards;
        cells past the end of `mockBoard` keep what they held. */
    method SetBoard(mockBoard: seq<Cell>)
      requires Valid() && |mockBoard| <= Size
      modifies cells
      ensures cells[..] == mockBoard + old(cells[..])[|mockBoard|..]
      ensures forall i :: 0 <= i < |mockBoard| ==> cells[i] == mockBoard[i]
    {
      var cellIndex := 0;
      while cellIndex < |mockBoard|
        invariant 0 <= cellIndex <= |mockBoard|
        invariant forall i :: 0 <= i < cellIndex ==> cells[i] == mockBoard[i]
        invariant forall i :: cellIndex <= i < Size ==> cells[i] == old(cells[i])
      {
        SetCell(cellIndex, mockBoard[cellIndex]);
        cellIndex := cellIndex + 1;
      }
      assert cells[..] == mockBoard + old(cells[..])[|mockBoard|..];
    }
  }
}
