/**
 * Vocabulary shared by both variants of the flower game: a 6×6 board kept as
 * 36 cells in row-major order (`index = row * 6 + col`), the four flower
 * symbols, lines (rows and columns) of the board, and the exchange of two cells.
 */
module Board {

  /** Number of cells in one row or one column. */
  const Side: nat := 6

  /** Number of cells on the board. */
  const CellCount: nat := 36

  datatype Option<T> = None | Some(value: T)

  /** The four flower symbols of the game. */
  datatype Flower = Rose | Tulip | Sunflower | Maple

  /** The text of a cell: empty, or one flower. */
  datatype Cell = Empty | Bloom(flower: Flower)

  /** The direction a line of the board runs in. */
  datatype Axis = Horizontal | Vertical

  /** `Math.abs`. */
  function Abs(x: int): (r: nat)
    ensures r == x || r == -x
  {
    if x < 0 then -x else x
  }

  /** Row of a board index (`Math.floor(index / 6)`). */
  function RowOf(index: nat): (row: nat)
    requires index < CellCount
    ensures row < Side
  {
    index / Side
  }

  /** Column of a board index (`index % 6`). */
  function ColOf(index: nat): (col: nat)
    requires index < CellCount
    ensures col < Side
  {
    index % Side
  }

  /**
   * Board index of the `k`-th cell of a line: along a row `line * 6 + k`,
   * down a column `k * 6 + line`.
   */
  function Pos(axis: Axis, line: nat, k: nat): (index: nat)
    requires line < Side && k < Side
    ensures index < CellCount
  {
    match axis
    case Horizontal => line * Side + k
    case Vertical => k * Side + line
  }

  /** The line of `axis` that passes through a board index. */
  function LineThrough(axis: Axis, index: nat): (line: nat)
    requires index < CellCount
    ensures line < Side
  {
    if axis.Horizontal? then RowOf(index) else ColOf(index)
  }

  /** Position of a board index within its line of `axis`. */
  function OffsetIn(axis: Axis, index: nat): (k: nat)
    requires index < CellCount
    ensures k < Side
    ensures Pos(axis, LineThrough(axis, index), k) == index
  {
    if axis.Horizontal? then ColOf(index) else RowOf(index)
  }

  /** A line's `k`-th cell lies on that line, at offset `k`. */
  lemma PosInverse(axis: Axis, line: nat, k: nat)
    requires line < Side && k < Side
    ensures LineThrough(axis, Pos(axis, line, k)) == line
    ensures OffsetIn(axis, Pos(axis, line, k)) == k
  {
  }

  /** The six cells of row or column `line` of board `b`, in scan order. */
  function LineOf<T>(b: seq<T>, axis: Axis, line: nat): (s: seq<T>)
    requires |b| == CellCount && line < Side
    ensures |s| == Side
    ensures forall k :: 0 <= k < Side ==> s[k] == b[Pos(axis, line, k)]
  {
    seq(Side, k requires 0 <= k < Side => b[Pos(axis, line, k)])
  }

  /** `s` with the values at `i` and `j` exchanged. */
  function Swapped<T>(s: seq<T>, i: nat, j: nat): (r: seq<T>)
    requires i < |s| && j < |s|
    ensures |r| == |s|
    ensures r[i] == s[j] && r[j] == s[i]
    ensures forall k :: 0 <= k < |s| && k != i && k != j ==> r[k] == s[k]
    ensures multiset(r) == multiset(s)
  {
    s[i := s[j]][j := s[i]]
  }

  /** Exchanging the same two cells twice restores the board. */
  lemma SwapTwiceRestores<T>(s: seq<T>, i: nat, j: nat)
    requires i < |s| && j < |s|
    ensures Swapped(Swapped(s, i, j), i, j) == s
  {
    var r := Swapped(Swapped(s, i, j), i, j);
    assert forall k :: 0 <= k < |s| ==> r[k] == s[k];
  }

  /** The exchange does not depend on the order of the two cells. */
  lemma SwapSymmetric<T>(s: seq<T>, i: nat, j: nat)
    requires i < |s| && j < |s|
    ensures Swapped(s, i, j) == Swapped(s, j, i)
  {
    var r, r' := Swapped(s, i, j), Swapped(s, j, i);
    assert forall k :: 0 <= k < |s| ==> r[k] == r'[k];
  }

  /**
   * Outcomes of `Math.floor(Math.random() * 4)`, one per cell: the index of
   * the flower a cell receives when the game draws a fresh flower for it.
   */
  predicate ValidDraws(draws: seq<nat>)
  {
    |draws| == CellCount && forall i :: 0 <= i < CellCount ==> draws[i] < 4
  }
}
