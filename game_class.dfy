/**
 * The `Game` class of script.js: a two-click selection, a swap of two
 * row/column neighbours, a scan that collects every cell of a run of three or
 * more equal flowers and scores every scan start separately, and the
 * replacement of every collected cell by a freshly drawn flower.
 */
module GameClass {
  import opened Board

  /** `this.flowers`, in script.js's order. */
  const Flowers: seq<Flower> := [Rose, Tulip, Sunflower, Maple]

  /** Seconds on the clock when a game starts. */
  const GameTime: int := 45

  // ---------------------------------------------------------------------
  // isAdjacent
  // ---------------------------------------------------------------------

  /** Row distance plus column distance of the two indices is exactly one. */
  predicate IsAdjacent(index1: nat, index2: nat)
  {
    Abs(index1 / Side - index2 / Side) + Abs(index1 % Side - index2 % Side) == 1
  }

  lemma IsAdjacentSymmetric(index1: nat, index2: nat)
    ensures IsAdjacent(index1, index2) == IsAdjacent(index2, index1)
  {
  }

  lemma IsAdjacentIrreflexive(index: nat)
    ensures !IsAdjacent(index, index)
  {
  }

  /**
   * Adjacency in index terms: the next cell in the same row, or the cell
   * directly below; a row's last cell and the next row's first are not
   * adjacent.
   */
  lemma IsAdjacentExactly(index1: nat, index2: nat)
    ensures IsAdjacent(index1, index2) <==>
      (index2 == index1 + 1 && index1 % Side != Side - 1) ||
      (index1 == index2 + 1 && index2 % Side != Side - 1) ||
      index2 == index1 + Side || index1 == index2 + Side
  {
    var r1, c1 := index1 / Side, index1 % Side;
    var r2, c2 := index2 / Side, index2 % Side;
    assert index1 == r1 * Side + c1 && index2 == r2 * Side + c2;
  }

  lemma RowEndNotAdjacentToNextRowStart()
    ensures !IsAdjacent(5, 6) && !IsAdjacent(11, 12)
  {
  }

  // ---------------------------------------------------------------------
  // Specification of checkMatches
  // ---------------------------------------------------------------------

  /**
   * How many cells of `s` from `start` on equal `s[start]`, without a gap:
   * the `matchLength` that checkMatches measures from one scan start.
   */
  function RunFrom(s: seq<Flower>, start: nat): (n: nat)
    requires start < |s|
    ensures 1 <= n <= |s| - start
    decreases |s| - start
  {
    if start + 1 == |s| || s[start + 1] != s[start] then 1 else 1 + RunFrom(s, start + 1)
  }

  /** The `len` cells of `s` from `from` on all hold the same flower. */
  ghost predicate Uniform(s: seq<Flower>, from: nat, len: nat)
    requires from + len <= |s|
  {
    forall k :: from <= k < from + len ==> s[k] == s[from]
  }

  /** Cell `k` of line `s` lies in a run of at least three equal flowers. */
  ghost predicate InRun(s: seq<Flower>, k: nat)
  {
    exists from: nat, len: nat ::
      3 <= len && from + len <= |s| && from <= k < from + len && Uniform(s, from, len)
  }

  /** Cell `index` lies in a run of at least three along its row or its column. */
  ghost predicate InMatch(b: seq<Flower>, index: nat)
    requires |b| == CellCount && index < CellCount
  {
    InRun(LineOf(b, Horizontal, RowOf(index)), ColOf(index)) ||
    InRun(LineOf(b, Vertical, ColOf(index)), RowOf(index))
  }

  /**
   * The measured run is a run of equal flowers, and it stops only at the end
   * of the line or at a different flower.
   */
  lemma {:induction false} RunFromSpec(s: seq<Flower>, start: nat)
    requires start < |s|
    ensures Uniform(s, start, RunFrom(s, start))
    ensures start + RunFrom(s, start) < |s| ==> s[start + RunFrom(s, start)] != s[start]
    decreases |s| - start
  {
    if start + 1 < |s| && s[start + 1] == s[start] {
      RunFromSpec(s, start + 1);
    }
  }

  /** A run covering `len` cells from `from` on makes the measured length at least `len`. */
  lemma RunFromCovers(s: seq<Flower>, from: nat, len: nat)
    requires 0 < len && from + len <= |s| && Uniform(s, from, len)
    ensures RunFrom(s, from) >= len
  {
    RunFromSpec(s, from);
  }

  /** Points `updateScore` adds for a run of the given length. */
  function ScoreIncrement(matchLength: int): (points: int)
    ensures 0 <= points <= 300
    ensures points > 0 <==> 3 <= matchLength <= 5
    ensures 3 <= matchLength <= 5 ==> points == 100 * (matchLength - 2)
  {
    match matchLength
    case 3 => 100
    case 4 => 200
    case 5 => 300
    case _ => 0
  }

  /** Score from the scan start `start` of line `s` (zero below three). */
  function StartPoints(s: seq<Flower>, start: nat): (points: int)
    requires |s| == Side && start < Side
    ensures points >= 0
  {
    var n := RunFrom(s, start);
    if n >= 3 then ScoreIncrement(n) else 0
  }

  /** Score from the first `upTo` scan starts of line `s`. */
  function LinePoints(s: seq<Flower>, upTo: nat): (points: int)
    requires |s| == Side && upTo <= Side - 2
    ensures points >= 0
  {
    if upTo == 0 then 0 else LinePoints(s, upTo - 1) + StartPoints(s, upTo - 1)
  }

  /** Score from the first `lines` lines of `axis` (each scanned from starts 0..3). */
  function AxisScore(b: seq<Flower>, axis: Axis, lines: nat): (points: int)
    requires |b| == CellCount && lines <= Side
    ensures points >= 0
  {
    if lines == 0 then 0
    else AxisScore(b, axis, lines - 1) + LinePoints(LineOf(b, axis, lines - 1), Side - 2)
  }

  /** Everything one call of checkMatches adds to the score on board `b`. */
  function ScanScore(b: seq<Flower>): (points: int)
    requires |b| == CellCount
    ensures points >= 0
  {
    AxisScore(b, Horizontal, Side) + AxisScore(b, Vertical, Side)
  }

  /** Board indices of cells `from .. from + len - 1` of a line. */
  function RunCells(axis: Axis, line: nat, from: nat, len: nat): set<int>
    requires line < Side && from + len <= Side
  {
    if len == 0 then {} else RunCells(axis, line, from, len - 1) + {Pos(axis, line, from + len - 1)}
  }

  /** Indices collected from scan start `start` of a line. */
  function StartMarks(b: seq<Flower>, axis: Axis, line: nat, start: nat): set<int>
    requires |b| == CellCount && line < Side && start < Side
  {
    var n := RunFrom(LineOf(b, axis, line), start);
    if n >= 3 then RunCells(axis, line, start, n) else {}
  }

  /** Indices collected from the first `upTo` scan starts of a line. */
  function LineMarks(b: seq<Flower>, axis: Axis, line: nat, upTo: nat): set<int>
    requires |b| == CellCount && line < Side && upTo <= Side - 2
  {
    if upTo == 0 then {} else LineMarks(b, axis, line, upTo - 1) + StartMarks(b, axis, line, upTo - 1)
  }

  /** Indices collected from the first `lines` lines of `axis`. */
  function AxisMarks(b: seq<Flower>, axis: Axis, lines: nat): set<int>
    requires |b| == CellCount && lines <= Side
  {
    if lines == 0 then {} else AxisMarks(b, axis, lines - 1) + LineMarks(b, axis, lines - 1, Side - 2)
  }

  /** The `matched` set of one call of checkMatches on board `b`. */
  function Matched(b: seq<Flower>): set<int>
    requires |b| == CellCount
  {
    AxisMarks(b, Horizontal, Side) + AxisMarks(b, Vertical, Side)
  }

  /** Board `b` after every cell in `m` received the flower drawn for it. */
  function Replaced(b: seq<Flower>, m: set<int>, draws: seq<nat>): (r: seq<Flower>)
    requires |b| == CellCount && ValidDraws(draws)
    ensures |r| == CellCount
    ensures forall i :: 0 <= i < CellCount && i !in m ==> r[i] == b[i]
    ensures forall i :: 0 <= i < CellCount && i in m ==> r[i] == Flowers[draws[i]]
  {
    seq(CellCount, i requires 0 <= i < CellCount => if i in m then Flowers[draws[i]] else b[i])
  }

  /** A fresh board from one draw per cell (createBoard). */
  function NewBoard(draws: seq<nat>): (b: seq<Flower>)
    requires ValidDraws(draws)
    ensures |b| == CellCount
    ensures forall i :: 0 <= i < CellCount ==> b[i] == Flowers[draws[i]]
  {
    seq(CellCount, i requires 0 <= i < CellCount => Flowers[draws[i]])
  }

  // ---------------------------------------------------------------------
  // Properties of the scan
  // ---------------------------------------------------------------------

  lemma {:induction false} RunCellsMembers(axis: Axis, line: nat, from: nat, len: nat, x: int)
    requires line < Side && from + len <= Side
    ensures x in RunCells(axis, line, from, len) <==>
      0 <= x < CellCount && LineThrough(axis, x) == line && from <= OffsetIn(axis, x) < from + len
  {
    if len > 0 {
      RunCellsMembers(axis, line, from, len - 1, x);
      PosInverse(axis, line, from + len - 1);
      if 0 <= x < CellCount && LineThrough(axis, x) == line && OffsetIn(axis, x) == from + len - 1 {
        assert x == Pos(axis, line, from + len - 1);
      }
    }
  }

  /** Every index collected from a line lies in a run of three or more of that line. */
  lemma {:induction false} LineMarksSound(b: seq<Flower>, axis: Axis, line: nat, upTo: nat, x: int)
    requires |b| == CellCount && line < Side && upTo <= Side - 2
    requires x in LineMarks(b, axis, line, upTo)
    ensures 0 <= x < CellCount && LineThrough(axis, x) == line
    ensures InRun(LineOf(b, axis, line), OffsetIn(axis, x))
  {
    if x in LineMarks(b, axis, line, upTo - 1) {
      LineMarksSound(b, axis, line, upTo - 1, x);
    } else {
      var s := LineOf(b, axis, line);
      var start := upTo - 1;
      var n := RunFrom(s, start);
      RunCellsMembers(axis, line, start, n, x);
      RunFromSpec(s, start);
      assert 3 <= n && start <= OffsetIn(axis, x) < start + n && Uniform(s, start, n);
    }
  }

  lemma {:induction false} LineMarksGrow(b: seq<Flower>, axis: Axis, line: nat, upTo: nat, upTo': nat)
    requires |b| == CellCount && line < Side && upTo <= upTo' <= Side - 2
    ensures LineMarks(b, axis, line, upTo) <= LineMarks(b, axis, line, upTo')
  {
    if upTo < upTo' {
      LineMarksGrow(b, axis, line, upTo, upTo' - 1);
    }
  }

  /** Every cell in a run of three or more of a line is collected from that line. */
  lemma LineMarksComplete(b: seq<Flower>, axis: Axis, line: nat, k: nat)
    requires |b| == CellCount && line < Side && k < Side
    requires InRun(LineOf(b, axis, line), k)
    ensures Pos(axis, line, k) in LineMarks(b, axis, line, Side - 2)
  {
    var s := LineOf(b, axis, line);
    var from: nat, len: nat :|
      3 <= len && from + len <= |s| && from <= k < from + len && Uniform(s, from, len);
    RunFromCovers(s, from, len);
    var n := RunFrom(s, from);
    PosInverse(axis, line, k);
    RunCellsMembers(axis, line, from, n, Pos(axis, line, k));
    assert Pos(axis, line, k) in StartMarks(b, axis, line, from);
    LineMarksGrow(b, axis, line, from + 1, Side - 2);
  }

  /** Every index collected from the first `lines` lines lies in a run of its line. */
  lemma {:induction false} AxisMarksSound(b: seq<Flower>, axis: Axis, lines: nat, x: int)
    requires |b| == CellCount && lines <= Side
    requires x in AxisMarks(b, axis, lines)
    ensures 0 <= x < CellCount && LineThrough(axis, x) < lines
    ensures InRun(LineOf(b, axis, LineThrough(axis, x)), OffsetIn(axis, x))
  {
    if x in LineMarks(b, axis, lines - 1, Side - 2) {
      LineMarksSound(b, axis, lines - 1, Side - 2, x);
    } else {
      AxisMarksSound(b, axis, lines - 1, x);
    }
  }

  /** Every cell in a run of one of the first `lines` lines is collected. */
  lemma {:induction false} AxisMarksComplete(b: seq<Flower>, axis: Axis, lines: nat, x: int)
    requires |b| == CellCount && lines <= Side
    requires 0 <= x < CellCount && LineThrough(axis, x) < lines
    requires InRun(LineOf(b, axis, LineThrough(axis, x)), OffsetIn(axis, x))
    ensures x in AxisMarks(b, axis, lines)
  {
    var line, k := LineThrough(axis, x), OffsetIn(axis, x);
    if line == lines - 1 {
      LineMarksComplete(b, axis, line, k);
      assert x == Pos(axis, line, k);
    } else {
      AxisMarksComplete(b, axis, lines - 1, x);
    }
  }

  /**
   * Soundness and completeness of the scan: a cell is collected exactly when
   * it lies in a run of three or more equal flowers along its row or column.
   */
  lemma MatchedExactly(b: seq<Flower>)
    requires |b| == CellCount
    ensures forall x :: x in Matched(b) <==> 0 <= x < CellCount && InMatch(b, x)
  {
    forall x
      ensures x in Matched(b) <==> 0 <= x < CellCount && InMatch(b, x)
    {
      if x in AxisMarks(b, Horizontal, Side) {
        AxisMarksSound(b, Horizontal, Side, x);
      }
      if x in AxisMarks(b, Vertical, Side) {
        AxisMarksSound(b, Vertical, Side, x);
      }
      if 0 <= x < CellCount && InRun(LineOf(b, Horizontal, RowOf(x)), ColOf(x)) {
        AxisMarksComplete(b, Horizontal, Side, x);
      }
      if 0 <= x < CellCount && InRun(LineOf(b, Vertical, ColOf(x)), RowOf(x)) {
        AxisMarksComplete(b, Vertical, Side, x);
      }
    }
  }

  lemma ReplaceNothing(b: seq<Flower>, draws: seq<nat>)
    requires |b| == CellCount && ValidDraws(draws)
    ensures Replaced(b, {}, draws) == b
  {
    var r := Replaced(b, {}, draws);
    assert forall i :: 0 <= i < CellCount ==> r[i] == b[i];
  }

  lemma MatchedInRange(b: seq<Flower>)
    requires |b| == CellCount
    ensures forall x :: x in Matched(b) ==> 0 <= x < CellCount
  {
    MatchedExactly(b);
  }

  /** With nothing collected the replacement leaves the board as it was. */
  lemma NothingMatchedNothingReplaced(b: seq<Flower>, draws: seq<nat>)
    requires |b| == CellCount && ValidDraws(draws)
    requires forall x :: 0 <= x < CellCount ==> !InMatch(b, x)
    ensures Replaced(b, Matched(b), draws) == b
  {
    MatchedExactly(b);
    var r := Replaced(b, Matched(b), draws);
    assert forall i :: 0 <= i < CellCount ==> r[i] == b[i];
  }

  /**
   * A run of exactly four is scored twice: from its first cell as a four
   * (200) and from its second cell as a three (100).
   */
  lemma RunOfFourScoresTwice(s: seq<Flower>, from: nat)
    requires |s| == Side && from + 4 <= Side
    requires Uniform(s, from, 4)
    requires from + 4 == Side || s[from + 4] != s[from]
    ensures RunFrom(s, from) == 4 && RunFrom(s, from + 1) == 3
    ensures StartPoints(s, from) + StartPoints(s, from + 1) == 300
  {
    RunFromSpec(s, from);
    RunFromSpec(s, from + 1);
  }

  /** A row or column of six equal flowers earns 0 + 300 + 200 + 100. */
  lemma FullLineScore(s: seq<Flower>)
    requires |s| == Side && Uniform(s, 0, Side)
    ensures RunFrom(s, 0) == 6 && StartPoints(s, 0) == 0
    ensures LinePoints(s, Side - 2) == 600
  {
    forall start | 0 <= start < Side - 2
      ensures RunFrom(s, start) == Side - start
    {
      RunFromCovers(s, start, Side - start);
    }
    assert StartPoints(s, 0) == 0 && StartPoints(s, 1) == 300;
    assert StartPoints(s, 2) == 200 && StartPoints(s, 3) == 100;
    assert LinePoints(s, 1) == 0;
    assert LinePoints(s, 2) == 300;
    assert LinePoints(s, 3) == 500;
  }

  // ---------------------------------------------------------------------
  // The inner scan loop (script.js lines 92-98 and 114-120)
  // ---------------------------------------------------------------------

  /** Length of the run of equal flowers from cell `start` of a line. */
  method MatchLength(line: seq<Flower>, start: nat) returns (matchLength: nat)
    requires |line| == Side && start < Side
    ensures matchLength == RunFrom(line, start)
  {
    var flower := line[start];
    matchLength := 1;
    var i := 1;
    while i < Side - start
      invariant 1 <= i <= Side - start
      invariant matchLength == i
      invariant forall k :: start <= k < start + i ==> line[k] == flower
    {
      if line[start + i] == flower {
        matchLength := matchLength + 1;
      } else {
        break;
      }
      i := i + 1;
    }
    assert Uniform(line, start, matchLength);
    RunFromSpec(line, start);
  }

  // ---------------------------------------------------------------------
  // The game object
  // ---------------------------------------------------------------------

  class Game {
    /** Texts of the 36 board cells, in row-major order. */
    var cells: array<Flower>
    var score: int
    var timeLeft: int
    var isPlaying: bool
    /** Index of the cell selected by the first click, if any. */
    var selectedCell: Option<nat>

    ghost predicate Valid()
      reads this
    {
      cells.Length == CellCount && (selectedCell.Some? ==> selectedCell.value < CellCount)
    }

    /**
     * A new game object. No board exists before the first start; the model
     * holds a placeholder board, out of reach because clicks are ignored
     * until `isPlaying` is set.
     */
    constructor ()
      ensures Valid() && fresh(cells)
      ensures score == 0 && timeLeft == GameTime && !isPlaying && selectedCell == None
    {
      cells := new Flower[CellCount](_ => Rose);
      score := 0;
      timeLeft := GameTime;
      isPlaying := false;
      selectedCell := None;
    }

    method UpdateScore(matchLength: int)
      modifies this`score
      ensures score == old(score) + ScoreIncrement(matchLength)
      ensures score >= old(score)
    {
      if matchLength == 3 {
        score := score + 100;
      } else if matchLength == 4 {
        score := score + 200;
      } else if matchLength == 5 {
        score := score + 300;
      }
    }

    method SwapCells(index1: nat, index2: nat)
      requires Valid() && index1 < CellCount && index2 < CellCount
      modifies cells
      ensures cells[..] == Swapped(old(cells[..]), index1, index2)
    {
      var temp := cells[index1];
      cells[index1] := cells[index2];
      cells[index2] := temp;
    }

    /** Adds the board indices of `len` cells of a line, from `start` on, to `matched`. */
    static method CollectRun(axis: Axis, line: nat, start: nat, len: nat, matched0: set<int>)
      returns (matched: set<int>)
      requires line < Side && start + len <= Side
      ensures matched == matched0 + RunCells(axis, line, start, len)
    {
      matched := matched0;
      var i := 0;
      while i < len
        invariant 0 <= i <= len
        invariant matched == matched0 + RunCells(axis, line, start, i)
      {
        matched := matched + {Pos(axis, line, start + i)};
        i := i + 1;
      }
    }

    /**
     * The body of the scan in checkMatches for one start of a row or column:
     * measure the run there, and when it is three or longer collect its
     * cells and score it.
     */
    method ScanStart(b: seq<Flower>, axis: Axis, line: nat, start: nat, matched0: set<int>)
      returns (matched: set<int>)
      requires |b| == CellCount && line < Side && start < Side
      modifies this`score
      ensures matched == matched0 + StartMarks(b, axis, line, start)
      ensures score == old(score) + StartPoints(LineOf(b, axis, line), start)
    {
      matched := matched0;
      var matchLength := MatchLength(LineOf(b, axis, line), start);
      if matchLength >= 3 {
        matched := CollectRun(axis, line, start, matchLength, matched);
        UpdateScore(matchLength);
      }
    }

    /** The scan of one row or column in checkMatches: starts 0 to 3. */
    method ScanLine(b: seq<Flower>, axis: Axis, line: nat, matched0: set<int>) returns (matched: set<int>)
      requires |b| == CellCount && line < Side
      modifies this`score
      ensures matched == matched0 + LineMarks(b, axis, line, Side - 2)
      ensures score == old(score) + LinePoints(LineOf(b, axis, line), Side - 2)
    {
      matched := matched0;
      var start := 0;
      while start < Side - 2
        invariant 0 <= start <= Side - 2
        invariant matched == matched0 + LineMarks(b, axis, line, start)
        invariant score == old(score) + LinePoints(LineOf(b, axis, line), start)
      {
        matched := ScanStart(b, axis, line, start, matched);
        start := start + 1;
      }
    }

    /** One direction of the scan in checkMatches: all six rows, or all six columns. */
    method ScanAxis(b: seq<Flower>, axis: Axis, matched0: set<int>) returns (matched: set<int>)
      requires |b| == CellCount
      modifies this`score
      ensures matched == matched0 + AxisMarks(b, axis, Side)
      ensures score == old(score) + AxisScore(b, axis, Side)
    {
      matched := matched0;
      var line := 0;
      while line < Side
        invariant 0 <= line <= Side
        invariant matched == matched0 + AxisMarks(b, axis, line)
        invariant score == old(score) + AxisScore(b, axis, line)
      {
        matched := ScanLine(b, axis, line, matched);
        assert AxisMarks(b, axis, line + 1) == AxisMarks(b, axis, line) + LineMarks(b, axis, line, Side - 2);
        assert AxisScore(b, axis, line + 1) == AxisScore(b, axis, line) + LinePoints(LineOf(b, axis, line), Side - 2);
        line := line + 1;
      }
    }

    /**
     * Gives every collected cell a freshly drawn flower. Each cell has its
     * own draw, so the order in which the set is visited does not matter;
     * the model visits it in index order.
     */
    method ReplaceMatched(matched: set<int>, draws: seq<nat>)
      requires Valid() && ValidDraws(draws)
      modifies cells
      ensures cells[..] == Replaced(old(cells[..]), matched, draws)
    {
      for index := 0 to CellCount
        invariant forall i :: 0 <= i < CellCount ==>
          cells[i] == if i in matched && i < index then Flowers[draws[i]] else old(cells[i])
      {
        if index in matched {
          cells[index] := Flowers[draws[index]];
        }
      }
      assert forall i :: 0 <= i < CellCount ==>
        cells[..][i] == Replaced(old(cells[..]), matched, draws)[i];
    }

    /**
     * Scans rows then columns, scoring every start whose run is three or
     * longer, then replaces every collected cell.
     */
    method CheckMatches(draws: seq<nat>)
      requires Valid() && ValidDraws(draws)
      modifies this`score, cells
      ensures Valid()
      ensures score == old(score) + ScanScore(old(cells[..]))
      ensures cells[..] == Replaced(old(cells[..]), Matched(old(cells[..])), draws)
    {
      var b := cells[..];
      var matched: set<int> := {};
      matched := ScanAxis(b, Horizontal, matched);
      matched := ScanAxis(b, Vertical, matched);
      assert matched == Matched(b);
      assert b == old(cells[..]);
      if matched != {} {
        ReplaceMatched(matched, draws);
        assert cells[..] == Replaced(b, Matched(b), draws);
      } else {
        ReplaceNothing(b, draws);
      }
    }

    /**
     * A click on the board. Ignored unless a game is running and the click
     * hit a cell (`target` is the clicked cell's index, None for a click
     * beside the cells). The first click selects; the second swaps and
     * rescans when the two cells are adjacent, and always deselects.
     */
    method HandleCellClick(target: Option<nat>, draws: seq<nat>)
      requires Valid() && ValidDraws(draws)
      requires target.Some? ==> target.value < CellCount
      modifies this`score, this`selectedCell, cells
      ensures Valid()
      ensures !old(isPlaying) || target.None? ==>
        cells[..] == old(cells[..]) && score == old(score) && selectedCell == old(selectedCell)
      ensures old(isPlaying) && target.Some? && old(selectedCell).None? ==>
        cells[..] == old(cells[..]) && score == old(score) && selectedCell == target
      ensures old(isPlaying) && target.Some? && old(selectedCell).Some? ==>
        selectedCell.None? &&
        var first, second := old(selectedCell).value, target.value;
        if IsAdjacent(first, second) then
          var swapped := Swapped(old(cells[..]), first, second);
          cells[..] == Replaced(swapped, Matched(swapped), draws) &&
          score == old(score) + ScanScore(swapped)
        else
          cells[..] == old(cells[..]) && score == old(score)
    {
      if !isPlaying {
        return;
      }
      if target.None? {
        return;
      }
      var cell := target.value;
      if selectedCell.None? {
        selectedCell := Some(cell);
      } else {
        var firstIndex := selectedCell.value;
        var secondIndex := cell;
        if IsAdjacent(firstIndex, secondIndex) {
          SwapCells(firstIndex, secondIndex);
          CheckMatches(draws);
        }
        selectedCell := None;
      }
    }

    /** Fills the board with one drawn flower per cell (createBoard). */
    method CreateBoard(draws: seq<nat>)
      requires Valid() && ValidDraws(draws)
      modifies cells
      ensures cells[..] == NewBoard(draws)
    {
      for i := 0 to CellCount
        invariant forall k :: 0 <= k < i ==> cells[k] == Flowers[draws[k]]
      {
        cells[i] := Flowers[draws[i]];
      }
      assert forall k :: 0 <= k < CellCount ==> cells[..][k] == NewBoard(draws)[k];
    }

    /**
     * Starts a game: score 0, 45 seconds, play on, a fresh board. The
     * selection is left as it was.
     */
    method StartGame(draws: seq<nat>)
      requires Valid() && ValidDraws(draws)
      modifies this`score, this`timeLeft, this`isPlaying, cells
      ensures Valid()
      ensures score == 0 && timeLeft == GameTime && isPlaying
      ensures cells[..] == NewBoard(draws)
    {
      score := 0;
      timeLeft := GameTime;
      isPlaying := true;
      CreateBoard(draws);
    }

    /** Ends a game: clicks are ignored from now on. */
    method EndGame()
      modifies this`isPlaying
      ensures !isPlaying
    {
      isPlaying := false;
    }
  }
}
