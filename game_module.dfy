/**
 * The module-level variant of the flower game (game.js). Its global state
 * (`score`, `timeLeft`, `selectedCell` and the 36 grid cells) is gathered in
 * class `Game`; a DOM cell is its position among the grid's children.
 *
 * Unlike the class variant, this one scores each maximal run of equal cells
 * once, decides swaps by index difference alone, and has a separate step
 * that fills empty cells.
 */
module GameModule {
  import opened Board

  /** `FLOWERS`, in this file's order. */
  const Flowers: seq<Flower> := [Tulip, Sunflower, Rose, Maple]

  /** `GAME_TIME`, in seconds. */
  const GameTime: int := 45

  /** `canSwap`: the two positions differ by one or by a full row. */
  predicate CanSwap(pos1: nat, pos2: nat)
  {
    Abs(pos1 - pos2) == 1 || Abs(pos1 - pos2) == Side
  }

  lemma CanSwapSymmetric(pos1: nat, pos2: nat)
    ensures CanSwap(pos1, pos2) == CanSwap(pos2, pos1)
  {
  }

  lemma CanSwapIrreflexive(pos: nat)
    ensures !CanSwap(pos, pos)
  {
  }

  /** A swap is allowed exactly with the neighbours at ±1 and ±6. */
  lemma CanSwapExactly(pos1: nat, pos2: nat)
    ensures CanSwap(pos1, pos2) <==>
      pos2 == pos1 + 1 || pos1 == pos2 + 1 || pos2 == pos1 + Side || pos1 == pos2 + Side
  {
  }

  /** The last cell of a row may be swapped with the first cell of the next row. */
  lemma CanSwapWrapsRows()
    ensures CanSwap(5, 6) && CanSwap(11, 12) && CanSwap(29, 30)
  {
  }

  /** `calculatePoints`: 100, 200 or 300 for a run of 3, 4 or 5 and nothing otherwise. */
  function CalculatePoints(count: int): (points: int)
    ensures 0 <= points <= 300
    ensures points > 0 <==> 3 <= count <= 5
    ensures 3 <= count <= 5 ==> points == 100 * (count - 2)
  {
    match count
    case 3 => 100
    case 4 => 200
    case 5 => 300
    case _ => 0
  }

  /** A run of six equal cells, the longest a line holds, is worth nothing. */
  lemma SixInARowScoresNothing()
    ensures CalculatePoints(6) == 0
  {
  }

  // ---------------------------------------------------------------------
  // Maximal runs of a line
  // ---------------------------------------------------------------------

  /** `length` consecutive cells equal to `symbol`. */
  datatype Run = Run(symbol: Cell, length: nat)

  function Repeat(symbol: Cell, n: nat): (r: seq<Cell>)
    ensures |r| == n
    ensures forall k :: 0 <= k < n ==> r[k] == symbol
  {
    seq(n, _ => symbol)
  }

  /** The runs of a line followed by one more cell `c`: the last run grows or a new one starts. */
  function Extend(runs: seq<Run>, c: Cell): (runs': seq<Run>)
    requires |runs| > 0
    ensures |runs'| > 0 && runs'[|runs'| - 1].symbol == c
  {
    var last := runs[|runs| - 1];
    if c == last.symbol then runs[..|runs| - 1] + [Run(c, last.length + 1)]
    else runs + [Run(c, 1)]
  }

  /** A cell equal to the last run's symbol lengthens that run; the runs before it stay. */
  lemma ExtendGrows(runs: seq<Run>, c: Cell)
    requires |runs| > 0 && c == runs[|runs| - 1].symbol
    ensures var runs' := Extend(runs, c);
      |runs'| == |runs| && runs'[..|runs'| - 1] == runs[..|runs| - 1] &&
      runs'[|runs'| - 1] == Run(c, runs[|runs| - 1].length + 1)
  {
  }

  /** Any other cell starts a new run after all the runs so far. */
  lemma ExtendStarts(runs: seq<Run>, c: Cell)
    requires |runs| > 0 && c != runs[|runs| - 1].symbol
    ensures var runs' := Extend(runs, c);
      |runs'| == |runs| + 1 && runs'[..|runs'| - 1] == runs && runs'[|runs'| - 1] == Run(c, 1)
  {
  }

  /** The runs of the first `n` cells of `s`. */
  function EncodePrefix(s: seq<Cell>, n: nat): (runs: seq<Run>)
    requires 0 < n <= |s|
    ensures |runs| > 0 && runs[|runs| - 1].symbol == s[n - 1]
  {
    if n == 1 then [Run(s[0], 1)] else Extend(EncodePrefix(s, n - 1), s[n - 1])
  }

  /** The runs of a line, left to right (maximal: see `EncodeMaximal`). */
  function Encode(s: seq<Cell>): (runs: seq<Run>)
    requires |s| > 0
    ensures |runs| > 0 && runs[|runs| - 1].symbol == s[|s| - 1]
  {
    EncodePrefix(s, |s|)
  }

  /** The cells a sequence of runs stands for. */
  function Expand(runs: seq<Run>): (s: seq<Cell>)
  {
    if runs == [] then []
    else
      var last := runs[|runs| - 1];
      Expand(runs[..|runs| - 1]) + Repeat(last.symbol, last.length)
  }

  /** Non-empty runs whose neighbours differ: the shape of a maximal decomposition. */
  predicate Maximal(runs: seq<Run>)
  {
    (forall k :: 0 <= k < |runs| ==> runs[k].length > 0) &&
    (forall k :: 0 < k < |runs| ==> runs[k - 1].symbol != runs[k].symbol)
  }

  lemma RepeatSnoc(symbol: Cell, n: nat)
    requires n > 0
    ensures Repeat(symbol, n) == Repeat(symbol, n - 1) + [symbol]
  {
  }

  /** A last run one cell longer expands to one more copy of its symbol. */
  lemma ExpandGrowsRun(init: seq<Run>, last: Run)
    ensures Expand(init + [Run(last.symbol, last.length + 1)]) ==
      Expand(init) + Repeat(last.symbol, last.length) + [last.symbol]
  {
    var symbol := last.symbol;
    var prefix, rep := Expand(init), Repeat(symbol, last.length);
    assert (init + [Run(symbol, last.length + 1)])[..|init|] == init;
    RepeatSnoc(symbol, last.length + 1);
    assert prefix + (rep + [symbol]) == (prefix + rep) + [symbol];
  }

  /** A new run of one expands to that one cell. */
  lemma ExpandStartsRun(runs: seq<Run>, c: Cell)
    ensures Expand(runs + [Run(c, 1)]) == Expand(runs) + [c]
  {
    assert (runs + [Run(c, 1)])[..|runs|] == runs;
    assert Repeat(c, 1) == [c];
  }

  /** Expanding the extended runs appends the one cell. */
  lemma ExpandExtend(runs: seq<Run>, c: Cell)
    requires |runs| > 0
    ensures Expand(Extend(runs, c)) == Expand(runs) + [c]
  {
    var last := runs[|runs| - 1];
    if c == last.symbol {
      assert Extend(runs, c) == runs[..|runs| - 1] + [Run(c, last.length + 1)];
      ExpandGrowsRun(runs[..|runs| - 1], last);
    } else {
      assert Extend(runs, c) == runs + [Run(c, 1)];
      ExpandStartsRun(runs, c);
    }
  }

  /** Extending maximal runs keeps them maximal. */
  lemma ExtendMaximal(runs: seq<Run>, c: Cell)
    requires |runs| > 0 && Maximal(runs)
    ensures Maximal(Extend(runs, c))
  {
  }

  /** The runs of a prefix depend only on the cells of that prefix. */
  lemma {:induction false} EncodePrefixAgree(s: seq<Cell>, t: seq<Cell>, n: nat)
    requires 0 < n <= |s| && n <= |t|
    requires forall k :: 0 <= k < n ==> s[k] == t[k]
    ensures EncodePrefix(s, n) == EncodePrefix(t, n)
  {
    if n > 1 {
      EncodePrefixAgree(s, t, n - 1);
    }
  }

  /** Encoding a prefix and expanding it again gives back the prefix. */
  lemma {:induction false} ExpandEncodePrefix(s: seq<Cell>, n: nat)
    requires 0 < n <= |s|
    ensures Expand(EncodePrefix(s, n)) == s[..n]
  {
    if n == 1 {
      ExpandSingle(Run(s[0], 1));
      assert Repeat(s[0], 1) == s[..1];
    } else {
      var runs := EncodePrefix(s, n - 1);
      assert EncodePrefix(s, n) == Extend(runs, s[n - 1]);
      ExpandEncodePrefix(s, n - 1);
      ExpandExtend(runs, s[n - 1]);
      assert s[..n] == s[..n - 1] + [s[n - 1]];
    }
  }

  /** Encoding a line and expanding it again gives back the line. */
  lemma ExpandEncode(s: seq<Cell>)
    requires |s| > 0
    ensures Expand(Encode(s)) == s
  {
    ExpandEncodePrefix(s, |s|);
    assert s[..|s|] == s;
  }

  /** The runs of every prefix are maximal. */
  lemma {:induction false} EncodePrefixMaximal(s: seq<Cell>, n: nat)
    requires 0 < n <= |s|
    ensures Maximal(EncodePrefix(s, n))
  {
    if n > 1 {
      EncodePrefixMaximal(s, n - 1);
      ExtendMaximal(EncodePrefix(s, n - 1), s[n - 1]);
    }
  }

  /** The runs `Encode` produces are maximal. */
  lemma EncodeMaximal(s: seq<Cell>)
    requires |s| > 0
    ensures Maximal(Encode(s))
  {
    EncodePrefixMaximal(s, |s|);
  }

  /** Appending one cell to a line extends its runs by that cell. */
  lemma EncodeSnoc(s: seq<Cell>, c: Cell)
    requires |s| > 0
    ensures Encode(s + [c]) == Extend(Encode(s), c)
  {
    EncodePrefixAgree(s + [c], s, |s|);
  }

  /** A line of `n` equal cells is a single run. */
  lemma {:induction false} EncodeRepeat(symbol: Cell, n: nat)
    requires n > 0
    ensures Encode(Repeat(symbol, n)) == [Run(symbol, n)]
  {
    if n == 1 {
      assert Repeat(symbol, 1) == [symbol];
    } else {
      EncodeRepeat(symbol, n - 1);
      RepeatSnoc(symbol, n);
      EncodeSnoc(Repeat(symbol, n - 1), symbol);
    }
  }

  /** Appending a run whose symbol differs from the line's end adds exactly that run. */
  lemma {:induction false} EncodeAppendRun(s: seq<Cell>, symbol: Cell, n: nat)
    requires n > 0 && |s| > 0 && s[|s| - 1] != symbol
    ensures Encode(s + Repeat(symbol, n)) == Encode(s) + [Run(symbol, n)]
  {
    RepeatSnoc(symbol, n);
    if n == 1 {
      EncodeSnoc(s, symbol);
      assert s + Repeat(symbol, 1) == s + [symbol];
      assert Extend(Encode(s), symbol) == Encode(s) + [Run(symbol, 1)];
    } else {
      EncodeAppendRun(s, symbol, n - 1);
      var t := s + Repeat(symbol, n - 1);
      assert s + Repeat(symbol, n) == t + [symbol];
      EncodeSnoc(t, symbol);
      var runs := Encode(s) + [Run(symbol, n - 1)];
      assert runs[..|runs| - 1] == Encode(s);
    }
  }

  /** Conversely, expanding maximal runs and encoding again gives back those runs. */
  lemma {:induction false} EncodeExpand(runs: seq<Run>)
    requires |runs| > 0 && Maximal(runs)
    ensures |Expand(runs)| > 0 && Encode(Expand(runs)) == runs
  {
    var init, last := runs[..|runs| - 1], runs[|runs| - 1];
    assert runs == init + [last];
    var prefix := Expand(init);
    assert Expand(runs) == prefix + Repeat(last.symbol, last.length);
    if |init| > 0 {
      assert Maximal(init);
      EncodeExpand(init);
      ExpandEnd(init);
      EncodeAppendRun(prefix, last.symbol, last.length);
    } else {
      assert Expand(runs) == Repeat(last.symbol, last.length);
      EncodeRepeat(last.symbol, last.length);
    }
  }

  /** A single run stands for its repeated symbol. */
  lemma ExpandSingle(r: Run)
    ensures Expand([r]) == Repeat(r.symbol, r.length)
  {
    assert [r][..0] == [];
  }

  /** Expanding two sequences of runs one after the other expands their concatenation. */
  lemma {:induction false} ExpandConcat(x: seq<Run>, y: seq<Run>)
    ensures Expand(x + y) == Expand(x) + Expand(y)
    decreases |y|
  {
    if y == [] {
      assert x + y == x;
    } else {
      var init, last := y[..|y| - 1], y[|y| - 1];
      assert (x + y)[..|x + y| - 1] == x + init;
      ExpandConcat(x, init);
    }
  }

  /** Expanding a run followed by more runs: the run's cells, then the rest's. */
  lemma ExpandCons(r: Run, rest: seq<Run>)
    ensures Expand([r] + rest) == Repeat(r.symbol, r.length) + Expand(rest)
  {
    ExpandConcat([r], rest);
    ExpandSingle(r);
  }

  /** The last cell of expanded runs holds the last run's symbol. */
  lemma ExpandEnd(runs: seq<Run>)
    requires |runs| > 0 && runs[|runs| - 1].length > 0
    ensures |Expand(runs)| > 0 && Expand(runs)[|Expand(runs)| - 1] == runs[|runs| - 1].symbol
  {
    var last := runs[|runs| - 1];
    assert Expand(runs) == Expand(runs[..|runs| - 1]) + Repeat(last.symbol, last.length);
  }

  // ---------------------------------------------------------------------
  // Points of a board
  // ---------------------------------------------------------------------

  /** Points for one run: `calculatePoints` when it is at least three long. */
  function RunPoints(run: Run): (points: int)
    ensures points >= 0
    ensures points > 0 <==> 3 <= run.length <= 5
  {
    if run.length >= 3 then CalculatePoints(run.length) else 0
  }

  /** Sum of the points of a sequence of runs. */
  function TotalPoints(runs: seq<Run>): (points: int)
    ensures points >= 0
  {
    if runs == [] then 0 else TotalPoints(runs[..|runs| - 1]) + RunPoints(runs[|runs| - 1])
  }

  /** Points of runs one after the other add up. */
  lemma {:induction false} TotalPointsConcat(x: seq<Run>, y: seq<Run>)
    ensures TotalPoints(x + y) == TotalPoints(x) + TotalPoints(y)
    decreases |y|
  {
    if y == [] {
      assert x + y == x;
    } else {
      assert (x + y)[..|x + y| - 1] == x + y[..|y| - 1];
      TotalPointsConcat(x, y[..|y| - 1]);
    }
  }

  /** A run scores only when it is three to five long, so the total is positive iff one such run exists. */
  lemma {:induction false} TotalPointsPositive(runs: seq<Run>)
    ensures TotalPoints(runs) > 0 <==> exists k :: 0 <= k < |runs| && 3 <= runs[k].length <= 5
  {
    if runs != [] {
      var init := runs[..|runs| - 1];
      TotalPointsPositive(init);
      if exists k :: 0 <= k < |init| && 3 <= init[k].length <= 5 {
        var k :| 0 <= k < |init| && 3 <= init[k].length <= 5;
        assert runs[k] == init[k];
      }
      if exists k :: 0 <= k < |runs| && 3 <= runs[k].length <= 5 {
        var k :| 0 <= k < |runs| && 3 <= runs[k].length <= 5;
        if k < |init| {
          assert init[k] == runs[k];
        }
      }
    }
  }

  /** Points of one row or column: each maximal run counted once. */
  function LinePoints(s: seq<Cell>): (points: int)
    requires |s| > 0
  {
    TotalPoints(Encode(s))
  }

  /** Points of the first `lines` lines of `axis`. */
  function AxisPoints(b: seq<Cell>, axis: Axis, lines: nat): (points: int)
    requires |b| == CellCount && lines <= Side
    ensures points >= 0
  {
    if lines == 0 then 0 else AxisPoints(b, axis, lines - 1) + LinePoints(LineOf(b, axis, lines - 1))
  }

  /** Points `checkMatches` totals for a board: all rows, then all columns. */
  function MatchPoints(b: seq<Cell>): (points: int)
    requires |b| == CellCount
    ensures points >= 0
  {
    AxisPoints(b, Horizontal, Side) + AxisPoints(b, Vertical, Side)
  }

  /** A line with a maximal run of three to five equal cells scores. */
  lemma LineScores(s: seq<Cell>, k: nat)
    requires |s| > 0 && k < |Encode(s)| && 3 <= Encode(s)[k].length <= 5
    ensures LinePoints(s) >= 100
  {
    var runs := Encode(s);
    TotalPointsAtLeast(runs, k);
  }

  lemma {:induction false} TotalPointsAtLeast(runs: seq<Run>, k: nat)
    requires k < |runs| && 3 <= runs[k].length <= 5
    ensures TotalPoints(runs) >= RunPoints(runs[k]) >= 100
  {
    if k < |runs| - 1 {
      var init := runs[..|runs| - 1];
      assert init[k] == runs[k];
      TotalPointsAtLeast(init, k);
    }
  }

  /** Points of the runs of the first `n` cells of `s` that a later cell can no longer extend. */
  function Settled(s: seq<Cell>, n: nat): (points: int)
    requires 0 < n <= |s|
  {
    var runs := EncodePrefix(s, n);
    TotalPoints(runs[..|runs| - 1])
  }

  /** The run of the first `n` cells of `s` that is still open at cell `n`. */
  function OpenRun(s: seq<Cell>, n: nat): (run: Run)
    requires 0 < n <= |s|
    ensures run.symbol == s[n - 1]
  {
    var runs := EncodePrefix(s, n);
    runs[|runs| - 1]
  }

  /** A cell equal to the open run's symbol lengthens it; nothing is settled. */
  lemma ScanContinues(s: seq<Cell>, n: nat)
    requires 0 < n < |s| && s[n] == OpenRun(s, n).symbol
    ensures OpenRun(s, n + 1) == Run(s[n], OpenRun(s, n).length + 1)
    ensures Settled(s, n + 1) == Settled(s, n)
  {
    ExtendGrows(EncodePrefix(s, n), s[n]);
  }

  /** A different cell settles the open run and opens a run of one. */
  lemma ScanBreaks(s: seq<Cell>, n: nat)
    requires 0 < n < |s| && s[n] != OpenRun(s, n).symbol
    ensures OpenRun(s, n + 1) == Run(s[n], 1)
    ensures Settled(s, n + 1) == Settled(s, n) + RunPoints(OpenRun(s, n))
  {
    var runs := EncodePrefix(s, n);
    ExtendStarts(runs, s[n]);
    assert runs == runs[..|runs| - 1] + [runs[|runs| - 1]];
  }

  /** At the end of the line, the open run is the last one still to be scored. */
  lemma ScanEnds(s: seq<Cell>)
    requires |s| > 0
    ensures LinePoints(s) == Settled(s, |s|) + RunPoints(OpenRun(s, |s|))
  {
  }

  /**
   * One line of the scan in `checkMatches`: walk the cells, counting how long
   * the current symbol lasts, and add `calculatePoints` for every run of three
   * or more when it ends (at a different cell or at the end of the line).
   */
  method ScoreLine(s: seq<Cell>, points0: int) returns (points: int)
    requires |s| == Side
    ensures points == points0 + LinePoints(s)
  {
    points := points0;
    var count := 1;
    var current := s[0];
    for i := 1 to Side
      invariant OpenRun(s, i) == Run(current, count)
      invariant points == points0 + Settled(s, i)
    {
      if s[i] == current {
        ScanContinues(s, i);
        count := count + 1;
      } else {
        ScanBreaks(s, i);
        if count >= 3 {
          points := points + CalculatePoints(count);
        }
        count := 1;
        current := s[i];
      }
    }
    ScanEnds(s);
    if count >= 3 {
      points := points + CalculatePoints(count);
    }
  }

  /** One of the two scans in `checkMatches`: all six rows, or all six columns. */
  method ScoreAxis(b: seq<Cell>, axis: Axis, points0: int) returns (points: int)
    requires |b| == CellCount
    ensures points == points0 + AxisPoints(b, axis, Side)
  {
    points := points0;
    for line := 0 to Side
      invariant points == points0 + AxisPoints(b, axis, line)
    {
      points := ScoreLine(LineOf(b, axis, line), points);
    }
  }

  /** The points `checkMatches` totals, read from a board without changing it. */
  method CountPoints(b: seq<Cell>) returns (points: int)
    requires |b| == CellCount
    ensures points == MatchPoints(b)
  {
    points := ScoreAxis(b, Horizontal, 0);
    points := ScoreAxis(b, Vertical, points);
  }

  // ---------------------------------------------------------------------
  // Filling empty cells
  // ---------------------------------------------------------------------

  /** No cell of the board is empty. */
  predicate Full(b: seq<Cell>)
  {
    forall i :: 0 <= i < |b| ==> b[i] != Empty
  }

  /** The board after `fillGaps`: each empty cell gets its drawn flower. */
  function Filled(b: seq<Cell>, draws: seq<nat>): (r: seq<Cell>)
    requires |b| == CellCount && ValidDraws(draws)
    ensures |r| == CellCount
    ensures Full(r)
    ensures forall i :: 0 <= i < CellCount && b[i] != Empty ==> r[i] == b[i]
    ensures forall i :: 0 <= i < CellCount && b[i] == Empty ==> r[i] == Bloom(Flowers[draws[i]])
  {
    seq(CellCount, i requires 0 <= i < CellCount =>
      if b[i] == Empty then Bloom(Flowers[draws[i]]) else b[i])
  }

  /** On a board without empty cells, filling changes nothing. */
  lemma FilledFull(b: seq<Cell>, draws: seq<nat>)
    requires |b| == CellCount && ValidDraws(draws) && Full(b)
    ensures Filled(b, draws) == b
  {
  }

  /** Filling is idempotent: a second fill finds no empty cell. */
  lemma FilledTwice(b: seq<Cell>, draws: seq<nat>, draws': seq<nat>)
    requires |b| == CellCount && ValidDraws(draws) && ValidDraws(draws')
    ensures Filled(Filled(b, draws), draws') == Filled(b, draws)
  {
    FilledFull(Filled(b, draws), draws');
  }

  /** Exchanging two cells keeps a full board full. */
  lemma SwappedFull(b: seq<Cell>, i: nat, j: nat)
    requires i < |b| && j < |b| && Full(b)
    ensures Full(Swapped(b, i, j))
  {
  }

  /** The grid `createGrid` builds: one drawn flower per cell. */
  function NewGrid(draws: seq<nat>): (b: seq<Cell>)
    requires ValidDraws(draws)
    ensures |b| == CellCount && Full(b)
    ensures forall i :: 0 <= i < CellCount ==> b[i] == Bloom(Flowers[draws[i]])
  {
    seq(CellCount, i requires 0 <= i < CellCount => Bloom(Flowers[draws[i]]))
  }

  // ---------------------------------------------------------------------
  // The game state
  // ---------------------------------------------------------------------

  class Game {
    /** The texts of the 36 grid cells, in document order. */
    var cells: array<Cell>
    var score: int
    var timeLeft: int
    /** Position of the selected cell, if any. */
    var selectedCell: Option<nat>

    ghost predicate Valid()
      reads this
    {
      cells.Length == CellCount && (selectedCell.Some? ==> selectedCell.value < CellCount)
    }

    /** Loading the script: the globals' initial values, then `initGame`. */
    constructor (draws: seq<nat>)
      requires ValidDraws(draws)
      ensures Valid() && fresh(cells)
      ensures cells[..] == NewGrid(draws)
      ensures score == 0 && timeLeft == GameTime && selectedCell == None
    {
      cells := new Cell[CellCount](_ => Empty);
      score := 0;
      timeLeft := GameTime;
      selectedCell := None;
      new;
      CreateGrid(draws);
      UpdateScore(0);
    }

    /** `createGrid`: every cell receives a drawn flower. */
    method CreateGrid(draws: seq<nat>)
      requires Valid() && ValidDraws(draws)
      modifies cells
      ensures cells[..] == NewGrid(draws)
    {
      for i := 0 to CellCount
        invariant forall k :: 0 <= k < i ==> cells[k] == Bloom(Flowers[draws[k]])
      {
        cells[i] := Bloom(Flowers[draws[i]]);
      }
      assert cells[..] == NewGrid(draws);
    }

    /** `updateScore`: add `points` to the score. */
    method UpdateScore(points: int)
      modifies this`score
      ensures score == old(score) + points
    {
      score := score + points;
    }

    /** `swapCells`: exchange the texts of two cells. */
    method SwapCells(pos1: nat, pos2: nat)
      requires Valid() && pos1 < CellCount && pos2 < CellCount
      modifies cells
      ensures cells[..] == Swapped(old(cells[..]), pos1, pos2)
    {
      var temp := cells[pos1];
      cells[pos1] := cells[pos2];
      cells[pos2] := temp;
    }

    /**
     * `checkMatches`: total the points of every maximal run of three or more
     * in all rows and columns; when there are any, add them to the score and
     * schedule `fillGaps`. The board itself is only read.
     */
    method CheckMatches() returns (fillScheduled: bool)
      requires Valid()
      modifies this`score
      ensures fillScheduled <==> MatchPoints(cells[..]) > 0
      ensures score == old(score) + MatchPoints(cells[..])
    {
      var points := CountPoints(cells[..]);
      fillScheduled := false;
      if points > 0 {
        UpdateScore(points);
        fillScheduled := true;
      }
    }

    /** `fillGaps`: every empty cell receives its drawn flower; the others are kept. */
    method FillGaps(draws: seq<nat>)
      requires Valid() && ValidDraws(draws)
      modifies cells
      ensures cells[..] == Filled(old(cells[..]), draws)
    {
      for i := 0 to CellCount
        invariant forall k :: i <= k < CellCount ==> cells[k] == old(cells[k])
        invariant forall k :: 0 <= k < i ==> cells[k] == Filled(old(cells[..]), draws)[k]
      {
        if cells[i] == Empty {
          cells[i] := Bloom(Flowers[draws[i]]);
        }
      }
      assert cells[..] == Filled(old(cells[..]), draws);
    }

    /**
     * `handleCellClick` for the cell at `pos`: with nothing selected the cell
     * becomes selected; otherwise the two cells are swapped and the board is
     * scored when `canSwap` allows it, and the selection is cleared in every
     * case. `fillScheduled` reports a `fillGaps` left pending by the scoring.
     */
    method HandleCellClick(pos: nat) returns (fillScheduled: bool)
      requires Valid() && pos < CellCount
      modifies this`score, this`selectedCell, cells
      ensures Valid() && score >= old(score)
      ensures Full(old(cells[..])) ==> Full(cells[..])
      ensures old(selectedCell).None? ==>
        selectedCell == Some(pos) && !fillScheduled &&
        score == old(score) && cells[..] == old(cells[..])
      ensures old(selectedCell).Some? ==> selectedCell == None
      ensures old(selectedCell).Some? && CanSwap(old(selectedCell).value, pos) ==>
        var swapped := Swapped(old(cells[..]), old(selectedCell).value, pos);
        cells[..] == swapped &&
        score == old(score) + MatchPoints(swapped) &&
        (fillScheduled <==> MatchPoints(swapped) > 0)
      ensures old(selectedCell).Some? && !CanSwap(old(selectedCell).value, pos) ==>
        !fillScheduled && score == old(score) && cells[..] == old(cells[..])
    {
      fillScheduled := false;
      if selectedCell.None? {
        selectedCell := Some(pos);
      } else {
        if CanSwap(selectedCell.value, pos) {
          SwapCells(selectedCell.value, pos);
          if Full(old(cells[..])) {
            SwappedFull(old(cells[..]), old(selectedCell).value, pos);
          }
          fillScheduled := CheckMatches();
        }
        selectedCell := None;
      }
    }
  }
}
