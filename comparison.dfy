/**
 * How the two variants of the flower game differ on the same board: which
 * pairs of cells they let the player exchange, and how they score a line.
 */
module Comparison {
  import opened Board
  import GameClass
  import GameModule

  /** A line of flowers as the texts of the module variant's cells. */
  function Blooms(s: seq<Flower>): (r: seq<Cell>)
    ensures |r| == |s|
    ensures forall k :: 0 <= k < |s| ==> r[k] == Bloom(s[k])
  {
    seq(|s|, k requires 0 <= k < |s| => Bloom(s[k]))
  }

  /** Every exchange the class variant allows, the module variant allows too. */
  lemma AdjacentCanSwap(index1: nat, index2: nat)
    requires index1 < CellCount && index2 < CellCount
    ensures GameClass.IsAdjacent(index1, index2) ==> GameModule.CanSwap(index1, index2)
  {
    GameClass.IsAdjacentExactly(index1, index2);
  }

  /**
   * The module variant additionally allows exactly the pairs that sit next to
   * each other in row-major order but on different rows: the end of one row
   * and the start of the next.
   */
  lemma CanSwapBeyondAdjacent(index1: nat, index2: nat)
    requires index1 < CellCount && index2 < CellCount
    ensures GameModule.CanSwap(index1, index2) && !GameClass.IsAdjacent(index1, index2) <==>
      Abs(index1 - index2) == 1 && RowOf(index1) != RowOf(index2)
  {
    GameClass.IsAdjacentExactly(index1, index2);
  }

  /** Both variants pay the same for a run of a given length. */
  lemma SameRunValues(length: int)
    ensures GameClass.ScoreIncrement(length) == GameModule.CalculatePoints(length)
  {
  }

  /** The row with a run of four used below. */
  const RowOfFour: seq<Flower> := [Rose, Rose, Rose, Rose, Tulip, Sunflower]

  lemma RowOfFourClassPoints()
    ensures GameClass.LinePoints(RowOfFour, Side - 2) == 300
  {
    var s := RowOfFour;
    GameClass.RunOfFourScoresTwice(s, 0);
    assert GameClass.RunFrom(s, 2) == 2 && GameClass.RunFrom(s, 3) == 1;
  }

  lemma RowOfFourModulePoints()
    ensures GameModule.LinePoints(Blooms(RowOfFour)) == 200
  {
    var rose, tulip, sunflower := Bloom(Rose), Bloom(Tulip), Bloom(Sunflower);
    var p1 := GameModule.Repeat(rose, 4);
    var p2 := p1 + GameModule.Repeat(tulip, 1);
    var p3 := p2 + GameModule.Repeat(sunflower, 1);
    assert Blooms(RowOfFour) == p3;
    GameModule.EncodeRepeat(rose, 4);
    GameModule.EncodeAppendRun(p1, tulip, 1);
    GameModule.EncodeAppendRun(p2, sunflower, 1);
    var runs := GameModule.Encode(p3);
    assert runs == [GameModule.Run(rose, 4), GameModule.Run(tulip, 1), GameModule.Run(sunflower, 1)];
    assert runs[..1] == [runs[0]] && runs[..2] == [runs[0], runs[1]];
    assert runs[..1][..0] == [];
    assert GameModule.TotalPoints(runs[..1]) == 200;
    assert GameModule.TotalPoints(runs[..2]) == 200;
    assert GameModule.TotalPoints(runs) == 200;
  }

  /**
   * A row holding a run of four: the class variant scores the run at both of
   * the starts that see three or more (200 + 100), the module variant scores
   * the maximal run once.
   */
  lemma RunOfFourScoredDifferently()
    ensures GameClass.LinePoints(RowOfFour, Side - 2) == 300
    ensures GameModule.LinePoints(Blooms(RowOfFour)) == 200
  {
    RowOfFourClassPoints();
    RowOfFourModulePoints();
  }

  /**
   * A row of six equal flowers: the class variant pays for its sub-runs of
   * five, four and three (300 + 200 + 100), the module variant pays nothing
   * for the single run of six.
   */
  lemma RunOfSixScoredDifferently()
    ensures var s := [Maple, Maple, Maple, Maple, Maple, Maple];
      GameClass.LinePoints(s, Side - 2) == 600 &&
      GameModule.LinePoints(Blooms(s)) == 0
  {
    var s := [Maple, Maple, Maple, Maple, Maple, Maple];
    GameClass.FullLineScore(s);
    var c := Blooms(s);
    assert c == GameModule.Expand([GameModule.Run(Bloom(Maple), 6)]);
    GameModule.EncodeExpand([GameModule.Run(Bloom(Maple), 6)]);
  }

  // ---------------------------------------------------------------------
  // Scoring a board: the class variant never pays less, and pays the same
  // exactly when no line holds four equal flowers in a row
  // ---------------------------------------------------------------------

  /**
   * The runs of `s` from cell `i` on, as the class variant measures them:
   * the run from `i`, then the run from the first cell after it, and so on.
   */
  function RunsFrom(s: seq<Flower>, i: nat): seq<GameModule.Run>
    requires i <= |s|
    decreases |s| - i
  {
    if i == |s| then []
    else
      var n := GameClass.RunFrom(s, i);
      [GameModule.Run(Bloom(s[i]), n)] + RunsFrom(s, i + n)
  }

  /** Those runs are maximal, and the first one holds the flower at `i`. */
  lemma {:induction false} RunsFromMaximal(s: seq<Flower>, i: nat)
    requires i <= |s|
    ensures GameModule.Maximal(RunsFrom(s, i))
    ensures i < |s| ==> |RunsFrom(s, i)| > 0 && RunsFrom(s, i)[0].symbol == Bloom(s[i])
    decreases |s| - i
  {
    if i < |s| {
      var n := GameClass.RunFrom(s, i);
      GameClass.RunFromSpec(s, i);
      RunsFromMaximal(s, i + n);
      var r, rest := GameModule.Run(Bloom(s[i]), n), RunsFrom(s, i + n);
      var runs := [r] + rest;
      assert RunsFrom(s, i) == runs;
      assert forall k :: 0 < k < |runs| ==> runs[k] == rest[k - 1];
    }
  }

  /** The cells of the run measured from `i`. */
  lemma RunFromCells(s: seq<Flower>, i: nat)
    requires i < |s|
    ensures GameModule.Repeat(Bloom(s[i]), GameClass.RunFrom(s, i)) == Blooms(s)[i..i + GameClass.RunFrom(s, i)]
  {
    GameClass.RunFromSpec(s, i);
  }

  /** Those runs stand for exactly the cells from `i` on. */
  lemma {:induction false} RunsFromExpand(s: seq<Flower>, i: nat)
    requires i <= |s|
    ensures GameModule.Expand(RunsFrom(s, i)) == Blooms(s)[i..]
    decreases |s| - i
  {
    if i < |s| {
      var n := GameClass.RunFrom(s, i);
      RunsFromExpand(s, i + n);
      RunFromCells(s, i);
      var r := GameModule.Run(Bloom(s[i]), n);
      ExpandStep(RunsFrom(s, i), r, RunsFrom(s, i + n), Blooms(s), i, i + n);
    } else {
      assert Blooms(s)[i..] == [];
    }
  }

  /** Cells `i` to `j` are run `r` and the cells after them are `rest`: `[r] + rest` stands for the cells from `i` on. */
  lemma ExpandStep(runs: seq<GameModule.Run>, r: GameModule.Run, rest: seq<GameModule.Run>, c: seq<Cell>, i: nat, j: nat)
    requires runs == [r] + rest && i <= j <= |c|
    requires GameModule.Repeat(r.symbol, r.length) == c[i..j] && GameModule.Expand(rest) == c[j..]
    ensures GameModule.Expand(runs) == c[i..]
  {
    GameModule.ExpandCons(r, rest);
    assert c[i..] == c[i..j] + c[j..];
  }

  /** The module variant's runs of a line are the runs the class variant measures. */
  lemma EncodeIsRunsFrom(s: seq<Flower>)
    requires |s| > 0
    ensures GameModule.Encode(Blooms(s)) == RunsFrom(s, 0)
  {
    RunsFromMaximal(s, 0);
    RunsFromExpand(s, 0);
    assert Blooms(s)[0..] == Blooms(s);
    GameModule.EncodeExpand(RunsFrom(s, 0));
  }

  /** Points the class variant adds at starts `i` to 5 of a line. */
  function ClassSum(s: seq<Flower>, i: nat): (points: int)
    requires |s| == Side && i <= Side
    ensures points >= 0
    decreases Side - i
  {
    if i == Side then 0 else GameClass.StartPoints(s, i) + ClassSum(s, i + 1)
  }

  lemma {:induction false} LinePointsSplit(s: seq<Flower>, k: nat)
    requires |s| == Side && k <= Side - 2
    ensures GameClass.LinePoints(s, k) + ClassSum(s, k) == ClassSum(s, 0)
  {
    if k > 0 {
      LinePointsSplit(s, k - 1);
    }
  }

  /** Scanning only starts 0 to 3 loses nothing: later starts see at most two cells. */
  lemma ClassLineSum(s: seq<Flower>)
    requires |s| == Side
    ensures GameClass.LinePoints(s, Side - 2) == ClassSum(s, 0)
  {
    LinePointsSplit(s, Side - 2);
    assert ClassSum(s, Side - 2) == 0;
  }

  /** What the class variant pays for a maximal run of `n`: one payment per start inside it. */
  function RunValue(n: nat): (points: int)
    ensures points >= 0
  {
    if n == 0 then 0 else RunValue(n - 1) + (if n >= 3 then GameClass.ScoreIncrement(n) else 0)
  }

  /** The starts inside a maximal run together earn that run's `RunValue`. */
  lemma {:induction false} ClassSumRun(s: seq<Flower>, i: nat)
    requires |s| == Side && i < Side
    ensures ClassSum(s, i) == RunValue(GameClass.RunFrom(s, i)) + ClassSum(s, i + GameClass.RunFrom(s, i))
    decreases Side - i
  {
    var n := GameClass.RunFrom(s, i);
    if n > 1 {
      assert GameClass.RunFrom(s, i + 1) == n - 1;
      ClassSumRun(s, i + 1);
    }
  }

  /** What the class variant pays for a sequence of maximal runs. */
  function ClassTotal(runs: seq<GameModule.Run>): (points: int)
    ensures points >= 0
  {
    if runs == [] then 0 else RunValue(runs[0].length) + ClassTotal(runs[1..])
  }

  lemma {:induction false} ClassSumRuns(s: seq<Flower>, i: nat)
    requires |s| == Side && i <= Side
    ensures ClassSum(s, i) == ClassTotal(RunsFrom(s, i))
    decreases Side - i
  {
    if i < Side {
      var n := GameClass.RunFrom(s, i);
      ClassSumRun(s, i);
      ClassSumRuns(s, i + n);
      var r, rest := GameModule.Run(Bloom(s[i]), n), RunsFrom(s, i + n);
      assert RunsFrom(s, i) == [r] + rest;
      assert ([r] + rest)[1..] == rest;
    }
  }

  lemma {:induction false} RunValueFrom5(n: nat)
    requires n >= 5
    ensures RunValue(n) >= 600
  {
    if n == 5 {
      assert RunValue(3) == 100;
    } else {
      RunValueFrom5(n - 1);
    }
  }

  /** Per run, the class variant pays at least the module variant, and more exactly for runs of four or longer. */
  lemma RunValueExceeds(r: GameModule.Run)
    ensures RunValue(r.length) >= GameModule.RunPoints(r)
    ensures RunValue(r.length) == GameModule.RunPoints(r) <==> r.length <= 3
  {
    if r.length <= 5 {
      assert RunValue(3) == 100 && RunValue(4) == 300;
    } else {
      RunValueFrom5(r.length);
    }
  }

  /** Over a sequence of runs: at least as much, and the same exactly when no run is longer than three. */
  lemma {:induction false} ClassTotalExceeds(runs: seq<GameModule.Run>)
    ensures ClassTotal(runs) >= GameModule.TotalPoints(runs)
    ensures ClassTotal(runs) == GameModule.TotalPoints(runs) <==>
      forall k :: 0 <= k < |runs| ==> runs[k].length <= 3
  {
    if runs != [] {
      var r, rest := runs[0], runs[1..];
      assert runs == [r] + rest;
      GameModule.TotalPointsConcat([r], rest);
      assert [r][..0] == [];
      assert GameModule.TotalPoints([r]) == GameModule.RunPoints(r);
      RunValueExceeds(r);
      ClassTotalExceeds(rest);
      assert forall k :: 0 < k < |runs| ==> runs[k] == rest[k - 1];
      if forall k :: 0 <= k < |rest| ==> rest[k].length <= 3 {
        assert forall k :: 0 < k < |runs| ==> runs[k].length <= 3;
      }
    }
  }

  /** Four equal flowers one after the other somewhere in `s`. */
  ghost predicate FourInARow(s: seq<Flower>)
  {
    exists i :: 0 <= i && i + 4 <= |s| && GameClass.Uniform(s, i, 4)
  }

  /** A run measured from `i` on is longer than three exactly when four equal flowers follow one another from `i` on. */
  lemma {:induction false} LongRunIffFour(s: seq<Flower>, i: nat)
    requires i <= |s|
    ensures (exists k :: 0 <= k < |RunsFrom(s, i)| && RunsFrom(s, i)[k].length > 3) <==>
      (exists j :: i <= j && j + 4 <= |s| && GameClass.Uniform(s, j, 4))
    decreases |s| - i
  {
    if i < |s| {
      var n := GameClass.RunFrom(s, i);
      GameClass.RunFromSpec(s, i);
      LongRunIffFour(s, i + n);
      var r, rest := GameModule.Run(Bloom(s[i]), n), RunsFrom(s, i + n);
      var runs := [r] + rest;
      assert RunsFrom(s, i) == runs;
      assert forall k :: 0 < k < |runs| ==> runs[k] == rest[k - 1];
      if exists k :: 0 <= k < |runs| && runs[k].length > 3 {
        var k :| 0 <= k < |runs| && runs[k].length > 3;
        if k == 0 {
          assert GameClass.Uniform(s, i, 4);
        } else {
          assert rest[k - 1].length > 3;
        }
      }
      if exists j :: i <= j && j + 4 <= |s| && GameClass.Uniform(s, j, 4) {
        var j :| i <= j && j + 4 <= |s| && GameClass.Uniform(s, j, 4);
        if j < i + n {
          assert GameClass.Uniform(s, i, j - i + 4);
          GameClass.RunFromCovers(s, i, j - i + 4);
          assert runs[0].length > 3;
        } else {
          var k :| 0 <= k < |rest| && rest[k].length > 3;
          assert runs[k + 1].length > 3;
        }
      }
    }
  }

  /**
   * On one line, the class variant scores at least as much as the module
   * variant, and the same exactly when the line has no four equal flowers
   * in a row.
   */
  lemma LineScoresCompared(s: seq<Flower>)
    requires |s| == Side
    ensures GameClass.LinePoints(s, Side - 2) >= GameModule.LinePoints(Blooms(s))
    ensures GameClass.LinePoints(s, Side - 2) == GameModule.LinePoints(Blooms(s)) <==> !FourInARow(s)
  {
    ClassLineSum(s);
    ClassSumRuns(s, 0);
    EncodeIsRunsFrom(s);
    ClassTotalExceeds(RunsFrom(s, 0));
    LongRunIffFour(s, 0);
  }

  /** A line of the module variant's board is the line of flowers, as cells. */
  lemma LineOfBlooms(b: seq<Flower>, axis: Axis, line: nat)
    requires |b| == CellCount && line < Side
    ensures LineOf(Blooms(b), axis, line) == Blooms(LineOf(b, axis, line))
  {
  }

  /** The comparison of one line, read off the two variants' boards. */
  lemma BoardLineCompared(b: seq<Flower>, axis: Axis, line: nat)
    requires |b| == CellCount && line < Side
    ensures GameClass.LinePoints(LineOf(b, axis, line), Side - 2) >= GameModule.LinePoints(LineOf(Blooms(b), axis, line))
    ensures GameClass.LinePoints(LineOf(b, axis, line), Side - 2) == GameModule.LinePoints(LineOf(Blooms(b), axis, line)) <==>
      !FourInARow(LineOf(b, axis, line))
  {
    LineOfBlooms(b, axis, line);
    LineScoresCompared(LineOf(b, axis, line));
  }

  /** The first `n` numbers of `xs`, added up. */
  function Sum(xs: seq<int>, n: nat): int
    requires n <= |xs|
  {
    if n == 0 then 0 else Sum(xs, n - 1) + xs[n - 1]
  }

  /** Two sums of terms each at least their partner's: equal exactly when every pair is. */
  lemma {:induction false} SumsCompared(xs: seq<int>, ys: seq<int>, same: seq<bool>, n: nat)
    requires n <= |xs| == |ys| == |same|
    requires forall i :: 0 <= i < n ==> xs[i] >= ys[i] && (xs[i] == ys[i] <==> same[i])
    ensures Sum(xs, n) >= Sum(ys, n)
    ensures Sum(xs, n) == Sum(ys, n) <==> forall i :: 0 <= i < n ==> same[i]
  {
    if n > 0 {
      SumsCompared(xs, ys, same, n - 1);
    }
  }

  /** The class variant's points for each line of `axis`. */
  function ClassLines(b: seq<Flower>, axis: Axis): (xs: seq<int>)
    requires |b| == CellCount
    ensures |xs| == Side
    ensures forall line :: 0 <= line < Side ==> xs[line] == GameClass.LinePoints(LineOf(b, axis, line), Side - 2)
  {
    seq(Side, line requires 0 <= line < Side => GameClass.LinePoints(LineOf(b, axis, line), Side - 2))
  }

  /** The module variant's points for each line of `axis`. */
  function ModuleLines(b: seq<Cell>, axis: Axis): (xs: seq<int>)
    requires |b| == CellCount
    ensures |xs| == Side
    ensures forall line :: 0 <= line < Side ==> xs[line] == GameModule.LinePoints(LineOf(b, axis, line))
  {
    seq(Side, line requires 0 <= line < Side => GameModule.LinePoints(LineOf(b, axis, line)))
  }

  /** The class variant's total over the first `lines` lines adds up its per-line points. */
  lemma {:induction false} ClassAxisSum(b: seq<Flower>, axis: Axis, lines: nat)
    requires |b| == CellCount && lines <= Side
    ensures GameClass.AxisScore(b, axis, lines) == Sum(ClassLines(b, axis), lines)
  {
    if lines > 0 {
      ClassAxisSum(b, axis, lines - 1);
    }
  }

  /** The module variant's total over the first `lines` lines adds up its per-line points. */
  lemma {:induction false} ModuleAxisSum(b: seq<Cell>, axis: Axis, lines: nat)
    requires |b| == CellCount && lines <= Side
    ensures GameModule.AxisPoints(b, axis, lines) == Sum(ModuleLines(b, axis), lines)
  {
    if lines > 0 {
      ModuleAxisSum(b, axis, lines - 1);
    }
  }

  /**
   * Over all lines of one axis, the class variant scores at least as much,
   * and the same exactly when none of those lines holds four in a row.
   */
  lemma AxisScoresCompared(b: seq<Flower>, axis: Axis)
    requires |b| == CellCount
    ensures GameClass.AxisScore(b, axis, Side) >= GameModule.AxisPoints(Blooms(b), axis, Side)
    ensures GameClass.AxisScore(b, axis, Side) == GameModule.AxisPoints(Blooms(b), axis, Side) <==>
      forall line :: 0 <= line < Side ==> !FourInARow(LineOf(b, axis, line))
  {
    var xs, ys := ClassLines(b, axis), ModuleLines(Blooms(b), axis);
    ghost var same := seq(Side, line requires 0 <= line < Side => !FourInARow(LineOf(b, axis, line)));
    forall line | 0 <= line < Side
      ensures xs[line] >= ys[line] && (xs[line] == ys[line] <==> same[line])
    {
      BoardLineCompared(b, axis, line);
    }
    ClassAxisSum(b, axis, Side);
    ModuleAxisSum(Blooms(b), axis, Side);
    SumsCompared(xs, ys, same, Side);
  }

  /**
   * On any board, one scan of the class variant adds at least the points of
   * the module variant's scan, and exactly as many when no row and no column
   * holds four equal flowers in a row.
   */
  lemma ScoresCompared(b: seq<Flower>)
    requires |b| == CellCount
    ensures GameClass.ScanScore(b) >= GameModule.MatchPoints(Blooms(b))
    ensures GameClass.ScanScore(b) == GameModule.MatchPoints(Blooms(b)) <==>
      forall line :: 0 <= line < Side ==>
        !FourInARow(LineOf(b, Horizontal, line)) && !FourInARow(LineOf(b, Vertical, line))
  {
    AxisScoresCompared(b, Horizontal);
    AxisScoresCompared(b, Vertical);
  }
}
