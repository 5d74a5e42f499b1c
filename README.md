# Flower match-3 board, modelled in Dafny

The repository holds a browser game played on a 6×6 board of flowers. The
player clicks two cells. When the game allows the exchange, the two flowers
swap places and the board is scanned for runs of three or more equal
flowers along rows and columns. Runs earn points. The board logic exists
twice:

- `script.js` has a `Game` class. It decides adjacency by row and column
  distance. It scores every start position of a run, and it replaces every
  matched cell with a random flower.
- `game.js` uses module-level functions and globals. It decides swaps by
  index difference. It scores each maximal run once. It also has a
  `fillGaps` step that fills empty cells.

Both variants keep the board as 36 cells in row-major order, so
`index = row * 6 + col`. The Dafny project models both variants and proves
what each promises. It also proves exactly where the two differ.

Files:

- `board.dfy` (module `Board`) holds the shared vocabulary. This covers
  flowers, cells, rows and columns as lines of the board, exchanging two
  cells, and the random draws.
- `game_class.dfy` (module `GameClass`) models `script.js`. The class
  `GameClass.Game` has the fields the source updates: `cells`, `score`,
  `timeLeft`, `isPlaying` and `selectedCell`. `checkMatches` is specified
  by two functions. `Matched` gives the set of cells the scan collects and
  `ScanScore` gives the points it adds. `Matched` is proved equal to an
  independent definition: the cells lying in some run of three or more
  equal flowers.
- `game_module.dfy` (module `GameModule`) models `game.js`. Its globals
  become the fields of class `GameModule.Game`. A line's maximal runs are
  given by a run-length encoding, `Encode`, with its inverse `Expand`.
  Round trips are proved in both directions, and the encoding is proved
  maximal. The nested `count`/`current` loops of `checkMatches` are proved
  to total `calculatePoints` over exactly those runs.
- `comparison.dfy` (module `Comparison`) relates the two variants. The
  module variant allows every exchange the class variant allows, plus
  exactly the pairs that wrap from one row's end to the next row's start.
  The file also gives concrete rows that the two variants score
  differently. Its main result covers every board: one scan of
  `script.js` adds at least the points `game.js` totals, and exactly as
  many when no row and no column holds four equal flowers in a row.

Randomness (`Math.floor(Math.random() * 4)`) is a parameter. `draws` is a
sequence of 36 indices below 4, one per cell. A cell that receives a fresh
flower gets `FLOWERS[draws[index]]`, using each file's own `FLOWERS` order.

What the two files do, and what they do not do:

- Neither file applies gravity, cascades, match-free generation, or a swap
  that reverts when nothing matches.
- `game.js` lets the player exchange the last cell of a row with the first
  cell of the next row, because its rule is an index difference of 1 or 6.
- `script.js` counts the sub-runs of a run: a run of four earns 200 + 100.
  A run of six earns nothing for its own length, because there is no case
  for 6.
- `game.js` pays nothing for a run of six.
- `game.js` never empties a cell, so `fillGaps` finds nothing to fill on any
  board the game reaches.

## Model

| member | source | states |
|---|---|---|
| Board.Swapped | script.js:77-81 | the exchange puts each of the two cells' values in the other's place, leaves every other cell as it was, and keeps the multiset of flowers |
| Board.Abs | script.js:74 | `Math.abs`: the result is the argument or its negation, and never negative |
| Board.SwapTwiceRestores | script.js:77-81 | exchanging the same two cells twice gives back the original board |
| Board.SwapSymmetric | game.js:45-49 | exchanging cells i and j is the same as exchanging j and i |
| Board.PosInverse | script.js:69-72 | a line's k-th cell lies on that line at offset k; row is `Math.floor(index / 6)` and column is `index % 6` |
| GameClass.IsAdjacent | script.js:68-75 | the row distance plus the column distance of the two indices is 1; `IsAdjacentExactly` characterises it as a difference of 1 within one row or a difference of 6 |
| GameClass.IsAdjacentSymmetric | script.js:68-75 | `isAdjacent(a, b) == isAdjacent(b, a)` |
| GameClass.IsAdjacentIrreflexive | script.js:68-75 | no cell is adjacent to itself |
| GameClass.IsAdjacentExactly | script.js:68-75 | adjacent exactly when the two indices are horizontal neighbours in one row (differ by 1, same row) or vertical neighbours (differ by 6) |
| GameClass.RowEndNotAdjacentToNextRowStart | script.js:68-75 | indices 5 and 6, and 11 and 12, are not adjacent |
| GameClass.RunFrom | script.js:92-98 | the `matchLength` the inner loop measures from a start is at least 1 and never passes the line's end; `RunFromSpec` and `RunFromCovers` characterise it as the length of the run of equal flowers from the start |
| GameClass.RunFromSpec | script.js:92-98 | the measured run from a start holds only the start's flower, and the cell after it (if any) differs |
| GameClass.RunFromCovers | script.js:92-98 | any block of equal flowers beginning at a start lies within the run measured from there |
| GameClass.MatchLength | script.js:92-98 | the inner `matchLength` loop returns the length of the run of equal flowers from the start, stopping at the line's end or the first different flower |
| GameClass.ScoreIncrement | script.js:139-150 | 100, 200 or 300 for lengths 3, 4 or 5 (that is 100·(length−2)), otherwise 0; never negative |
| GameClass.StartPoints | script.js:100-105 | points added at one start are never negative |
| GameClass.LinePoints | script.js:89-106 | points of one line are never negative |
| GameClass.AxisScore | script.js:88-129 | points of all rows, or of all columns, are never negative |
| GameClass.ScanScore | script.js:83-129 | the points one scan adds are never negative |
| GameClass.RunCellsMembers | script.js:101-103 | the cells collected for a run are exactly the board indices of offsets from..from+len−1 of that line |
| GameClass.LineMarksSound | script.js:88-107 | every index collected from a line lies on that line, inside a run of three or more equal flowers |
| GameClass.LineMarksGrow | script.js:89 | scanning more start positions of a line never collects fewer cells |
| GameClass.LineMarksComplete | script.js:88-107 | every cell inside a run of three or more of a line is collected, because some start 0..3 begins a run covering it |
| GameClass.AxisMarksSound | script.js:110-129 | every index collected by a whole row or column scan lies in a run of three or more of its own line |
| GameClass.AxisMarksComplete | script.js:110-129 | every cell in a run of three or more of its row (or column) is collected by the row (or column) scan |
| GameClass.MatchedExactly | script.js:83-129 | an index is in `matched` if and only if it is a board cell lying in a horizontal or vertical run of at least three equal flowers |
| GameClass.Matched | script.js:85-129 | the `matched` set after both scans: the cells the row scan collects together with those the column scan collects; `MatchedExactly` characterises it as the cells lying in a horizontal or vertical run of three or more |
| GameClass.MatchedInRange | script.js:85-129 | every collected index is a board index 0..35 |
| GameClass.Replaced | script.js:131-136 | cells outside `matched` keep their flower; each cell in it gets its drawn flower |
| GameClass.ReplaceNothing | script.js:132 | with nothing matched, the board is unchanged |
| GameClass.NothingMatchedNothingReplaced | script.js:131-136 | a board without any run of three leaves `checkMatches` with the board unchanged |
| GameClass.RunOfFourScoresTwice | script.js:89-105 | a run of exactly four is measured as 4 from its first cell and 3 from its second, adding 200 + 100 = 300 |
| GameClass.FullLineScore | script.js:89-105 | a line of six equal flowers earns nothing at its first start (no case 6) and 600 over the line (300 + 200 + 100) |
| GameClass.NewBoard | script.js:34-43 | the new board holds the drawn flower in every cell |
| GameClass.Game.constructor | script.js:2-8 | score 0, 45 seconds, not playing, nothing selected |
| GameClass.Game.UpdateScore | script.js:139-152 | the score grows by `ScoreIncrement(matchLength)` and never decreases |
| GameClass.Game.SwapCells | script.js:77-81 | the board becomes `Swapped` of the old board at the two indices |
| GameClass.Game.CollectRun | script.js:101-103 | adds exactly the run's board indices to `matched` |
| GameClass.Game.ScanStart | script.js:90-105 | one start adds its run's cells and its points when the run is three or longer, and nothing otherwise |
| GameClass.Game.ScanLine | script.js:89-106 | one row or column adds its collected cells and its points |
| GameClass.Game.ScanAxis | script.js:88-129 | all rows, or all columns, add their collected cells and points |
| GameClass.Game.ReplaceMatched | script.js:132-136 | the board becomes `Replaced` of the old board: only collected cells change, each to its drawn flower |
| GameClass.Game.CheckMatches | script.js:83-137 | score grows by the scan's points of the old board; the board becomes the old board with exactly the cells of its runs of three or more redrawn |
| GameClass.Game.HandleCellClick | script.js:45-66 | ignored unless playing and a cell was hit; the first click selects; the second click always clears the selection and swaps and rescans only when `isAdjacent` holds, so a second click on the same cell only deselects |
| GameClass.Game.CreateBoard | script.js:34-43 | the board becomes the drawn board |
| GameClass.Game.StartGame | script.js:172-180 | score 0, 45 seconds, playing, a freshly drawn board |
| GameClass.Game.EndGame | script.js:165-170 | clicks are ignored afterwards |
| GameModule.CanSwap | game.js:39-43 | two positions may be exchanged when their index difference is 1 or 6 in absolute value; `CanSwapExactly` characterises it |
| GameModule.CanSwapSymmetric | game.js:39-43 | `canSwap(a, b) == canSwap(b, a)` |
| GameModule.CanSwapIrreflexive | game.js:39-43 | a cell cannot be swapped with itself |
| GameModule.CanSwapExactly | game.js:39-43 | allowed exactly when the positions differ by 1 or by 6, in either direction |
| GameModule.CanSwapWrapsRows | game.js:42 | positions 5 and 6, 11 and 12, and 29 and 30, which lie on different rows, may be swapped |
| GameModule.CalculatePoints | game.js:96-103 | 100, 200 or 300 for 3, 4 or 5 (100·(count−2)), 0 for every other count; positive exactly for 3..5 |
| GameModule.SixInARowScoresNothing | game.js:96-103 | a count of 6 earns 0 |
| GameModule.Extend | game.js:61-68 | after one more cell, the last run holds that cell's symbol |
| GameModule.ExtendGrows | game.js:62-63 | a cell equal to `current` lengthens the last run by one and leaves the earlier runs alone |
| GameModule.ExtendStarts | game.js:64-67 | a different cell closes the runs so far and opens a run of one with the new symbol |
| GameModule.EncodePrefix | game.js:58-68 | the runs of a prefix are non-empty and end with the prefix's last cell |
| GameModule.Encode | game.js:57-71 | a line's runs are non-empty and end with the line's last cell |
| GameModule.ExpandExtend | game.js:61-68 | expanding the runs after one more cell gives the old cells followed by that cell |
| GameModule.EncodePrefixAgree | game.js:61-68 | the runs of a prefix depend only on the cells of that prefix |
| GameModule.ExpandEncodePrefix | game.js:58-68 | expanding the runs of a prefix gives back that prefix |
| GameModule.ExpandEncode | game.js:57-71 | expanding a line's runs gives back the line, so the runs cover the line exactly and in order |
| GameModule.EncodePrefixMaximal | game.js:61-68 | the runs of every prefix are non-empty and neighbouring runs differ |
| GameModule.EncodeMaximal | game.js:57-71 | a line's runs are maximal: non-empty, neighbouring runs differ |
| GameModule.EncodeSnoc | game.js:61-68 | appending a cell to a line extends its runs by that cell |
| GameModule.EncodeRepeat | game.js:57-71 | a line of n equal cells is one run of length n |
| GameModule.EncodeAppendRun | game.js:57-71 | appending n equal cells different from the line's end adds exactly one run of length n |
| GameModule.EncodeExpand | game.js:57-71 | expanding maximal runs and encoding again gives back the same runs, so the encoding is the unique maximal decomposition |
| GameModule.ExpandConcat | game.js:57-71 | expanding two sequences of runs one after the other expands their concatenation |
| GameModule.ExpandCons | game.js:57-71 | a run followed by more runs expands to the run's cells followed by the rest's |
| GameModule.RunPoints | game.js:65 | a run earns `calculatePoints(length)` when three or longer, which is positive exactly for lengths 3..5 |
| GameModule.TotalPoints | game.js:54-88 | the sum of the runs' points is never negative |
| GameModule.TotalPointsConcat | game.js:65-70 | the points of two sequences of runs one after the other add up |
| GameModule.TotalPointsPositive | game.js:90 | runs earn points if and only if one of them is 3 to 5 long |
| GameModule.LineScores | game.js:65-70 | a line with a maximal run of 3 to 5 earns at least 100 |
| GameModule.TotalPointsAtLeast | game.js:65-70 | runs earn at least what any single run of 3 to 5 earns, which is at least 100 |
| GameModule.LinePoints | game.js:57-71 | one row's or column's total: the points of the line's maximal runs; `EncodeMaximal` and `ExpandEncode` make these the line's maximal runs, and `ScoreLine` proves the `count`/`current` loop computes it |
| GameModule.AxisPoints | game.js:57-71 | points of all rows, or of all columns, are never negative |
| GameModule.MatchPoints | game.js:54-88 | the total of one `checkMatches` is never negative |
| GameModule.OpenRun | game.js:58-59 | the run still open after n cells holds the n-th cell's symbol |
| GameModule.ScanContinues | game.js:62-63 | when the cell equals `current`, the open run grows by one and no points are due |
| GameModule.ScanBreaks | game.js:64-67 | when the cell differs, the open run is settled with its points and a run of one opens |
| GameModule.ScanEnds | game.js:70 | at the end of the line, the line's points are the settled points plus the open run's |
| GameModule.ScoreLine | game.js:57-71 | one row's `count`/`current` loop adds exactly the line's points: `calculatePoints` of each maximal run of three or more, including one that reaches the line's end |
| GameModule.ScoreAxis | game.js:57-88 | the row loop (or the column loop) adds the points of all six lines |
| GameModule.CountPoints | game.js:54-88 | `points` equals the sum of `calculatePoints` over all maximal runs of three or more in the 6 rows and 6 columns |
| GameModule.Filled | game.js:110-118 | after filling, no cell is empty; non-empty cells are untouched; each empty cell holds its drawn flower from `FLOWERS` |
| GameModule.FilledFull | game.js:113-117 | on a board without empty cells, filling changes nothing |
| GameModule.FilledTwice | game.js:110-118 | filling a second time changes nothing |
| GameModule.SwappedFull | game.js:45-49 | exchanging two cells of a board without empty cells leaves no empty cell |
| GameModule.NewGrid | game.js:14-23 | the grid holds a drawn flower in every cell and no empty cell |
| GameModule.Game.constructor | game.js:2-12 | after loading: drawn grid, score 0, 45 seconds, nothing selected |
| GameModule.Game.CreateGrid | game.js:14-23 | the cells become the drawn grid |
| GameModule.Game.UpdateScore | game.js:105-108 | the score grows by `points` |
| GameModule.Game.SwapCells | game.js:45-49 | the cells become `Swapped` of the old cells at the two positions |
| GameModule.Game.CheckMatches | game.js:51-94 | the board is only read; the score grows by the board's `MatchPoints`; a fill is scheduled if and only if that total is positive |
| GameModule.Game.FillGaps | game.js:110-118 | the cells become `Filled` of the old cells |
| GameModule.Game.HandleCellClick | game.js:25-37 | the first click selects; a second click always clears the selection and swaps and scores only when `canSwap` holds; the score never decreases and a board without empty cells stays so |
| Comparison.AdjacentCanSwap | game.js:39-43 | every pair `isAdjacent` accepts is accepted by `canSwap` |
| Comparison.CanSwapBeyondAdjacent | game.js:39-43 | `canSwap` accepts a pair that `isAdjacent` rejects exactly when the indices differ by 1 but lie on different rows |
| Comparison.SameRunValues | game.js:96-103 | `updateScore` and `calculatePoints` pay the same for every length |
| Comparison.RowOfFourClassPoints | script.js:88-107 | the row Rose ×4, Tulip, Sunflower earns 300 in the class variant |
| Comparison.RowOfFourModulePoints | game.js:57-71 | the same row earns 200 in the module variant |
| Comparison.RunOfFourScoredDifferently | game.js:57-71 | the two variants score that row 300 and 200 |
| Comparison.RunOfSixScoredDifferently | game.js:57-71 | a row of six equal flowers earns 600 in the class variant and 0 in the module variant |
| Comparison.RunsFromMaximal | script.js:92-98 | the runs measured from a start and then from the first cell past each run are maximal, and the first holds the start's flower |
| Comparison.RunsFromExpand | script.js:92-98 | those runs cover exactly the line's cells from the start on, in order |
| Comparison.EncodeIsRunsFrom | game.js:57-71 | `game.js`'s runs of a line are exactly the runs `script.js` measures from start 0, jumping past each run |
| Comparison.ClassLineSum | script.js:89-106 | scanning only starts 0 to 3 of a line scores the same as scanning all six starts |
| Comparison.ClassSumRun | script.js:89-105 | the starts inside one maximal run of n together earn `RunValue(n)` |
| Comparison.ClassSumRuns | script.js:89-106 | a line's points in `script.js` are the sum of `RunValue` over its maximal runs |
| Comparison.RunValueExceeds | script.js:139-150 | per run, `script.js` pays at least what `calculatePoints` pays, and the same exactly for runs of at most three |
| Comparison.ClassTotalExceeds | script.js:89-106 | over a line's runs, `script.js` pays at least `game.js`'s total, and the same exactly when no run is longer than three |
| Comparison.LongRunIffFour | script.js:92-98 | some measured run is longer than three exactly when four equal flowers follow one another |
| Comparison.LineScoresCompared | script.js:88-107 | on one line `script.js` scores at least what `game.js` scores, and the same exactly when the line has no four equal flowers in a row |
| Comparison.BoardLineCompared | script.js:88-129 | the same comparison for any row or column of a board |
| Comparison.ClassAxisSum | script.js:88-129 | the points of all rows (or all columns) are the sum of the per-line points |
| Comparison.ModuleAxisSum | game.js:57-88 | the same for `game.js`'s row loop and column loop |
| Comparison.AxisScoresCompared | script.js:88-129 | over all rows (or all columns), `script.js` scores at least what `game.js` scores, and the same exactly when none of those lines holds four in a row |
| Comparison.ScoresCompared | script.js:83-129 | on any board, one `checkMatches` of `script.js` adds at least the points `game.js` totals, and exactly as many when no row and no column holds four equal flowers in a row |

## Left out

- DOM construction and lookup are not modelled. This covers `createElement`, `appendChild`, `querySelector`, `dataset.index`, `indexOf` on the grid's children, and the `classList` and `style` changes that highlight the selection. A cell is its index.
- Event wiring is not modelled: `initialize`, `addEventListener`, `DOMContentLoaded`. A click is a call to `HandleCellClick`. In `script.js` a click that does not hit a cell is `target == None`.
- Timers are not modelled. The countdown in `startTimer` (script.js:154-163, game.js:120-131) is absent, so `timeLeft` is only set, never decremented. `EndGame` is a method the caller invokes.
- The 300 ms delay of `setTimeout(fillGaps, 300)` is not modelled. `GameModule.Game.CheckMatches` returns whether the fill was scheduled, and the caller invokes `FillGaps`.
- End-of-game presentation is not modelled: the modal, `alert`, and the score and timer texts.
- `game.js`'s `endGame` only calls `removeEventListener` with a handler that was never registered, so clicks keep working. The model has no state for it.
- `Math.random` is an injected sequence of draws. Its distribution is not modelled.
- GameClass.Game.HandleCellClick: after `startGame` rebuilds the board while a cell is selected, `selectedCell` in the source refers to a removed DOM element. The next adjacent click then exchanges text with that removed element. The model keeps the selection as an index into the new board instead.
- GameClass.Game.constructor: the source has no board cells before the first `startGame`. The model holds a placeholder board, which cannot be reached because clicks are ignored until `isPlaying` is set.
- GameClass.Game.ReplaceMatched: the source visits `matched` in insertion order. The model visits cells in index order. Each cell has its own draw, so the resulting board is the same.
- The text of a `game.js` cell is modelled as either empty or a single flower. No other text can appear.
