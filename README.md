# Tic-tac-toe opponent: a verified Dafny model

This project models the computer opponent of a browser tic-tac-toe variant
and the board predicates that opponent relies on. The board has `columns`
by `rows` cells and holds `x` and `o` marks. A game is won by a run of
`requiredWin` equal marks in a column, a row, a diagonal or a reverse
diagonal. The opponent works in three layers:

- one-ply tactics find an immediately winning or blocking move;
- a heuristic scores the board by its runs of one to three equal marks;
- `getBestMove` searches over the open cells. It is a depth-weighted
  minimax with optional alpha-beta cutoffs.

Module by module:

- `Types`: the marks (`Choice`) and the board map (`Moves`, cell to
  `Option<Choice>`). `None` stands for a key mapped to `undefined`. It also
  holds `Grid`, the three board fields taken as one value.
- `CoordinatesHelper` (`src/coordinatesHelper.ts`): formats a cell as the key
  `"x,y"` and parses it back. Every other module keys its maps by integer
  pairs. The round trip and the injectivity proved here justify that choice.
- `Boards` (`src/classes/Board.ts`): the `Board` class with its three fields.
  `GetAvailableMoves` is proved equal to the specification function
  `AvailableMoves`, and lemmas give that function's membership, order, count
  and frame properties.
- `BoardState` (`src/board.ts`): the free `getAvailableMoves(state)` over a
  state record.
- `WinDetection` (`src/winCalculation.ts`): the four detectors as loops,
  `isWin`, `isCat` and `checkTerminal`.
- `Scoring` (`src/winCalculation.ts`): the chunk scorers and their totals.
- `Heuristics` (`src/heuristics.ts`): `getWinningMove` and `getBlockingMove`.
- `Keys` (`src/minimax.ts`): the two transposition-table key builders.
- `Minimax` (`src/minimax.ts`): `cloneBoard` and `getBestMove`. The
  imperative search methods are proved equal to the pure function
  `Evaluate`. `MinimaxValue` is plain minimax with no window. Lemmas show
  that the unpruned search is minimax and that the pruned search is
  fail-soft with respect to it.

Where the source text and its documentation differ, the model follows the
source. In particular, the scores of the live `getBestMove` are integers,
with one point per ply.

## Model

| member | source | states |
|---|---|---|
| CoordinatesHelper.RoundTrip | src/coordinatesHelper.ts:3-10 | Parsing the formatted key of any integer pair gives back both integers. |
| CoordinatesHelper.KeysInjective | src/coordinatesHelper.ts:8-10 | Two pairs with the same key are equal, so distinct cells never share a map key. |
| CoordinatesHelper.KeyShape | src/coordinatesHelper.ts:9 | For non-negative coordinates the key has a comma right after the decimal of x, and every other character is a digit. |
| CoordinatesHelper.FormatParsed | src/coordinatesHelper.ts:3-6 | A string "a,b" made of two canonical decimals (no leading zeros, no "-0") parses to two integers whose formatted key is that same string. |
| CoordinatesHelper.ParseDecimal | src/coordinatesHelper.ts:5 | Base-10 parseInt of the decimal of any integer, negative ones included, is that integer. |
| CoordinatesHelper.JoinSplit | src/coordinatesHelper.ts:4 | Splitting at commas loses nothing: joining the parts with commas gives back the string. |
| Boards.Board.constructor | src/classes/Board.ts:16-20 | The new board holds exactly the given columns, rows and selections. |
| Boards.Board.GetAvailableMoves | src/classes/Board.ts:22-32 | The nested loops return AvailableMoves of the board's fields. The method has no modifies clause, so it changes no field. |
| Boards.AvailableMovesMembership | src/classes/Board.ts:24-30 | A cell is returned if and only if it is in bounds and unmarked (soundness and completeness). |
| Boards.AvailableMovesOrdered | src/classes/Board.ts:24-25 | The result is in strict column-major order. |
| Boards.OrderMatchesColumnMajor | src/classes/Board.ts:24-25 | Index order coincides with column-major order in both directions, and no cell appears twice. |
| Boards.AvailableCount | src/classes/Board.ts:22-32 | The result has columns * rows entries less the number of marked in-bounds cells. |
| Boards.EmptyBoardCount | src/classes/Board.ts:22-32 | An empty map gives columns * rows moves. |
| Boards.OutOfBoundsIrrelevant | src/classes/Board.ts:24-26 | Two maps that agree on every in-bounds cell give the same moves, whatever they hold outside the bounds. |
| Boards.PlaceShrinks | src/classes/Board.ts:22-32 | Marking an available cell leaves exactly one move fewer. This is the measure that bounds the search's recursion. |
| Boards.PlaceCount | src/classes/Board.ts:22-32 | Marking any cell removes one move if that cell was open and in bounds, and none otherwise. |
| BoardState.GetAvailableMoves | src/board.ts:3-13 | Returns the same sequence as the Board method for equal fields. Each cell is returned iff in bounds and unmarked, in column-major order, and the count is columns * rows less the marked in-bounds cells. The state is a value, so it is unchanged. |
| Types.Grid.Place | src/heuristics.ts:8-9 | Setting a mark on a copy of the selections: same dimensions, the mark at p, every other cell as before. |
| WinDetection.IsColumnWin | src/winCalculation.ts:4-22 | The column detector's loops return the mark of the first start cell, x outer and y inner, that begins a vertical run of winNumber equal marks; None if there is none. |
| WinDetection.IsRowWin | src/winCalculation.ts:24-42 | The same for horizontal runs, with starts x < columns - winNumber + 1. |
| WinDetection.IsDiagonalWin | src/winCalculation.ts:44-62 | The same for down-right runs. |
| WinDetection.IsReverseDiagonalWin | src/winCalculation.ts:64-82 | The same for down-left runs, with starts from x = winNumber - 1. |
| WinDetection.FamilyWinnerMeaning | src/winCalculation.ts:4-82 | A detector returns None iff no start cell begins a run. Otherwise it returns the mark of a start cell that begins a run, and every earlier start in loop order begins none. |
| WinDetection.RunMarkMeaning | src/winCalculation.ts:8-17 | The inner loop reports m iff the start cell and the next winNumber - 1 cells all hold m. An empty start cell never reports. |
| WinDetection.IsWinSound | src/winCalculation.ts:84-91 | A mark returned by isWin has a run of winNumber cells from a start cell of one of the four detectors. |
| WinDetection.IsWinComplete | src/winCalculation.ts:84-91 | isWin returns undefined iff no mark has a run from any detector's start cell. |
| WinDetection.ColumnStartsOnBoard | src/winCalculation.ts:5-6 | For winNumber >= 1, a cell is a start cell of the column detector iff all winNumber cells down from it lie on the board. |
| WinDetection.RowStartsOnBoard | src/winCalculation.ts:25-26 | For winNumber >= 1, a cell is a start cell of the row detector iff all winNumber cells right of it lie on the board. |
| WinDetection.DiagonalStartsOnBoard | src/winCalculation.ts:45-46 | For winNumber >= 1, a cell is a start cell of the diagonal detector iff all winNumber cells down-right from it lie on the board. |
| WinDetection.ReverseDiagonalStartsOnBoard | src/winCalculation.ts:65-66 | For winNumber >= 1, a cell is a start cell of the reverse diagonal detector iff all winNumber cells down-left from it lie on the board. |
| WinDetection.ZeroWinNumberStartsOffBoard | src/winCalculation.ts:5-6 | With winNumber 0 on a 3 x 3 board, the column detector tries the cell (0, 3) below the last row. |
| WinDetection.SomeRunIsBoardRun | src/winCalculation.ts:4-82 | For winNumber >= 1, a mark has a run from some detector's start cell iff it fills winNumber on-board cells in a line along one of the four directions. |
| WinDetection.IsWinSoundOnBoard | src/winCalculation.ts:84-91 | For winNumber >= 1, a mark returned by isWin fills winNumber consecutive on-board cells along a column, row, diagonal or reverse diagonal. |
| WinDetection.IsWinCompleteOnBoard | src/winCalculation.ts:84-91 | For winNumber >= 1, isWin returns undefined iff no mark fills winNumber consecutive on-board cells in any of the four directions. |
| WinDetection.FirstColumnStartWins | src/winCalculation.ts:84-91 | A column run from (0, 0) takes priority over everything else isWin could find. |
| WinDetection.EmptyHasNoWinner | src/winCalculation.test.ts:20-22 | An empty map has no winner on any board. |
| WinDetection.CheckTerminal | src/winCalculation.ts:97-106 | Terminal iff winner or draw; isWinner iff the winner is defined; the winner is isWin's mark and isCat is the draw test. |
| WinDetection.IsCatMeansNoMoves | src/winCalculation.ts:93-95 | When every entry is an in-bounds mark, the draw test holds iff no move is available. |
| WinDetection.CatCountsOutOfBoundsEntries | src/winCalculation.test.ts:60-62 | On a 2 x 2 board an entry at (2, 2) counts towards a draw, although cell (1, 1) is still open. |
| Scoring.ScoreChunk | src/winCalculation.ts:111-135 | One loop iteration: the chunk at the cursor adds +1, +10 or +100000 for one, two or three x, the same negated for o, and 0 on an empty cell. The cursor moves past the chunk, or one step over an empty cell. |
| Scoring.GetColumnScore | src/winCalculation.ts:108-138 | The column loop's total is the greedy chunk sum of the column from row 0. |
| Scoring.GetRowScore | src/winCalculation.ts:140-170 | The row loop's total is the greedy chunk sum of the row from column 0. |
| Scoring.GetDiagonalScore | src/winCalculation.ts:190-237 | The diagonal loop's total is the greedy chunk sum down-right from its start until the board's edge. |
| Scoring.GetReverseDiagonalScore | src/winCalculation.ts:251-298 | The reverse loop's total is the greedy chunk sum down-left from its start until column 0 or the last row. |
| Scoring.GetTotalColumnScore | src/winCalculation.ts:172-179 | The sum of the column scores of every column. |
| Scoring.GetTotalRowScore | src/winCalculation.ts:181-188 | The sum of the row scores of every row. |
| Scoring.GetTotalDiagonalScore | src/winCalculation.ts:239-249 | The sum over the diagonals starting on the top row and on the left edge below it. |
| Scoring.GetTotalReverseDiagonalScore | src/winCalculation.ts:300-310 | The sum over the reverse diagonals starting on the top row, plus those starting at column 3 below it. |
| Scoring.GetTotalScore | src/winCalculation.ts:312-319 | The sum of the four family totals. |
| Scoring.TotalScoreSwap | src/winCalculation.ts:108-319 | Swapping x and o everywhere negates the board score. |
| Scoring.LineSwap | src/winCalculation.ts:108-170 | Swapping colours negates the score of any single line walk. |
| Scoring.EmptyBoardScore | src/winCalculation.test.ts:109-111 | A board without marks scores 0. |
| Scoring.LineFrame | src/winCalculation.ts:108-138 | A line's score depends only on the cells from its start to two steps past its last cell. |
| Scoring.ColumnExample | src/winCalculation.test.ts:66-76 | The column x, o, x, x, x scores 100000. |
| Scoring.TotalColumnExample | src/winCalculation.test.ts:85-96 | The three-column board of the test totals 99989. |
| Scoring.ScoreReadsPastTheEdge | src/winCalculation.ts:108-138 | The last chunk of a column reads below the last row: an x entry outside the board turns a pair worth 10 into a triple worth 100000. |
| Scoring.ReverseStartQuirk | src/winCalculation.ts:306 | The secondary reverse diagonals start at column 3 whatever the width: on a 3 x 3 board an o pair on the anti-diagonal from (2, 1) is worth -10 as a line but adds nothing to the total. |
| Heuristics.FirstCompleting | src/heuristics.ts:7-14 | Array.find: None iff no move completes; otherwise the first move in the sequence whose placement makes the mark the reported winner. |
| Heuristics.GetWinningMove | src/heuristics.ts:6-15 | Returns an available move after which o is the reported winner, or None iff no available move does that. The board is unchanged. |
| Heuristics.GetBlockingMove | src/heuristics.ts:17-26 | The same with x in place of o. |
| Heuristics.FirstIsEarliest | src/heuristics.ts:7-14 | Every available move before the returned one in column-major order fails the test. |
| Heuristics.ReportedWinnerHidesCompletion | src/heuristics.ts:10 | When an x column already stands, placing o to complete a second column does not make o the reported winner. |
| Keys.BoardToTranspositionTableKey | src/minimax.ts:151-161 | The nested loops build the key Key. |
| Keys.BoardToTranspositionTableKeys | src/minimax.ts:163-177 | Returns the pair [Key, InvertedKey]. Its second element is Key of the transposed selections. |
| Keys.KeyShape | src/minimax.ts:151-161 | The key is the raw loop output without its final comma, and its length is columns * (rows + 1) - 1. |
| Keys.KeyCell | src/minimax.ts:155 | The character at group y, position x (x < rows, y < columns) is the mark at (x, y), or '_' if there is none. |
| Keys.KeyComma | src/minimax.ts:157 | Groups are separated by commas at positions y * (rows + 1) + rows. |
| Keys.KeyDeterminesCells | src/minimax.ts:151-161 | Two boards have the same key iff they agree on every cell the loops read. |
| Keys.InvertedKeyIsTransposedKey | src/minimax.ts:163-177 | The inverted key is the plain key of the board with (x, y) moved to (y, x). |
| Keys.TransposedTwice | src/minimax.ts:169 | Transposing twice gives back the same selections. |
| Keys.TransposedKeysSwap | src/minimax.ts:163-177 | The plain and inverted keys of the transposed board are the inverted and plain keys of the board. |
| Keys.EmptyBoardKeys | src/minimax.test.ts:121-123 | The empty 3 x 3 board has both keys "___,___,___". |
| Keys.PopulatedBoardKey | src/minimax.test.ts:125-131 | x at (1, 0) and o at (0, 1) give the key "_x__,o___,____" for 3 columns and 4 rows. |
| Keys.PopulatedBoardInvertedKey | src/minimax.test.ts:125-131 | The same board gives the inverted key "_o__,x___,____". |
| Keys.KeyMissesCellOfTallBoard | src/minimax.ts:153-155 | The groups run over y < columns and read x < rows, so on 3 columns by 4 rows the in-bounds cell (0, 3) never enters the key. |
| Minimax.CloneBoard | src/minimax.ts:143-149 | A fresh board with the same dimensions and selections. |
| Minimax.EarlyResult | src/minimax.ts:227-272 | The returns before the loop coincide with Leaf: a winner is checked first, then the draw, then the depth cutoff. It also returns the available moves. |
| Minimax.GetBestMove | src/minimax.ts:214-328 | The search's score and move equal Evaluate of its state, pruning flag, depth and window. No modifies clause: the caller's board is never changed. |
| Minimax.SearchMoves | src/minimax.ts:259-310 | The loop from the initial best score equals EvaluateMoves. A strictly better child replaces the best. With pruning, alpha rises for x and beta falls for o, and the loop stops once beta <= alpha. |
| Minimax.UpdateBest | src/minimax.ts:289-309 | After one child, the best becomes the child's score and move exactly when it is strictly better for the mover. With pruning the mover's bound moves to that score, and the pass stops exactly when the window is empty. |
| Minimax.SearchChild | src/minimax.ts:275-286 | A cloned board with the mover's mark at the move, searched one ply deeper with the other player to move, equals Evaluate of the child node. |
| Minimax.LeafScores | src/minimax.ts:231-272 | A winner scores -1000000 + depth with x to move and 1000000 - depth with o to move; a draw scores 0; each of these has no move. Past maxDepth the score is the board score - 1000 for x or + 1000 for o, with the first available move. |
| Minimax.UnprunedIsMinimax | src/minimax.ts:274-310 | Without pruning the search equals plain minimax for every window: every move is evaluated. |
| Minimax.BestChildBound | src/minimax.ts:289-291 | The loop's result is at least as good for the mover as its starting score and as every child's value. |
| Minimax.BestChildKeeps | src/minimax.ts:259-291 | The loop keeps its starting result iff no child strictly beats the starting score. |
| Minimax.BestChildWitness | src/minimax.ts:289-291 | A changed result is the value and move of some child that beat the start, and it is strictly better than every earlier child: the earliest move reaching the final score. |
| Minimax.SearchResultMeaning | src/minimax.ts:259-310 | If the loop runs, no available move beats the result. The move stays undefined iff the score stays at plus or minus 1000000, iff no child beats that initial score, with no moves as a special case. A returned move is the earliest one attaining the score. |
| Minimax.MoveIsAvailable | src/minimax.ts:264-291 | A returned move is always one of the open cells. |
| Minimax.PrunedIsFailSoft | src/minimax.ts:289-309 | For any window within the initial scores, the pruned search gives the minimax result exactly when the value lies strictly inside the window. It gives a score at or below alpha when the value is, and at or above beta when the value is. |
| Minimax.PruningPreservesResult | src/minimax.ts:214-328 | From the default window, the pruned and unpruned searches return the same score and move whenever the minimax value lies strictly between -1000000 and 1000000. |

## Left out

- `src/classes/Game.ts`: rendering, DOM, timers, promises and mouse input. It also calls Board methods that do not exist in `src/classes/Board.ts`.
- The board topology mutators tested in `src/classes/Board.test.ts`, and `Level.getWinningSpaces` tested in `src/classes/Level.test.ts`: neither has an implementation in the source.
- `src/classes/Level.ts` and `src/rules.ts`: driven by `Math.random`, floating-point weights and URL parameters.
- `src/index.ts`, `src/environment.ts`, `src/perf/snapshot.test.ts`, the data holders `StatusEffect`, `PowerUp` and `WinLine`, and `jest.config.ts`: I/O, audio, timing and configuration. `src/types.ts` becomes the `Types` datatypes.
- The transposition table object at `src/minimax.ts:141`: the live `getBestMove` never reads or writes it. Only its key builders are modelled.
- The commented-out older search at `src/minimax.ts:1-132`. The fractional expected scores in `src/minimax.test.ts` belong to that variant, not to the live code, so they are not contracts here.
- The fields of `state` other than the ones the search reads. `SearchState` holds the board, `requiredWin`, the player to move and `maxDepth`. `BoardState.State` holds no `room` rule list.
- `getTotalScore`'s fourth argument `requiredWin` is ignored by the source, so `TotalScore` has no such parameter.
- Map aliasing: the `Board` constructor stores the caller's `Map` without copying. The model's `Moves` is a value, so two boards built from one map cannot observe each other's later `set` calls. In the source only freshly copied maps are ever written (`cloneBoard`, and the copies in the tactics), so no behaviour of the core depends on the alias.
- JavaScript numbers: coordinates, scores and depths are unbounded integers. Floating point, `NaN` coordinates and the exponent notation that number formatting uses past 1e21 are not modelled. `parseInt` of a part that has no digits gives the `NaN` case.
- `WinDetection.CheckTerminal` takes the board's three fields as a `Grid` value rather than the `Board` object; it reads nothing else.
- Minimax.PruningPreservesResult: proved only when the minimax value lies strictly between -1000000 and 1000000. From the default window a value on the boundary is reported by fail-soft bounds only (`Minimax.PrunedIsFailSoft`).
- `getBestMove` is one function in the source. The model splits it into `EarlyResult`, `SearchMoves`, `SearchChild` and `UpdateBest` around the same statements. `UpdateBest` returns a `stop` flag for both of the loop's `break`s. `EarlyResult` enumerates the moves before its terminal checks; they are pure, so the order is not observable.
- Runs with winNumber <= 0: the detectors' start ranges then reach past the board, as the source's loop bounds do (`WinDetection.ZeroWinNumberStartsOffBoard`). `WinDetection.IsWinSound` and `WinDetection.IsWinComplete` cover every winNumber in terms of the start cells. Their on-board forms need winNumber >= 1.
- The default arguments of `getBestMove` (`depth = 0`, `alpha = -1000000`, `beta = 1000000`, `src/minimax.ts:217-219`): `GetBestMove` and `Evaluate` take depth, alpha and beta explicitly. Only the lemmas about the search (`Minimax.SearchResultMeaning`, `Minimax.PruningPreservesResult`) start from the default window.
- The two key builders share the specification functions of `Keys`. A flag on them chooses whether the loops read the cell at (x, y) or at (y, x).
