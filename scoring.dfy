/**
 * The board heuristic of winCalculation.ts: every column, row, diagonal and
 * reverse diagonal is walked from its start, and each maximal chunk of one to
 * three equal marks scores +1, +10 or +100000 for 'x' (negated for 'o').
 */
module Scoring {
  import opened Types
  import opened WinDetection

  /** How many equal marks, at most three, start at p along d; 0 on an empty cell. */
  function RunLength(s: Moves, p: Cell, d: Dir): (r: nat)
    ensures r <= 3
    ensures r == 0 <==> Get(s, p) == None
  {
    if Get(s, p) == None then 0
    else if Get(s, Step(p, d, 1)) != Get(s, p) then 1
    else if Get(s, Step(p, d, 2)) != Get(s, p) then 2
    else 3
  }

  /** The value of a chunk of r equal marks: 1, 10 or 100000. */
  function ChunkValue(r: nat): int
  {
    if r == 1 then 1 else if r == 2 then 10 else if r == 3 then 100000 else 0
  }

  /** Positive for 'x', negative for 'o', zero on an empty cell. */
  function ChunkScore(s: Moves, p: Cell, d: Dir): int
  {
    match Get(s, p)
    case None => 0
    case Some(m) => (if m == X then 1 else -1) * ChunkValue(RunLength(s, p, d))
  }

  /** How far the walk moves past the chunk at p: its length, or one step over an empty cell. */
  function Advance(s: Moves, p: Cell, d: Dir): (k: nat)
    ensures 1 <= k <= 3
  {
    if RunLength(s, p, d) == 0 then 1 else RunLength(s, p, d)
  }

  /**
   * The score of a walk from p along d while n cells remain in the loop's
   * bounds. The chunk at the last cells may read past them.
   */
  function LineScore(s: Moves, p: Cell, d: Dir, n: int): int
    decreases n
  {
    if n <= 0 then 0
    else ChunkScore(s, p, d) + LineScore(s, Step(p, d, Advance(s, p, d)), d, n - Advance(s, p, d))
  }

  /** Column x: (x, 0) down while y < rows. */
  function ColumnLine(s: Moves, x: int, rows: int): int
  {
    LineScore(s, (x, 0), Down, rows)
  }

  /** Row y: (0, y) right while x < columns. */
  function RowLine(s: Moves, columns: int, y: int): int
  {
    LineScore(s, (0, y), Right, columns)
  }

  /** A diagonal from p down-right while x < columns and y < rows. */
  function DiagonalLine(s: Moves, columns: int, rows: int, p: Cell): int
  {
    LineScore(s, p, DownRight, Min(columns - p.0, rows - p.1))
  }

  /** A reverse diagonal from p down-left while x >= 0 and y < rows. */
  function ReverseLine(s: Moves, rows: int, p: Cell): int
  {
    LineScore(s, p, DownLeft, Min(p.0 + 1, rows - p.1))
  }

  /** Columns 0 .. k - 1. */
  function ColumnsScore(s: Moves, k: int, rows: int): int
    decreases k
  {
    if k <= 0 then 0 else ColumnsScore(s, k - 1, rows) + ColumnLine(s, k - 1, rows)
  }

  /** Rows 0 .. k - 1. */
  function RowsScore(s: Moves, columns: int, k: int): int
    decreases k
  {
    if k <= 0 then 0 else RowsScore(s, columns, k - 1) + RowLine(s, columns, k - 1)
  }

  /** Diagonals from (0, 0) .. (k - 1, 0). */
  function DiagonalsFromTop(s: Moves, columns: int, rows: int, k: int): int
    decreases k
  {
    if k <= 0 then 0
    else DiagonalsFromTop(s, columns, rows, k - 1) + DiagonalLine(s, columns, rows, (k - 1, 0))
  }

  /** Diagonals from (0, 1) .. (0, k - 1). */
  function DiagonalsFromLeft(s: Moves, columns: int, rows: int, k: int): int
    decreases k
  {
    if k <= 1 then 0
    else DiagonalsFromLeft(s, columns, rows, k - 1) + DiagonalLine(s, columns, rows, (0, k - 1))
  }

  /** Reverse diagonals from (0, 0) .. (k - 1, 0). */
  function ReversesFromTop(s: Moves, rows: int, k: int): int
    decreases k
  {
    if k <= 0 then 0 else ReversesFromTop(s, rows, k - 1) + ReverseLine(s, rows, (k - 1, 0))
  }

  /** The column the secondary reverse diagonals start from, whatever the board's width. */
  const ReverseStartColumn := 3

  /** Reverse diagonals from (3, 1) .. (3, k - 1). */
  function ReversesFromSide(s: Moves, rows: int, k: int): int
    decreases k
  {
    if k <= 1 then 0 else ReversesFromSide(s, rows, k - 1) + ReverseLine(s, rows, (ReverseStartColumn, k - 1))
  }

  function TotalColumnScore(s: Moves, columns: int, rows: int): int
  {
    ColumnsScore(s, columns, rows)
  }

  function TotalRowScore(s: Moves, columns: int, rows: int): int
  {
    RowsScore(s, columns, rows)
  }

  function TotalDiagonalScore(s: Moves, columns: int, rows: int): int
  {
    DiagonalsFromTop(s, columns, rows, columns) + DiagonalsFromLeft(s, columns, rows, rows)
  }

  function TotalReverseDiagonalScore(s: Moves, columns: int, rows: int): int
  {
    ReversesFromTop(s, rows, columns) + ReversesFromSide(s, rows, rows)
  }

  /** getTotalScore: the four families added up. */
  function TotalScore(s: Moves, columns: int, rows: int): int
  {
    TotalColumnScore(s, columns, rows) + TotalRowScore(s, columns, rows)
      + TotalDiagonalScore(s, columns, rows) + TotalReverseDiagonalScore(s, columns, rows)
  }

  // ---------------------------------------------------------------------
  // The loops as the source writes them

  /** The branches of one loop iteration: the chunk's score and how far the loop moves. */
  method ScoreChunk(s: Moves, p: Cell, d: Dir) returns (delta: int, advance: nat)
    ensures delta == ChunkScore(s, p, d) && advance == Advance(s, p, d)
  {
    var here := Get(s, p);
    if here == Some(X) {
      if Get(s, Step(p, d, 1)) == Some(X) {
        if Get(s, Step(p, d, 2)) == Some(X) {
          delta, advance := 100000, 3;
        } else {
          delta, advance := 10, 2;
        }
      } else {
        delta, advance := 1, 1;
      }
    } else if here == Some(O) {
      if Get(s, Step(p, d, 1)) == Some(O) {
        if Get(s, Step(p, d, 2)) == Some(O) {
          delta, advance := -100000, 3;
        } else {
          delta, advance := -10, 2;
        }
      } else {
        delta, advance := -1, 1;
      }
    } else {
      delta, advance := 0, 1;
    }
  }

  method GetColumnScore(s: Moves, column: int, rows: int) returns (score: int)
    ensures score == ColumnLine(s, column, rows)
  {
    score := 0;
    var y := 0;
    while y < rows
      invariant y >= 0
      invariant score + LineScore(s, (column, y), Down, rows - y) == ColumnLine(s, column, rows)
      decreases rows - y
    {
      var delta, advance := ScoreChunk(s, (column, y), Down);
      score := score + delta;
      y := y + advance;
    }
  }

  method GetRowScore(s: Moves, columns: int, row: int) returns (score: int)
    ensures score == RowLine(s, columns, row)
  {
    score := 0;
    var x := 0;
    while x < columns
      invariant x >= 0
      invariant score + LineScore(s, (x, row), Right, columns - x) == RowLine(s, columns, row)
      decreases columns - x
    {
      var delta, advance := ScoreChunk(s, (x, row), Right);
      score := score + delta;
      x := x + advance;
    }
  }

  method GetDiagonalScore(s: Moves, columns: int, rows: int, start: Cell) returns (score: int)
    ensures score == DiagonalLine(s, columns, rows, start)
  {
    var x, y := start.0, start.1;
    score := 0;
    while x < columns && y < rows
      invariant x - start.0 == y - start.1
      invariant score + LineScore(s, (x, y), DownRight, Min(columns - x, rows - y)) == DiagonalLine(s, columns, rows, start)
      decreases rows - y
    {
      var delta, advance := ScoreChunk(s, (x, y), DownRight);
      score := score + delta;
      x, y := x + advance, y + advance;
    }
  }

  method GetReverseDiagonalScore(s: Moves, rows: int, start: Cell) returns (score: int)
    ensures score == ReverseLine(s, rows, start)
  {
    var x, y := start.0, start.1;
    score := 0;
    while x >= 0 && y < rows
      invariant start.0 - x == y - start.1
      invariant score + LineScore(s, (x, y), DownLeft, Min(x + 1, rows - y)) == ReverseLine(s, rows, start)
      decreases rows - y
    {
      var delta, advance := ScoreChunk(s, (x, y), DownLeft);
      score := score + delta;
      x, y := x - advance, y + advance;
    }
  }

  method GetTotalColumnScore(s: Moves, columns: int, rows: int) returns (score: int)
    ensures score == TotalColumnScore(s, columns, rows)
  {
    score := 0;
    var x := 0;
    while x < columns
      invariant x == 0 || x <= columns
      invariant score == ColumnsScore(s, x, rows)
    {
      var c := GetColumnScore(s, x, rows);
      score := score + c;
      x := x + 1;
    }
  }

  method GetTotalRowScore(s: Moves, columns: int, rows: int) returns (score: int)
    ensures score == TotalRowScore(s, columns, rows)
  {
    score := 0;
    var y := 0;
    while y < rows
      invariant y == 0 || y <= rows
      invariant score == RowsScore(s, columns, y)
    {
      var r := GetRowScore(s, columns, y);
      score := score + r;
      y := y + 1;
    }
  }

  method GetTotalDiagonalScore(s: Moves, columns: int, rows: int) returns (score: int)
    ensures score == TotalDiagonalScore(s, columns, rows)
  {
    score := 0;
    var x := 0;
    while x < columns
      invariant x == 0 || x <= columns
      invariant score == DiagonalsFromTop(s, columns, rows, x)
    {
      var d := GetDiagonalScore(s, columns, rows, (x, 0));
      score := score + d;
      x := x + 1;
    }
    var y := 1;
    while y < rows
      invariant y == 1 || y <= rows
      invariant score == DiagonalsFromTop(s, columns, rows, columns) + DiagonalsFromLeft(s, columns, rows, y)
    {
      var d := GetDiagonalScore(s, columns, rows, (0, y));
      score := score + d;
      y := y + 1;
    }
  }

  method GetTotalReverseDiagonalScore(s: Moves, columns: int, rows: int) returns (score: int)
    ensures score == TotalReverseDiagonalScore(s, columns, rows)
  {
    score := 0;
    var x := 0;
    while x < columns
      invariant x == 0 || x <= columns
      invariant score == ReversesFromTop(s, rows, x)
    {
      var d := GetReverseDiagonalScore(s, rows, (x, 0));
      score := score + d;
      x := x + 1;
    }
    var y := 1;
    while y < rows
      invariant y == 1 || y <= rows
      invariant score == ReversesFromTop(s, rows, columns) + ReversesFromSide(s, rows, y)
    {
      var d := GetReverseDiagonalScore(s, rows, (ReverseStartColumn, y));
      score := score + d;
      y := y + 1;
    }
  }

  /** getTotalScore: the four totals added up; the source's extra requiredWin argument is ignored. */
  method GetTotalScore(s: Moves, columns: int, rows: int) returns (score: int)
    ensures score == TotalScore(s, columns, rows)
  {
    var c := GetTotalColumnScore(s, columns, rows);
    var r := GetTotalRowScore(s, columns, rows);
    var d := GetTotalDiagonalScore(s, columns, rows);
    var v := GetTotalReverseDiagonalScore(s, columns, rows);
    score := c + r + d + v;
  }

  // ---------------------------------------------------------------------
  // Properties

  /** Swapping the colours negates a chunk's score and keeps its length. */
  lemma ChunkSwap(s: Moves, p: Cell, d: Dir)
    ensures ChunkScore(SwapColours(s), p, d) == -ChunkScore(s, p, d)
    ensures Advance(SwapColours(s), p, d) == Advance(s, p, d)
  {
    var t := SwapColours(s);
    assert Get(t, p) == SwapMark(Get(s, p));
    assert Get(t, Step(p, d, 1)) == SwapMark(Get(s, Step(p, d, 1)));
    assert Get(t, Step(p, d, 2)) == SwapMark(Get(s, Step(p, d, 2)));
    assert RunLength(t, p, d) == RunLength(s, p, d);
  }

  lemma {:induction false} LineSwap(s: Moves, p: Cell, d: Dir, n: int)
    ensures LineScore(SwapColours(s), p, d, n) == -LineScore(s, p, d, n)
    decreases n
  {
    if n > 0 {
      ChunkSwap(s, p, d);
      LineSwap(s, Step(p, d, Advance(s, p, d)), d, n - Advance(s, p, d));
    }
  }

  lemma {:induction false} ColumnsSwap(s: Moves, k: int, rows: int)
    ensures ColumnsScore(SwapColours(s), k, rows) == -ColumnsScore(s, k, rows)
    decreases k
  {
    if k > 0 {
      ColumnsSwap(s, k - 1, rows);
      LineSwap(s, (k - 1, 0), Down, rows);
    }
  }

  lemma {:induction false} RowsSwap(s: Moves, columns: int, k: int)
    ensures RowsScore(SwapColours(s), columns, k) == -RowsScore(s, columns, k)
    decreases k
  {
    if k > 0 {
      RowsSwap(s, columns, k - 1);
      LineSwap(s, (0, k - 1), Right, columns);
    }
  }

  lemma DiagonalLineSwap(s: Moves, columns: int, rows: int, p: Cell)
    ensures DiagonalLine(SwapColours(s), columns, rows, p) == -DiagonalLine(s, columns, rows, p)
  {
    LineSwap(s, p, DownRight, Min(columns - p.0, rows - p.1));
  }

  lemma ReverseLineSwap(s: Moves, rows: int, p: Cell)
    ensures ReverseLine(SwapColours(s), rows, p) == -ReverseLine(s, rows, p)
  {
    LineSwap(s, p, DownLeft, Min(p.0 + 1, rows - p.1));
  }

  lemma {:induction false} DiagonalsFromTopSwap(s: Moves, columns: int, rows: int, k: int)
    ensures DiagonalsFromTop(SwapColours(s), columns, rows, k) == -DiagonalsFromTop(s, columns, rows, k)
    decreases k
  {
    if k > 0 {
      DiagonalsFromTopSwap(s, columns, rows, k - 1);
      DiagonalLineSwap(s, columns, rows, (k - 1, 0));
    }
  }

  lemma {:induction false} DiagonalsFromLeftSwap(s: Moves, columns: int, rows: int, k: int)
    ensures DiagonalsFromLeft(SwapColours(s), columns, rows, k) == -DiagonalsFromLeft(s, columns, rows, k)
    decreases k
  {
    if k > 1 {
      DiagonalsFromLeftSwap(s, columns, rows, k - 1);
      DiagonalLineSwap(s, columns, rows, (0, k - 1));
    }
  }

  lemma {:induction false} ReversesSwap(s: Moves, rows: int, k: int)
    ensures ReversesFromTop(SwapColours(s), rows, k) == -ReversesFromTop(s, rows, k)
    ensures ReversesFromSide(SwapColours(s), rows, k) == -ReversesFromSide(s, rows, k)
    decreases k
  {
    if k > 0 {
      ReversesSwap(s, rows, k - 1);
      ReverseLineSwap(s, rows, (k - 1, 0));
      ReverseLineSwap(s, rows, (ReverseStartColumn, k - 1));
    }
  }

  /** The heuristic is antisymmetric: exchanging 'x' and 'o' negates the score. */
  lemma TotalScoreSwap(s: Moves, columns: int, rows: int)
    ensures TotalScore(SwapColours(s), columns, rows) == -TotalScore(s, columns, rows)
  {
    ColumnsSwap(s, columns, rows);
    RowsSwap(s, columns, rows);
    DiagonalsFromTopSwap(s, columns, rows, columns);
    DiagonalsFromLeftSwap(s, columns, rows, rows);
    ReversesSwap(s, rows, columns);
    ReversesSwap(s, rows, rows);
  }

  /** A line with no marks on it (and none just past it) scores 0. */
  lemma {:induction false} EmptyLine(p: Cell, d: Dir, n: int)
    ensures LineScore(map[], p, d, n) == 0
    decreases n
  {
    if n > 0 {
      EmptyLine(Step(p, d, 1), d, n - 1);
    }
  }

  /** A board with no marks scores 0. */
  lemma EmptyBoardScore(columns: int, rows: int)
    ensures TotalScore(map[], columns, rows) == 0
  {
    var e: Moves := map[];
    TotalScoreSwap(e, columns, rows);
    assert SwapColours(e) == e;
  }

  /** The walk reads only the cells from p to two steps past its end. */
  lemma {:induction false} LineFrame(s: Moves, t: Moves, p: Cell, d: Dir, n: int)
    requires forall k :: 0 <= k < n + 2 ==> Get(s, Step(p, d, k)) == Get(t, Step(p, d, k))
    ensures LineScore(s, p, d, n) == LineScore(t, p, d, n)
    decreases n
  {
    if n > 0 {
      assert Step(p, d, 0) == p;
      assert ChunkScore(s, p, d) == ChunkScore(t, p, d) && Advance(s, p, d) == Advance(t, p, d);
      var a := Advance(s, p, d);
      var q := Step(p, d, a);
      forall k | 0 <= k < n - a + 2 ensures Get(s, Step(q, d, k)) == Get(t, Step(q, d, k)) {
        assert Step(q, d, k) == Step(p, d, a + k);
      }
      LineFrame(s, t, q, d, n - a);
    }
  }

  // ---------------------------------------------------------------------
  // Concrete cases

  /** A column x, o, x, x, x of five cells: +1, -1, +100000. */
  lemma ColumnExample(s: Moves)
    requires s == map[(0, 0) := Some(X), (0, 1) := Some(O), (0, 2) := Some(X), (0, 3) := Some(X), (0, 4) := Some(X)]
    ensures ColumnLine(s, 0, 5) == 100000
  {
    assert Get(s, (0, 0)) == Some(X) && Get(s, (0, 1)) == Some(O) && Get(s, (0, 2)) == Some(X);
    assert Get(s, (0, 3)) == Some(X) && Get(s, (0, 4)) == Some(X);
    assert LineScore(s, (0, 2), Down, 3) == 100000;
    assert LineScore(s, (0, 1), Down, 4) == 100000 - 1;
  }

  predicate ColumnsBoard(s: Moves)
  {
    s == map[(0, 0) := Some(X), (0, 1) := Some(X), (0, 2) := Some(X),
             (1, 1) := Some(O), (2, 1) := Some(O), (2, 2) := Some(O)]
  }

  lemma ColumnsBoardFirst(s: Moves)
    requires ColumnsBoard(s)
    ensures ColumnLine(s, 0, 3) == 100000
  {
    assert Get(s, (0, 0)) == Some(X) && Get(s, (0, 1)) == Some(X) && Get(s, (0, 2)) == Some(X);
  }

  lemma ColumnsBoardSecond(s: Moves)
    requires ColumnsBoard(s)
    ensures ColumnLine(s, 1, 3) == -1
  {
    assert Get(s, (1, 0)) == None && Get(s, (1, 1)) == Some(O) && Get(s, (1, 2)) == None;
    assert LineScore(s, (1, 1), Down, 2) == -1;
  }

  lemma ColumnsBoardThird(s: Moves)
    requires ColumnsBoard(s)
    ensures ColumnLine(s, 2, 3) == -10
  {
    assert Get(s, (2, 0)) == None && Get(s, (2, 1)) == Some(O) && Get(s, (2, 2)) == Some(O) && Get(s, (2, 3)) == None;
    assert LineScore(s, (2, 1), Down, 2) == -10;
  }

  /** Three columns: x x x, then o in the middle, then o o at the bottom. */
  lemma TotalColumnExample(s: Moves)
    requires ColumnsBoard(s)
    ensures TotalColumnScore(s, 3, 3) == 99989
  {
    ColumnsBoardFirst(s);
    ColumnsBoardSecond(s);
    ColumnsBoardThird(s);
  }

  /**
   * The chunk at the end of a column reads past the last row: two x at the
   * bottom of a three-row column score 10, or 100000 when an 'x' entry sits
   * at row 3, outside the board.
   */
  lemma ScoreReadsPastTheEdge(s: Moves)
    requires s == map[(0, 1) := Some(X), (0, 2) := Some(X)]
    ensures ColumnLine(s, 0, 3) == 10
    ensures ColumnLine(s[(0, 3) := Some(X)], 0, 3) == 100000
  {
    BottomPair(s);
    BottomPair(s[(0, 3) := Some(X)]);
  }

  /** Column 0 of three rows with x at rows 1 and 2: the pair scores 10, or 100000 with an 'x' at row 3. */
  lemma BottomPair(s: Moves)
    requires Get(s, (0, 0)) == None && Get(s, (0, 1)) == Some(X) && Get(s, (0, 2)) == Some(X)
    ensures ColumnLine(s, 0, 3) == if Get(s, (0, 3)) == Some(X) then 100000 else 10
  {
    assert Step((0, 0), Down, 1) == (0, 1);
    assert Advance(s, (0, 0), Down) == 1;
    assert ColumnLine(s, 0, 3) == LineScore(s, (0, 1), Down, 2);
    assert Step((0, 1), Down, 1) == (0, 2) && Step((0, 1), Down, 2) == (0, 3);
    var r := RunLength(s, (0, 1), Down);
    assert r == if Get(s, (0, 3)) == Some(X) then 3 else 2;
    assert Advance(s, (0, 1), Down) == r && ChunkScore(s, (0, 1), Down) == ChunkValue(r);
  }

  /**
   * The secondary reverse diagonals always start at column 3: on a 3 x 3
   * board the anti-diagonal from (2, 1) to (1, 2) is never walked, so an 'o'
   * pair there, worth -10 as a line, adds nothing to the reverse total.
   */
  lemma ReverseStartQuirk(s: Moves)
    requires s == map[(2, 1) := Some(O), (1, 2) := Some(O)]
    ensures ReverseLine(s, 3, (2, 1)) == -10
    ensures TotalReverseDiagonalScore(s, 3, 3) == 0
  {
    assert ReverseLine(s, 3, (2, 1)) == -10 by {
      assert Get(s, (2, 1)) == Some(O) && Get(s, (1, 2)) == Some(O) && Get(s, (0, 3)) == None;
      assert LineScore(s, (2, 1), DownLeft, 2) == -10;
    }
    assert OnlyAt(s, (2, 1), (1, 2));
    QuirkTop(s);
    QuirkSide(s);
  }

  /** Every mark of s sits at a or at b. */
  ghost predicate OnlyAt(s: Moves, a: Cell, b: Cell)
  {
    forall p :: Get(s, p).Some? ==> p == a || p == b
  }

  lemma QuirkTop(s: Moves)
    requires OnlyAt(s, (2, 1), (1, 2))
    ensures ReversesFromTop(s, 3, 3) == 0
  {
    QuirkTopTwo(s);
    EmptyReverse(s, (2, 0), 3);
  }

  lemma QuirkTopTwo(s: Moves)
    requires OnlyAt(s, (2, 1), (1, 2))
    ensures ReversesFromTop(s, 3, 2) == 0
  {
    EmptyReverse(s, (0, 0), 1);
    EmptyReverse(s, (1, 0), 2);
  }

  lemma QuirkSide(s: Moves)
    requires OnlyAt(s, (2, 1), (1, 2))
    ensures ReversesFromSide(s, 3, 3) == 0
  {
    assert ReverseLine(s, 3, (3, 1)) == 0 by {
      EmptyReverse(s, (3, 1), 2);
    }
    assert ReverseLine(s, 3, (3, 2)) == 0 by {
      EmptyReverse(s, (3, 2), 1);
    }
    assert ReversesFromSide(s, 3, 2) == 0;
  }

  /** A reverse walk off the anti-diagonal through (2, 1) and (1, 2) meets no mark and scores 0. */
  lemma EmptyReverse(s: Moves, p: Cell, n: int)
    requires OnlyAt(s, (2, 1), (1, 2))
    requires p.0 + p.1 != 3
    ensures LineScore(s, p, DownLeft, n) == 0
  {
    forall k | 0 <= k < n + 2 ensures Get(s, Step(p, DownLeft, k)) == None {
      assert Step(p, DownLeft, k) == (p.0 - k, p.1 + k);
    }
    EmptyAlong(s, p, DownLeft, n);
  }

  /** A walk over cells that are all empty, up to two past its end, scores 0. */
  lemma EmptyAlong(s: Moves, p: Cell, d: Dir, n: int)
    requires forall k :: 0 <= k < n + 2 ==> Get(s, Step(p, d, k)) == None
    ensures LineScore(s, p, d, n) == 0
  {
    LineFrame(s, map[], p, d, n);
    EmptyLine(p, d, n);
  }
}
