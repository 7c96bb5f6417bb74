/**
 * Line detection of winCalculation.ts: the four run detectors (column, row,
 * diagonal, reverse diagonal), their combination `isWin`, the draw test
 * `isCat` and the summary `checkTerminal`.
 */
module WinDetection {
  import opened Types
  import opened Boards

  type Dir = (int, int)

  const Down: Dir := (0, 1)
  const Right: Dir := (1, 0)
  const DownRight: Dir := (1, 1)
  const DownLeft: Dir := (-1, 1)

  /** The cell k steps from p in direction d. */
  function Step(p: Cell, d: Dir, k: int): Cell
  {
    (p.0 + k * d.0, p.1 + k * d.1)
  }

  /**
   * What one detector's inner loop leaves in `isWinning…`: the mark of the
   * start cell when it holds one and each of the next n - 1 cells holds the same.
   */
  function RunMark(s: Moves, p: Cell, d: Dir, n: int): Option<Choice>
  {
    if Get(s, p).Some? && forall k :: 1 <= k < n ==> Get(s, Step(p, d, k)) == Get(s, p)
    then Get(s, p) else None
  }

  /** n consecutive cells (at least the start cell) from p along d all hold m. */
  predicate HasRun(s: Moves, p: Cell, d: Dir, n: int, m: Choice)
  {
    forall k :: 0 <= k < Max(n, 1) ==> Get(s, Step(p, d, k)) == Some(m)
  }

  /** The start cells one detector tries, x in [xStart, xEnd) and y in [0, yEnd), and its direction. */
  datatype Family = Family(dir: Dir, xStart: int, xEnd: int, yEnd: int)

  predicate IsStart(f: Family, p: Cell)
  {
    f.xStart <= p.0 < f.xEnd && 0 <= p.1 < f.yEnd
  }

  function ColumnFamily(columns: int, rows: int, winNumber: int): Family
  {
    Family(Down, 0, columns, rows - winNumber + 1)
  }

  function RowFamily(columns: int, rows: int, winNumber: int): Family
  {
    Family(Right, 0, columns - winNumber + 1, rows)
  }

  function DiagonalFamily(columns: int, rows: int, winNumber: int): Family
  {
    Family(DownRight, 0, columns - winNumber + 1, rows - winNumber + 1)
  }

  function ReverseDiagonalFamily(columns: int, rows: int, winNumber: int): Family
  {
    Family(DownLeft, winNumber - 1, columns, rows - winNumber + 1)
  }

  /** The nested loops of a detector, resumed at (x, y): the first run found in loop order. */
  function Scan(s: Moves, f: Family, n: int, x: int, y: int): Option<Choice>
    decreases f.xEnd - x, f.yEnd - y
  {
    if x >= f.xEnd then None
    else if y >= f.yEnd then Scan(s, f, n, x + 1, 0)
    else if RunMark(s, (x, y), f.dir, n).Some? then RunMark(s, (x, y), f.dir, n)
    else Scan(s, f, n, x, y + 1)
  }

  function FamilyWinner(s: Moves, f: Family, n: int): Option<Choice>
  {
    Scan(s, f, n, f.xStart, 0)
  }

  function ColumnWinner(s: Moves, columns: int, rows: int, winNumber: int): Option<Choice>
  {
    FamilyWinner(s, ColumnFamily(columns, rows, winNumber), winNumber)
  }

  function RowWinner(s: Moves, columns: int, rows: int, winNumber: int): Option<Choice>
  {
    FamilyWinner(s, RowFamily(columns, rows, winNumber), winNumber)
  }

  function DiagonalWinner(s: Moves, columns: int, rows: int, winNumber: int): Option<Choice>
  {
    FamilyWinner(s, DiagonalFamily(columns, rows, winNumber), winNumber)
  }

  function ReverseDiagonalWinner(s: Moves, columns: int, rows: int, winNumber: int): Option<Choice>
  {
    FamilyWinner(s, ReverseDiagonalFamily(columns, rows, winNumber), winNumber)
  }

  function OrElse(a: Option<Choice>, b: Option<Choice>): Option<Choice>
  {
    if a.Some? then a else b
  }

  /** isWin: the first detector that reports a mark, in the order column, row, diagonal, reverse diagonal. */
  function IsWin(s: Moves, columns: int, rows: int, winNumber: int): Option<Choice>
  {
    OrElse(ColumnWinner(s, columns, rows, winNumber),
      OrElse(RowWinner(s, columns, rows, winNumber),
        OrElse(DiagonalWinner(s, columns, rows, winNumber),
          ReverseDiagonalWinner(s, columns, rows, winNumber))))
  }

  /** isCat: the map holds as many entries as the board has cells; every entry counts. */
  function IsCat(s: Moves, columns: int, rows: int): bool
  {
    |s| == columns * rows
  }

  datatype TerminalStatus = TerminalStatus(isTerminal: bool, isWinner: bool, isCat: bool, winner: Option<Choice>)

  function CheckTerminal(g: Grid, requiredWin: int): (t: TerminalStatus)
    ensures t.isTerminal <==> t.isWinner || t.isCat
    ensures t.isWinner <==> t.winner.Some?
    ensures t.winner == IsWin(g.selections, g.columns, g.rows, requiredWin)
    ensures t.isCat == IsCat(g.selections, g.columns, g.rows)
  {
    var isCatGame := IsCat(g.selections, g.columns, g.rows);
    var isWinner := IsWin(g.selections, g.columns, g.rows, requiredWin);
    TerminalStatus(isWinner.Some? || isCatGame, isWinner.Some?, isCatGame, isWinner)
  }

  // ---------------------------------------------------------------------
  // The detectors as the source writes them

  /** The inner loop: compare each of the next n - 1 cells with the start cell; stop at the first difference. */
  method RunAt(s: Moves, p: Cell, d: Dir, n: int) returns (v: Option<Choice>)
    ensures v == RunMark(s, p, d, n)
  {
    v := Get(s, p);
    if v.Some? {
      var k := 1;
      while k < n
        invariant 1 <= k
        invariant forall j :: 1 <= j < k ==> Get(s, Step(p, d, j)) == Get(s, p)
      {
        if Get(s, Step(p, d, k)) != Get(s, p) {
          v := None;
          break;
        }
        k := k + 1;
      }
    }
  }

  /** The outer loops shared by the four detectors: x outer, y inner, return at the first run. */
  method ScanFamily(s: Moves, f: Family, n: int) returns (w: Option<Choice>)
    ensures w == FamilyWinner(s, f, n)
  {
    var x := f.xStart;
    while x < f.xEnd
      invariant Scan(s, f, n, x, 0) == FamilyWinner(s, f, n)
    {
      var y := 0;
      while y < f.yEnd
        invariant Scan(s, f, n, x, y) == FamilyWinner(s, f, n)
      {
        var v := RunAt(s, (x, y), f.dir, n);
        if v.Some? {
          return v;
        }
        y := y + 1;
      }
      x := x + 1;
    }
    return None;
  }

  method IsColumnWin(s: Moves, columns: int, rows: int, winNumber: int) returns (w: Option<Choice>)
    ensures w == ColumnWinner(s, columns, rows, winNumber)
  {
    w := ScanFamily(s, ColumnFamily(columns, rows, winNumber), winNumber);
  }

  method IsRowWin(s: Moves, columns: int, rows: int, winNumber: int) returns (w: Option<Choice>)
    ensures w == RowWinner(s, columns, rows, winNumber)
  {
    w := ScanFamily(s, RowFamily(columns, rows, winNumber), winNumber);
  }

  method IsDiagonalWin(s: Moves, columns: int, rows: int, winNumber: int) returns (w: Option<Choice>)
    ensures w == DiagonalWinner(s, columns, rows, winNumber)
  {
    w := ScanFamily(s, DiagonalFamily(columns, rows, winNumber), winNumber);
  }

  method IsReverseDiagonalWin(s: Moves, columns: int, rows: int, winNumber: int) returns (w: Option<Choice>)
    ensures w == ReverseDiagonalWinner(s, columns, rows, winNumber)
  {
    w := ScanFamily(s, ReverseDiagonalFamily(columns, rows, winNumber), winNumber);
  }

  // ---------------------------------------------------------------------
  // Properties

  /** The inner loop reports m exactly when a run of m of the required length starts at p. */
  lemma RunMarkMeaning(s: Moves, p: Cell, d: Dir, n: int, m: Choice)
    ensures RunMark(s, p, d, n) == Some(m) <==> HasRun(s, p, d, n, m)
  {
    assert Step(p, d, 0) == p;
    if HasRun(s, p, d, n, m) {
      assert Get(s, p) == Some(m);
    }
  }

  /** The start cells of a family from (x, y) on, in loop order. */
  predicate Pending(f: Family, x: int, y: int, p: Cell)
  {
    IsStart(f, p) && (p.0 > x || (p.0 == x && p.1 >= y))
  }

  lemma {:induction false} ScanMeaning(s: Moves, f: Family, n: int, x: int, y: int)
    requires x >= f.xStart && y >= 0
    ensures Scan(s, f, n, x, y) == None <==>
      forall p :: Pending(f, x, y, p) ==> RunMark(s, p, f.dir, n) == None
    ensures Scan(s, f, n, x, y) != None ==> exists p ::
      && Pending(f, x, y, p)
      && RunMark(s, p, f.dir, n) == Scan(s, f, n, x, y)
      && forall q :: Pending(f, x, y, q) && Before(q, p) ==> RunMark(s, q, f.dir, n) == None
    decreases f.xEnd - x, f.yEnd - y
  {
    if x >= f.xEnd {
    } else if y >= f.yEnd {
      ScanMeaning(s, f, n, x + 1, 0);
      assert forall p :: Pending(f, x, y, p) <==> Pending(f, x + 1, 0, p);
    } else if RunMark(s, (x, y), f.dir, n).Some? {
      assert Pending(f, x, y, (x, y));
    } else {
      ScanMeaning(s, f, n, x, y + 1);
      assert forall p :: Pending(f, x, y, p) <==> p == (x, y) || Pending(f, x, y + 1, p);
    }
  }

  /**
   * A detector reports nothing exactly when no start cell of its family starts
   * a run; otherwise it reports the mark of the first such start in loop order.
   */
  lemma FamilyWinnerMeaning(s: Moves, f: Family, n: int)
    ensures FamilyWinner(s, f, n) == None <==>
      forall p :: IsStart(f, p) ==> RunMark(s, p, f.dir, n) == None
    ensures FamilyWinner(s, f, n) != None ==> exists p ::
      && IsStart(f, p)
      && RunMark(s, p, f.dir, n) == FamilyWinner(s, f, n)
      && forall q :: IsStart(f, q) && Before(q, p) ==> RunMark(s, q, f.dir, n) == None
  {
    ScanMeaning(s, f, n, f.xStart, 0);
    assert forall p :: Pending(f, f.xStart, 0, p) <==> IsStart(f, p);
  }

  /** Some family among the four has a start cell from which m has a run. */
  ghost predicate SomeRun(s: Moves, columns: int, rows: int, winNumber: int, m: Choice)
  {
    exists p :: || (IsStart(ColumnFamily(columns, rows, winNumber), p) && HasRun(s, p, Down, winNumber, m))
                || (IsStart(RowFamily(columns, rows, winNumber), p) && HasRun(s, p, Right, winNumber, m))
                || (IsStart(DiagonalFamily(columns, rows, winNumber), p) && HasRun(s, p, DownRight, winNumber, m))
                || (IsStart(ReverseDiagonalFamily(columns, rows, winNumber), p) && HasRun(s, p, DownLeft, winNumber, m))
  }

  lemma FamilyNoneMeaning(s: Moves, f: Family, n: int)
    ensures FamilyWinner(s, f, n) == None <==> forall p, m :: IsStart(f, p) ==> !HasRun(s, p, f.dir, n, m)
  {
    FamilyWinnerMeaning(s, f, n);
    forall p, m ensures RunMark(s, p, f.dir, n) == Some(m) <==> HasRun(s, p, f.dir, n, m) {
      RunMarkMeaning(s, p, f.dir, n, m);
    }
  }

  lemma FamilySomeMeaning(s: Moves, f: Family, n: int, m: Choice)
    requires FamilyWinner(s, f, n) == Some(m)
    ensures exists p :: IsStart(f, p) && HasRun(s, p, f.dir, n, m)
  {
    FamilyWinnerMeaning(s, f, n);
    var p :| IsStart(f, p) && RunMark(s, p, f.dir, n) == Some(m);
    RunMarkMeaning(s, p, f.dir, n, m);
  }

  /** isWin is sound: a reported mark has a run of the required length in one of the four directions. */
  lemma IsWinSound(s: Moves, columns: int, rows: int, winNumber: int)
    requires IsWin(s, columns, rows, winNumber).Some?
    ensures SomeRun(s, columns, rows, winNumber, IsWin(s, columns, rows, winNumber).value)
  {
    var m := IsWin(s, columns, rows, winNumber).value;
    if ColumnWinner(s, columns, rows, winNumber).Some? {
      FamilySomeMeaning(s, ColumnFamily(columns, rows, winNumber), winNumber, m);
    } else if RowWinner(s, columns, rows, winNumber).Some? {
      FamilySomeMeaning(s, RowFamily(columns, rows, winNumber), winNumber, m);
    } else if DiagonalWinner(s, columns, rows, winNumber).Some? {
      FamilySomeMeaning(s, DiagonalFamily(columns, rows, winNumber), winNumber, m);
    } else {
      FamilySomeMeaning(s, ReverseDiagonalFamily(columns, rows, winNumber), winNumber, m);
    }
  }

  /** isWin is complete: it reports nothing exactly when no mark has a run anywhere. */
  lemma IsWinComplete(s: Moves, columns: int, rows: int, winNumber: int)
    ensures IsWin(s, columns, rows, winNumber) == None <==>
      forall m :: !SomeRun(s, columns, rows, winNumber, m)
  {
    FamilyNoneMeaning(s, ColumnFamily(columns, rows, winNumber), winNumber);
    FamilyNoneMeaning(s, RowFamily(columns, rows, winNumber), winNumber);
    FamilyNoneMeaning(s, DiagonalFamily(columns, rows, winNumber), winNumber);
    FamilyNoneMeaning(s, ReverseDiagonalFamily(columns, rows, winNumber), winNumber);
    if IsWin(s, columns, rows, winNumber).Some? {
      IsWinSound(s, columns, rows, winNumber);
    }
  }

  // ---------------------------------------------------------------------
  // With at least one cell to a run, the start cells are exactly the cells
  // whose whole run lies on the board

  /** The four directions the detectors walk. */
  predicate IsLineDir(d: Dir)
  {
    d == Down || d == Right || d == DownRight || d == DownLeft
  }

  /** All n cells from p along d lie on a board of the given size. */
  predicate OnBoard(columns: int, rows: int, p: Cell, d: Dir, n: int)
  {
    forall k :: 0 <= k < n ==> InBounds(columns, rows, Step(p, d, k))
  }

  lemma ColumnStartsOnBoard(columns: int, rows: int, winNumber: int, p: Cell)
    requires winNumber >= 1
    ensures IsStart(ColumnFamily(columns, rows, winNumber), p) <==> OnBoard(columns, rows, p, Down, winNumber)
  {
    forall k ensures Step(p, Down, k) == (p.0, p.1 + k) {}
    if OnBoard(columns, rows, p, Down, winNumber) {
      assert InBounds(columns, rows, Step(p, Down, 0)) && InBounds(columns, rows, Step(p, Down, winNumber - 1));
    }
  }

  lemma RowStartsOnBoard(columns: int, rows: int, winNumber: int, p: Cell)
    requires winNumber >= 1
    ensures IsStart(RowFamily(columns, rows, winNumber), p) <==> OnBoard(columns, rows, p, Right, winNumber)
  {
    forall k ensures Step(p, Right, k) == (p.0 + k, p.1) {}
    if OnBoard(columns, rows, p, Right, winNumber) {
      assert InBounds(columns, rows, Step(p, Right, 0)) && InBounds(columns, rows, Step(p, Right, winNumber - 1));
    }
  }

  lemma DiagonalStartsOnBoard(columns: int, rows: int, winNumber: int, p: Cell)
    requires winNumber >= 1
    ensures IsStart(DiagonalFamily(columns, rows, winNumber), p) <==> OnBoard(columns, rows, p, DownRight, winNumber)
  {
    forall k ensures Step(p, DownRight, k) == (p.0 + k, p.1 + k) {}
    if OnBoard(columns, rows, p, DownRight, winNumber) {
      assert InBounds(columns, rows, Step(p, DownRight, 0)) && InBounds(columns, rows, Step(p, DownRight, winNumber - 1));
    }
  }

  lemma ReverseDiagonalStartsOnBoard(columns: int, rows: int, winNumber: int, p: Cell)
    requires winNumber >= 1
    ensures IsStart(ReverseDiagonalFamily(columns, rows, winNumber), p) <==> OnBoard(columns, rows, p, DownLeft, winNumber)
  {
    forall k ensures Step(p, DownLeft, k) == (p.0 - k, p.1 + k) {}
    if OnBoard(columns, rows, p, DownLeft, winNumber) {
      assert InBounds(columns, rows, Step(p, DownLeft, 0)) && InBounds(columns, rows, Step(p, DownLeft, winNumber - 1));
    }
  }

  /** With no cells required, a column start can sit below the last row. */
  lemma ZeroWinNumberStartsOffBoard()
    ensures IsStart(ColumnFamily(3, 3, 0), (0, 3)) && !InBounds(3, 3, (0, 3))
  {
  }

  /** m has a run of the required length lying wholly on the board, in one of the four directions. */
  ghost predicate BoardRun(s: Moves, columns: int, rows: int, winNumber: int, m: Choice)
  {
    exists p, d :: IsLineDir(d) && OnBoard(columns, rows, p, d, winNumber) && HasRun(s, p, d, winNumber, m)
  }

  lemma {:induction false} SomeRunIsBoardRun(s: Moves, columns: int, rows: int, winNumber: int, m: Choice)
    requires winNumber >= 1
    ensures SomeRun(s, columns, rows, winNumber, m) <==> BoardRun(s, columns, rows, winNumber, m)
  {
    if SomeRun(s, columns, rows, winNumber, m) {
      var p :| || (IsStart(ColumnFamily(columns, rows, winNumber), p) && HasRun(s, p, Down, winNumber, m))
               || (IsStart(RowFamily(columns, rows, winNumber), p) && HasRun(s, p, Right, winNumber, m))
               || (IsStart(DiagonalFamily(columns, rows, winNumber), p) && HasRun(s, p, DownRight, winNumber, m))
               || (IsStart(ReverseDiagonalFamily(columns, rows, winNumber), p) && HasRun(s, p, DownLeft, winNumber, m));
      ColumnStartsOnBoard(columns, rows, winNumber, p);
      RowStartsOnBoard(columns, rows, winNumber, p);
      DiagonalStartsOnBoard(columns, rows, winNumber, p);
      ReverseDiagonalStartsOnBoard(columns, rows, winNumber, p);
      var d := if IsStart(ColumnFamily(columns, rows, winNumber), p) && HasRun(s, p, Down, winNumber, m) then Down
        else if IsStart(RowFamily(columns, rows, winNumber), p) && HasRun(s, p, Right, winNumber, m) then Right
        else if IsStart(DiagonalFamily(columns, rows, winNumber), p) && HasRun(s, p, DownRight, winNumber, m) then DownRight
        else DownLeft;
      assert IsLineDir(d) && OnBoard(columns, rows, p, d, winNumber) && HasRun(s, p, d, winNumber, m);
    }
    if BoardRun(s, columns, rows, winNumber, m) {
      var p, d :| IsLineDir(d) && OnBoard(columns, rows, p, d, winNumber) && HasRun(s, p, d, winNumber, m);
      ColumnStartsOnBoard(columns, rows, winNumber, p);
      RowStartsOnBoard(columns, rows, winNumber, p);
      DiagonalStartsOnBoard(columns, rows, winNumber, p);
      ReverseDiagonalStartsOnBoard(columns, rows, winNumber, p);
    }
  }

  /** isWin is sound on the board: a reported mark fills a whole on-board line of the required length. */
  lemma IsWinSoundOnBoard(s: Moves, columns: int, rows: int, winNumber: int)
    requires winNumber >= 1
    requires IsWin(s, columns, rows, winNumber).Some?
    ensures BoardRun(s, columns, rows, winNumber, IsWin(s, columns, rows, winNumber).value)
  {
    IsWinSound(s, columns, rows, winNumber);
    SomeRunIsBoardRun(s, columns, rows, winNumber, IsWin(s, columns, rows, winNumber).value);
  }

  /** isWin is complete on the board: it reports nothing exactly when no mark fills an on-board line. */
  lemma IsWinCompleteOnBoard(s: Moves, columns: int, rows: int, winNumber: int)
    requires winNumber >= 1
    ensures IsWin(s, columns, rows, winNumber) == None <==>
      forall m :: !BoardRun(s, columns, rows, winNumber, m)
  {
    IsWinComplete(s, columns, rows, winNumber);
    forall m ensures SomeRun(s, columns, rows, winNumber, m) <==> BoardRun(s, columns, rows, winNumber, m) {
      SomeRunIsBoardRun(s, columns, rows, winNumber, m);
    }
  }

  /** An empty map has no winner. */
  lemma EmptyHasNoWinner(columns: int, rows: int, winNumber: int)
    ensures IsWin(map[], columns, rows, winNumber) == None
  {
    forall m ensures !SomeRun(map[], columns, rows, winNumber, m) {
      forall p, d: Dir ensures !HasRun(map[], p, d, winNumber, m) {
        assert Get(map[], Step(p, d, 0)) == None;
      }
    }
    IsWinComplete(map[], columns, rows, winNumber);
  }

  /**
   * A full board is one whose count of entries matches columns * rows. When
   * every key is in bounds and holds a mark this means no move is left.
   */
  lemma IsCatMeansNoMoves(s: Moves, columns: int, rows: int)
    requires columns >= 0 && rows >= 0
    requires forall p :: p in s ==> InBounds(columns, rows, p) && s[p].Some?
    ensures IsCat(s, columns, rows) <==> AvailableMoves(columns, rows, s) == []
  {
    AvailableCount(columns, rows, s);
    assert Occupied(columns, rows, s) == s.Keys;
    assert |s.Keys| == |s|;
  }

  /** A run from (0, 0) down is the first thing isWin looks at, so it is what isWin reports. */
  lemma FirstColumnStartWins(s: Moves, columns: int, rows: int, winNumber: int)
    requires columns > 0 && rows - winNumber + 1 > 0
    requires RunMark(s, (0, 0), Down, winNumber).Some?
    ensures IsWin(s, columns, rows, winNumber) == RunMark(s, (0, 0), Down, winNumber)
  {
    assert Scan(s, ColumnFamily(columns, rows, winNumber), winNumber, 0, 0) == RunMark(s, (0, 0), Down, winNumber);
  }

  // ---------------------------------------------------------------------
  // Concrete cases

  /** A 2 x 2 board with one open cell and an out-of-bounds entry counts as a draw. */
  lemma CatCountsOutOfBoundsEntries()
    ensures var s := map[(0, 0) := Some(X), (0, 1) := Some(O), (1, 0) := Some(X), (2, 2) := Some(O)];
      IsCat(s, 2, 2) && AvailableMoves(2, 2, s) == [(1, 1)]
  {
    var s := map[(0, 0) := Some(X), (0, 1) := Some(O), (1, 0) := Some(X), (2, 2) := Some(O)];
    assert s.Keys == {(0, 0), (0, 1), (1, 0), (2, 2)};
    assert ColumnMoves(0, 2, s) == [];
    assert ColumnMoves(1, 1, s) == [];
    assert ColumnMoves(1, 2, s) == [(1, 1)];
  }
}
