/**
 * The one-ply tactics of heuristics.ts: the first open cell, in enumeration
 * order, where placing a mark makes `checkTerminal` report that mark as winner.
 */
module Heuristics {
  import opened Types
  import opened Boards
  import opened WinDetection

  /** The find callback: on a copy of the selections, place m at p and ask for the winner. */
  predicate Completes(g: Grid, requiredWin: int, p: Cell, m: Choice)
  {
    CheckTerminal(g.Place(p, m), requiredWin).winner == Some(m)
  }

  /** `moves.find(...)`: the first move whose callback holds. */
  function FirstCompleting(g: Grid, requiredWin: int, moves: seq<Cell>, m: Choice): (r: Option<Cell>)
    ensures r.None? <==> forall i :: 0 <= i < |moves| ==> !Completes(g, requiredWin, moves[i], m)
    ensures r.Some? ==> exists i :: && 0 <= i < |moves| && moves[i] == r.value
                                    && Completes(g, requiredWin, moves[i], m)
                                    && forall j :: 0 <= j < i ==> !Completes(g, requiredWin, moves[j], m)
  {
    if moves == [] then None
    else if Completes(g, requiredWin, moves[0], m) then Some(moves[0])
    else
      var r := FirstCompleting(g, requiredWin, moves[1..], m);
      assert forall i :: 1 <= i < |moves| ==> moves[i] == moves[1..][i - 1];
      r
  }

  /** The first available move after which 'o' is reported as winner, if any. */
  function GetWinningMove(board: Board, requiredWin: int): (r: Option<Cell>)
    reads board
    ensures r.Some? ==> r.value in Available(board.Snapshot()) && Completes(board.Snapshot(), requiredWin, r.value, O)
    ensures r.None? <==> forall p :: p in Available(board.Snapshot()) ==> !Completes(board.Snapshot(), requiredWin, p, O)
  {
    FirstCompleting(board.Snapshot(), requiredWin, Available(board.Snapshot()), O)
  }

  /** The first available move after which 'x' is reported as winner, if any. */
  function GetBlockingMove(board: Board, requiredWin: int): (r: Option<Cell>)
    reads board
    ensures r.Some? ==> r.value in Available(board.Snapshot()) && Completes(board.Snapshot(), requiredWin, r.value, X)
    ensures r.None? <==> forall p :: p in Available(board.Snapshot()) ==> !Completes(board.Snapshot(), requiredWin, p, X)
  {
    FirstCompleting(board.Snapshot(), requiredWin, Available(board.Snapshot()), X)
  }

  /** The move found is the earliest available one that completes: every move before it fails. */
  lemma FirstIsEarliest(g: Grid, requiredWin: int, m: Choice)
    requires FirstCompleting(g, requiredWin, Available(g), m).Some?
    ensures var p := FirstCompleting(g, requiredWin, Available(g), m).value;
      forall q :: q in Available(g) && Before(q, p) ==> !Completes(g, requiredWin, q, m)
  {
    var ms := Available(g);
    var p := FirstCompleting(g, requiredWin, ms, m).value;
    var i :| && 0 <= i < |ms| && ms[i] == p && Completes(g, requiredWin, ms[i], m)
             && forall j :: 0 <= j < i ==> !Completes(g, requiredWin, ms[j], m);
    AvailableMovesOrdered(g.columns, g.rows, g.selections);
    forall q | q in ms && Before(q, p) ensures !Completes(g, requiredWin, q, m) {
      var j :| 0 <= j < |ms| && ms[j] == q;
      if j == i {
        assert false;
      } else if j > i {
        assert false;
      }
    }
  }

  lemma XColumnStands(s: Moves)
    requires s == map[(0, 0) := Some(X), (0, 1) := Some(X), (1, 0) := Some(O), (1, 1) := Some(O)]
    ensures RunMark(s, (0, 0), Down, 2) == Some(X)
    ensures RunMark(s, (1, 0), Down, 2) == Some(O)
  {
    assert Get(s, (0, 0)) == Some(X) && Get(s, (0, 1)) == Some(X);
    assert Get(s, (1, 0)) == Some(O) && Get(s, (1, 1)) == Some(O);
    assert Step((0, 0), Down, 1) == (0, 1);
    assert Step((1, 0), Down, 1) == (1, 1);
  }

  /**
   * The winner checked is the one isWin reports first: when an 'x' column
   * already stands, placing 'o' to complete the second column is not found.
   */
  lemma ReportedWinnerHidesCompletion(s: Moves)
    requires s == map[(0, 0) := Some(X), (0, 1) := Some(X), (1, 0) := Some(O)]
    ensures HasRun(s[(1, 1) := Some(O)], (1, 0), Down, 2, O)
    ensures !Completes(Grid(2, 2, s), 2, (1, 1), O)
  {
    var t := s[(1, 1) := Some(O)];
    XColumnStands(t);
    RunMarkMeaning(t, (1, 0), Down, 2, O);
    FirstColumnStartWins(t, 2, 2, 2);
  }
}
