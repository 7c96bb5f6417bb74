/**
 * The search of minimax.ts: `getBestMove`, a depth-weighted minimax over the
 * open cells with optional alpha-beta cutoffs, and `cloneBoard`. The search is
 * specified by the pure function Evaluate; MinimaxValue is plain minimax with
 * no window, and the lemmas below relate the two.
 */
module Minimax {
  import opened Types
  import opened Boards
  import opened WinDetection
  import opened Scoring

  /** The initial best score of the minimiser ('o') and the win score when 'o' is to move. */
  const BestMinimizingScore := 1_000_000
  /** The initial best score of the maximiser ('x') and the win score when 'x' is to move. */
  const BestMaximizingScore := -1_000_000
  /** Added to the heuristic past the depth limit, against the side to move. */
  const CutoffBias := 1000

  datatype Result = Result(bestScore: int, bestMove: Option<Cell>)

  /** What the search reads of its state: the board, the run length, the side to move, the depth limit. */
  datatype Node = Node(grid: Grid, requiredWin: int, player: Choice, maxDepth: int)

  /** The state after the side to move marks p: the board gains the mark and the turn passes. */
  function Child(n: Node, p: Cell): Node
  {
    Node(n.grid.Place(p, n.player), n.requiredWin, Other(n.player), n.maxDepth)
  }

  function InitialScore(player: Choice): int
  {
    if player == X then BestMaximizingScore else BestMinimizingScore
  }

  /** The strict comparison of the loop: higher for 'x', lower for 'o'. */
  predicate Improves(player: Choice, score: int, best: int)
  {
    if player == X then score > best else score < best
  }

  /** `const [defaultMove] = availableMoves`. */
  function FirstMove(ms: seq<Cell>): Option<Cell>
  {
    if |ms| > 0 then Some(ms[0]) else None
  }

  /**
   * The results returned before the loop: a decided game (winner first, then
   * draw) and the heuristic past the depth limit; None when the loop runs.
   */
  function Leaf(n: Node, depth: int): Option<Result>
  {
    var t := CheckTerminal(n.grid, n.requiredWin);
    if t.isTerminal && t.isWinner then
      Some(Result(if n.player == X then BestMaximizingScore + depth else BestMinimizingScore - depth, None))
    else if t.isTerminal && t.isCat then
      Some(Result(0, None))
    else if depth > n.maxDepth then
      Some(Result(TotalScore(n.grid.selections, n.grid.columns, n.grid.rows)
                    + CutoffBias * (if n.player == X then -1 else 1),
                  FirstMove(Available(n.grid))))
    else None
  }

  /** getBestMove as a function of its state, flag, depth and window. */
  function Evaluate(n: Node, pruning: bool, depth: int, alpha: int, beta: int): Result
    decreases |Available(n.grid)|, 1
  {
    match Leaf(n, depth)
    case Some(r) => r
    case None => EvaluateMoves(n, pruning, depth, Available(n.grid), alpha, beta, Result(InitialScore(n.player), None))
  }

  /** The loop over the remaining moves, from the current best and window. */
  function EvaluateMoves(n: Node, pruning: bool, depth: int, moves: seq<Cell>, alpha: int, beta: int, best: Result): Result
    requires forall p :: p in moves ==> p in Available(n.grid)
    decreases |Available(n.grid)|, 0, |moves|
  {
    if moves == [] then best
    else
      assert moves[0] in moves;
      PlaceShrinks(n.grid.columns, n.grid.rows, n.grid.selections, moves[0], n.player);
      var r := Evaluate(Child(n, moves[0]), pruning, depth + 1, alpha, beta);
      var improved := Improves(n.player, r.bestScore, best.bestScore);
      var best' := if improved then Result(r.bestScore, Some(moves[0])) else best;
      var alpha' := if improved && pruning && n.player == X then Max(alpha, r.bestScore) else alpha;
      var beta' := if improved && pruning && n.player == O then Min(beta, r.bestScore) else beta;
      if pruning && beta' <= alpha' then best'
      else EvaluateMoves(n, pruning, depth, moves[1..], alpha', beta', best')
  }

  /** Plain minimax: the same leaves, every move evaluated, no window. */
  function MinimaxValue(n: Node, depth: int): Result
    decreases |Available(n.grid)|, 1
  {
    match Leaf(n, depth)
    case Some(r) => r
    case None => BestChild(n, depth, Available(n.grid), Result(InitialScore(n.player), None))
  }

  function BestChild(n: Node, depth: int, moves: seq<Cell>, best: Result): Result
    requires forall p :: p in moves ==> p in Available(n.grid)
    decreases |Available(n.grid)|, 0, |moves|
  {
    if moves == [] then best
    else
      assert moves[0] in moves;
      PlaceShrinks(n.grid.columns, n.grid.rows, n.grid.selections, moves[0], n.player);
      var r := MinimaxValue(Child(n, moves[0]), depth + 1);
      BestChild(n, depth, moves[1..],
        if Improves(n.player, r.bestScore, best.bestScore) then Result(r.bestScore, Some(moves[0])) else best)
  }

  /** The minimax value of the move p. */
  function ChildScore(n: Node, depth: int, p: Cell): int
  {
    MinimaxValue(Child(n, p), depth + 1).bestScore
  }

  // ---------------------------------------------------------------------
  // The source's form

  /** The search state as getBestMove reads it. */
  datatype SearchState = SearchState(board: Board, requiredWin: int, currentPlayer: Choice, maxDepth: int)

  function NodeOf(state: SearchState): Node
    reads state.board
  {
    Node(state.board.Snapshot(), state.requiredWin, state.currentPlayer, state.maxDepth)
  }

  /** cloneBoard: a new board with the same dimensions and a copy of the selections. */
  method CloneBoard(board: Board) returns (copy: Board)
    ensures fresh(copy)
    ensures copy.columns == board.columns && copy.rows == board.rows && copy.selections == board.selections
  {
    copy := new Board(board.columns, board.rows, board.selections);
  }

  /**
   * The part of getBestMove before its loop: the decided-game returns, the
   * initial best score and the depth cutoff. Returns the early result, if
   * any, and the available moves the loop runs over.
   */
  method EarlyResult(state: SearchState, depth: int) returns (early: Option<Result>, availableMoves: seq<Cell>)
    ensures early == Leaf(NodeOf(state), depth)
    ensures availableMoves == Available(state.board.Snapshot())
  {
    var isMaximizingPlayer := state.currentPlayer == X;
    var terminalState := CheckTerminal(state.board.Snapshot(), state.requiredWin);
    availableMoves := state.board.GetAvailableMoves();
    ghost var n := NodeOf(state);
    assert n.grid == state.board.Snapshot() && terminalState == CheckTerminal(n.grid, n.requiredWin);
    assert Available(n.grid) == availableMoves;
    if terminalState.isTerminal {
      if terminalState.isWinner {
        if state.currentPlayer == X {
          return Some(Result(BestMaximizingScore + depth, None)), availableMoves;
        }
        if state.currentPlayer == O {
          return Some(Result(BestMinimizingScore - depth, None)), availableMoves;
        }
      }
      if terminalState.isCat {
        return Some(Result(0, None)), availableMoves;
      }
    }
    if depth > state.maxDepth {
      var total := GetTotalScore(state.board.selections, state.board.columns, state.board.rows);
      var defaultMove := if |availableMoves| > 0 then Some(availableMoves[0]) else None;
      return Some(Result(total + CutoffBias * (if isMaximizingPlayer then -1 else 1), defaultMove)), availableMoves;
    }
    return None, availableMoves;
  }

  /**
   * getBestMove: a decided game or a depth cutoff returns at once, otherwise
   * the loop over the available moves; the result is Evaluate's.
   */
  method GetBestMove(state: SearchState, pruning: bool, depth: int, alpha: int, beta: int)
      returns (bestScore: int, bestMove: Option<Cell>)
    ensures Result(bestScore, bestMove) == Evaluate(NodeOf(state), pruning, depth, alpha, beta)
    decreases |Available(state.board.Snapshot())|, 2
  {
    var early, availableMoves := EarlyResult(state, depth);
    if early.Some? {
      return early.value.bestScore, early.value.bestMove;
    }
    EvaluateLoop(NodeOf(state), pruning, depth, alpha, beta);
    bestScore, bestMove := SearchMoves(state, pruning, depth, alpha, beta, availableMoves);
  }

  /**
   * The loop of getBestMove from the initial best score: each move is
   * searched in turn, a strictly better score replaces the best, and with
   * pruning the window narrows and an empty window ends the loop.
   */
  method SearchMoves(state: SearchState, pruning: bool, depth: int, alpha: int, beta: int, availableMoves: seq<Cell>)
      returns (bestScore: int, bestMove: Option<Cell>)
    requires availableMoves == Available(state.board.Snapshot())
    ensures Result(bestScore, bestMove)
      == EvaluateMoves(NodeOf(state), pruning, depth, availableMoves, alpha, beta,
                       Result(InitialScore(state.currentPlayer), None))
    decreases |Available(state.board.Snapshot())|, 1
  {
    ghost var node := NodeOf(state);
    var isMaximizingPlayer := state.currentPlayer == X;
    bestScore := if isMaximizingPlayer then BestMaximizingScore else BestMinimizingScore;
    bestMove := None;
    var a, b := alpha, beta;
    var i := 0;
    while i < |availableMoves|
      invariant 0 <= i <= |availableMoves|
      invariant node == NodeOf(state)
      invariant !isMaximizingPlayer ==> a == alpha
      invariant isMaximizingPlayer ==> b == beta
      invariant EvaluateMoves(node, pruning, depth, availableMoves[i..], a, b, Result(bestScore, bestMove))
             == EvaluateMoves(node, pruning, depth, availableMoves, alpha, beta, Result(InitialScore(node.player), None))
      decreases |availableMoves| - i
    {
      var move := availableMoves[i];
      ghost var rest := availableMoves[i..];
      assert rest[0] == move && rest[1..] == availableMoves[i + 1..] && move in Available(node.grid);
      assert forall p :: p in rest ==> p in availableMoves;
      var resultScore, resultMove := SearchChild(state, move, pruning, depth, a, b);
      ghost var before, a0, b0 := Result(bestScore, bestMove), a, b;
      var stop;
      bestScore, bestMove, a, b, stop := UpdateBest(state.currentPlayer, pruning, resultScore, move, bestScore, bestMove, a, b);
      LoopStep(node, pruning, depth, rest, a0, b0, before, Result(resultScore, resultMove), Result(bestScore, bestMove), a, b);
      if stop {
        break;
      }
      i := i + 1;
    }
  }

  /**
   * The rest of one pass of the loop body: a strictly better score for the
   * side to move replaces the best, with pruning the mover's bound moves to
   * it, and `stop` reports the empty window on which the loop breaks.
   */
  method UpdateBest(player: Choice, pruning: bool, score: int, move: Cell,
                    bestScore: int, bestMove: Option<Cell>, alpha: int, beta: int)
      returns (bestScore': int, bestMove': Option<Cell>, alpha': int, beta': int, stop: bool)
    ensures var improved := Improves(player, score, bestScore);
      && Result(bestScore', bestMove') == (if improved then Result(score, Some(move)) else Result(bestScore, bestMove))
      && alpha' == (if improved && pruning && player == X then Max(alpha, score) else alpha)
      && beta' == (if improved && pruning && player == O then Min(beta, score) else beta)
      && (stop <==> pruning && beta' <= alpha')
  {
    var isMaximizingPlayer := player == X;
    bestScore', bestMove', alpha', beta' := bestScore, bestMove, alpha, beta;
    if (isMaximizingPlayer && score > bestScore) || (!isMaximizingPlayer && score < bestScore) {
      bestScore' := score;
      bestMove' := Some(move);
      if pruning {
        if isMaximizingPlayer {
          alpha' := Max(alpha', bestScore');
        } else {
          beta' := Min(beta', bestScore');
        }
        if beta' <= alpha' {
          return bestScore', bestMove', alpha', beta', true;
        }
      }
    }
    stop := pruning && beta' <= alpha';
  }

  /**
   * One pass of the loop body: the side to move marks `move` on a fresh
   * clone, the turn passes, and the search goes one level deeper with the
   * current window; no existing board changes.
   */
  method SearchChild(state: SearchState, move: Cell, pruning: bool, depth: int, alpha: int, beta: int)
      returns (resultScore: int, resultMove: Option<Cell>)
    requires move in Available(state.board.Snapshot())
    ensures Result(resultScore, resultMove) == Evaluate(Child(NodeOf(state), move), pruning, depth + 1, alpha, beta)
    decreases |Available(state.board.Snapshot())|, 0
  {
    ghost var node := NodeOf(state);
    var isMaximizingPlayer := state.currentPlayer == X;
    var nextBoard := CloneBoard(state.board);
    var nextPlayer := if state.currentPlayer == X then O else X;
    var nextState := SearchState(nextBoard, state.requiredWin, nextPlayer, state.maxDepth);
    nextBoard.selections := nextBoard.selections[move := Some(if isMaximizingPlayer then X else O)];
    assert NodeOf(nextState) == Child(node, move);
    PlaceShrinks(node.grid.columns, node.grid.rows, node.grid.selections, move, node.player);
    resultScore, resultMove := GetBestMove(nextState, pruning, depth + 1, alpha, beta);
  }

  /** Past the leaves, the search is the loop from the initial result. */
  lemma EvaluateLoop(n: Node, pruning: bool, depth: int, alpha: int, beta: int)
    ensures Leaf(n, depth).None? ==>
      Evaluate(n, pruning, depth, alpha, beta)
        == EvaluateMoves(n, pruning, depth, Available(n.grid), alpha, beta, Result(InitialScore(n.player), None))
  {
  }

  /** One iteration of the loop, as EvaluateMoves takes it. */
  lemma LoopStep(n: Node, pruning: bool, depth: int, moves: seq<Cell>, alpha: int, beta: int, best: Result,
                 r: Result, best': Result, alpha': int, beta': int)
    requires moves != [] && forall p :: p in moves ==> p in Available(n.grid)
    requires r == Evaluate(Child(n, moves[0]), pruning, depth + 1, alpha, beta)
    requires best' == if Improves(n.player, r.bestScore, best.bestScore) then Result(r.bestScore, Some(moves[0])) else best
    requires alpha' == if Improves(n.player, r.bestScore, best.bestScore) && pruning && n.player == X then Max(alpha, r.bestScore) else alpha
    requires beta' == if Improves(n.player, r.bestScore, best.bestScore) && pruning && n.player == O then Min(beta, r.bestScore) else beta
    ensures EvaluateMoves(n, pruning, depth, moves, alpha, beta, best)
      == if pruning && beta' <= alpha' then best' else EvaluateMoves(n, pruning, depth, moves[1..], alpha', beta', best')
  {
  }

  // ---------------------------------------------------------------------
  // Without pruning the search is plain minimax

  lemma {:induction false} UnprunedIsMinimax(n: Node, depth: int, alpha: int, beta: int)
    ensures Evaluate(n, false, depth, alpha, beta) == MinimaxValue(n, depth)
    decreases |Available(n.grid)|, 1
  {
    if Leaf(n, depth).None? {
      UnprunedMovesAreBestChild(n, depth, Available(n.grid), alpha, beta, Result(InitialScore(n.player), None));
    }
  }

  lemma {:induction false} UnprunedMovesAreBestChild(n: Node, depth: int, moves: seq<Cell>, alpha: int, beta: int, best: Result)
    requires forall p :: p in moves ==> p in Available(n.grid)
    ensures EvaluateMoves(n, false, depth, moves, alpha, beta, best) == BestChild(n, depth, moves, best)
    decreases |Available(n.grid)|, 0, |moves|
  {
    if moves != [] {
      assert moves[0] in moves;
      PlaceShrinks(n.grid.columns, n.grid.rows, n.grid.selections, moves[0], n.player);
      UnprunedIsMinimax(Child(n, moves[0]), depth + 1, alpha, beta);
      var r := MinimaxValue(Child(n, moves[0]), depth + 1);
      var best' := if Improves(n.player, r.bestScore, best.bestScore) then Result(r.bestScore, Some(moves[0])) else best;
      UnprunedMovesAreBestChild(n, depth, moves[1..], alpha, beta, best');
    }
  }

  // ---------------------------------------------------------------------
  // What the loop's strict comparison selects

  /** One turn of the loop: the first move's value is compared, the rest follow. */
  lemma BestChildStep(n: Node, depth: int, moves: seq<Cell>, best: Result)
    requires moves != []
    requires forall p :: p in moves ==> p in Available(n.grid)
    ensures forall p :: p in moves[1..] ==> p in Available(n.grid)
    ensures var c := ChildScore(n, depth, moves[0]);
      BestChild(n, depth, moves, best)
      == BestChild(n, depth, moves[1..], if Improves(n.player, c, best.bestScore) then Result(c, Some(moves[0])) else best)
  {
    assert moves[0] in moves;
    PlaceShrinks(n.grid.columns, n.grid.rows, n.grid.selections, moves[0], n.player);
  }

  /** The loop ends at least as good as where it started and as every child. */
  lemma {:induction false} BestChildBound(n: Node, depth: int, moves: seq<Cell>, best: Result)
    requires forall p :: p in moves ==> p in Available(n.grid)
    ensures var v := BestChild(n, depth, moves, best);
      && !Improves(n.player, best.bestScore, v.bestScore)
      && forall i :: 0 <= i < |moves| ==> !Improves(n.player, ChildScore(n, depth, moves[i]), v.bestScore)
    decreases |moves|
  {
    if moves != [] {
      var m := moves[0];
      var c := ChildScore(n, depth, m);
      var best' := if Improves(n.player, c, best.bestScore) then Result(c, Some(m)) else best;
      BestChildStep(n, depth, moves, best);
      BestChildBound(n, depth, moves[1..], best');
      var v := BestChild(n, depth, moves, best);
      forall i | 0 <= i < |moves| ensures !Improves(n.player, ChildScore(n, depth, moves[i]), v.bestScore) {
        if i > 0 {
          assert moves[i] == moves[1..][i - 1];
        }
      }
    }
  }

  /** The loop keeps its starting result exactly when no child beats the starting score. */
  lemma {:induction false} BestChildKeeps(n: Node, depth: int, moves: seq<Cell>, best: Result)
    requires forall p :: p in moves ==> p in Available(n.grid)
    ensures BestChild(n, depth, moves, best) == best
        <==> forall i :: 0 <= i < |moves| ==> !Improves(n.player, ChildScore(n, depth, moves[i]), best.bestScore)
    decreases |moves|
  {
    BestChildBound(n, depth, moves, best);
    if moves != [] {
      var m := moves[0];
      var c := ChildScore(n, depth, m);
      BestChildStep(n, depth, moves, best);
      if !Improves(n.player, c, best.bestScore) {
        BestChildKeeps(n, depth, moves[1..], best);
        assert forall i :: 1 <= i < |moves| ==> moves[i] == moves[1..][i - 1];
      }
    }
  }

  /**
   * A changed result is a child's value with its move: the earliest move
   * attaining that value, strictly better than the starting score.
   */
  lemma {:induction false} BestChildWitness(n: Node, depth: int, moves: seq<Cell>, best: Result)
    requires forall p :: p in moves ==> p in Available(n.grid)
    ensures var v := BestChild(n, depth, moves, best);
      v != best ==> exists i ::
        && 0 <= i < |moves|
        && v == Result(ChildScore(n, depth, moves[i]), Some(moves[i]))
        && Improves(n.player, v.bestScore, best.bestScore)
        && forall j :: 0 <= j < i ==> Improves(n.player, v.bestScore, ChildScore(n, depth, moves[j]))
    decreases |moves|
  {
    if moves != [] {
      var m := moves[0];
      var c := ChildScore(n, depth, m);
      var best' := if Improves(n.player, c, best.bestScore) then Result(c, Some(m)) else best;
      BestChildStep(n, depth, moves, best);
      var v := BestChild(n, depth, moves, best);
      if v != best && v != best' {
        BestChildWitness(n, depth, moves[1..], best');
        var k :| && 0 <= k < |moves[1..]|
                 && v == Result(ChildScore(n, depth, moves[1..][k]), Some(moves[1..][k]))
                 && Improves(n.player, v.bestScore, best'.bestScore)
                 && forall j :: 0 <= j < k ==> Improves(n.player, v.bestScore, ChildScore(n, depth, moves[1..][j]));
        assert forall j :: 1 <= j < k + 1 ==> moves[j] == moves[1..][j - 1];
        assert v == Result(ChildScore(n, depth, moves[k + 1]), Some(moves[k + 1]));
      }
    }
  }

  /** Where the loop runs from the initial result, that is the search's result. */
  lemma SearchResultMeaning(n: Node, depth: int)
    requires Leaf(n, depth).None?
    ensures var v := Evaluate(n, false, depth, BestMaximizingScore, BestMinimizingScore);
      var ms := Available(n.grid);
      && (forall i :: 0 <= i < |ms| ==> !Improves(n.player, ChildScore(n, depth, ms[i]), v.bestScore))
      && (v.bestMove == None <==> v.bestScore == InitialScore(n.player))
      && (v.bestMove == None <==> forall i :: 0 <= i < |ms| ==> !Improves(n.player, ChildScore(n, depth, ms[i]), InitialScore(n.player)))
      && (v.bestMove.Some? ==> exists i ::
            && 0 <= i < |ms| && v.bestMove == Some(ms[i]) && v.bestScore == ChildScore(n, depth, ms[i])
            && forall j :: 0 <= j < i ==> Improves(n.player, v.bestScore, ChildScore(n, depth, ms[j])))
  {
    UnprunedIsMinimax(n, depth, BestMaximizingScore, BestMinimizingScore);
    var init := Result(InitialScore(n.player), None);
    BestChildBound(n, depth, Available(n.grid), init);
    BestChildKeeps(n, depth, Available(n.grid), init);
    BestChildWitness(n, depth, Available(n.grid), init);
  }

  /** A returned move is always one of the open cells. */
  lemma MoveIsAvailable(n: Node, pruning: bool, depth: int, alpha: int, beta: int)
    ensures var r := Evaluate(n, pruning, depth, alpha, beta);
      r.bestMove.Some? ==> r.bestMove.value in Available(n.grid)
  {
    if Leaf(n, depth).None? {
      LoopMoveFrom(n, pruning, depth, Available(n.grid), alpha, beta, Result(InitialScore(n.player), None));
    }
  }

  lemma {:induction false} LoopMoveFrom(n: Node, pruning: bool, depth: int, moves: seq<Cell>, alpha: int, beta: int, best: Result)
    requires forall p :: p in moves ==> p in Available(n.grid)
    ensures var r := EvaluateMoves(n, pruning, depth, moves, alpha, beta, best);
      r.bestMove == best.bestMove || (r.bestMove.Some? && r.bestMove.value in moves)
    decreases |moves|
  {
    if moves != [] {
      var r := Evaluate(Child(n, moves[0]), pruning, depth + 1, alpha, beta);
      var improved := Improves(n.player, r.bestScore, best.bestScore);
      var best' := if improved then Result(r.bestScore, Some(moves[0])) else best;
      var alpha' := if improved && pruning && n.player == X then Max(alpha, r.bestScore) else alpha;
      var beta' := if improved && pruning && n.player == O then Min(beta, r.bestScore) else beta;
      LoopMoveFrom(n, pruning, depth, moves[1..], alpha', beta', best');
    }
  }

  /** The leaves: a win, then a draw, then the depth limit; no move in a decided game. */
  lemma LeafScores(n: Node, pruning: bool, depth: int, alpha: int, beta: int)
    ensures var t := CheckTerminal(n.grid, n.requiredWin);
      var r := Evaluate(n, pruning, depth, alpha, beta);
      && (t.isWinner && n.player == X ==> r == Result(-1_000_000 + depth, None))
      && (t.isWinner && n.player == O ==> r == Result(1_000_000 - depth, None))
      && (!t.isWinner && t.isCat ==> r == Result(0, None))
      && (!t.isTerminal && depth > n.maxDepth ==>
            r == Result(TotalScore(n.grid.selections, n.grid.columns, n.grid.rows) + (if n.player == X then -1000 else 1000),
                        FirstMove(Available(n.grid))))
  {
  }

  // ---------------------------------------------------------------------
  // Alpha-beta is fail-soft minimax

  /**
   * With window (alpha, beta): a value strictly inside is found exactly (move
   * included), one at or below alpha is reported at or below alpha, and one at
   * or above beta at or above beta.
   */
  predicate FailSoft(v: Result, r: Result, alpha: int, beta: int)
  {
    && (alpha < v.bestScore < beta ==> r == v)
    && (v.bestScore <= alpha ==> r.bestScore <= alpha)
    && (v.bestScore >= beta ==> r.bestScore >= beta)
  }

  lemma {:induction false} PrunedIsFailSoft(n: Node, depth: int, alpha: int, beta: int)
    requires BestMaximizingScore <= alpha < beta <= BestMinimizingScore
    ensures FailSoft(MinimaxValue(n, depth), Evaluate(n, true, depth, alpha, beta), alpha, beta)
    decreases |Available(n.grid)|, 1
  {
    if Leaf(n, depth).None? {
      var init := Result(InitialScore(n.player), None);
      if n.player == X {
        MaxLoopIsFailSoft(n, depth, Available(n.grid), alpha, alpha, beta, init, init);
      } else {
        MinLoopIsFailSoft(n, depth, Available(n.grid), alpha, beta, beta, init, init);
      }
    }
  }

  /**
   * The maximiser's loop: `a` is the current alpha, the larger of the caller's
   * alpha0 and the pruned best b; B is the unpruned best, which b matches once
   * it rises above alpha0.
   */
  lemma {:induction false} MaxLoopIsFailSoft(n: Node, depth: int, moves: seq<Cell>, alpha0: int, a: int, beta: int, b: Result, B: Result)
    requires n.player == X
    requires forall p :: p in moves ==> p in Available(n.grid)
    requires BestMaximizingScore <= alpha0 && a == Max(alpha0, b.bestScore) && a < beta <= BestMinimizingScore
    requires B.bestScore <= alpha0 ==> b.bestScore <= alpha0
    requires B.bestScore > alpha0 ==> b == B
    ensures FailSoft(BestChild(n, depth, moves, B), EvaluateMoves(n, true, depth, moves, a, beta, b), alpha0, beta)
    decreases |Available(n.grid)|, 0, |moves|
  {
    if moves != [] {
      var m := moves[0];
      assert m in moves;
      PlaceShrinks(n.grid.columns, n.grid.rows, n.grid.selections, m, n.player);
      var child := Child(n, m);
      PrunedIsFailSoft(child, depth + 1, a, beta);
      var c := MinimaxValue(child, depth + 1).bestScore;
      var r := Evaluate(child, true, depth + 1, a, beta).bestScore;
      var B' := if c > B.bestScore then Result(c, Some(m)) else B;
      var b' := if r > b.bestScore then Result(r, Some(m)) else b;
      var a' := if r > b.bestScore then Max(a, r) else a;
      assert BestChild(n, depth, moves, B) == BestChild(n, depth, moves[1..], B');
      assert EvaluateMoves(n, true, depth, moves, a, beta, b)
          == if beta <= a' then b' else EvaluateMoves(n, true, depth, moves[1..], a', beta, b');
      if c >= beta {
        BestChildBound(n, depth, moves[1..], B');
      } else {
        MaxLoopIsFailSoft(n, depth, moves[1..], alpha0, a', beta, b', B');
      }
    }
  }

  /** The minimiser's loop, the mirror image: `bt` is the current beta, the smaller of beta0 and b. */
  lemma {:induction false} MinLoopIsFailSoft(n: Node, depth: int, moves: seq<Cell>, alpha: int, beta0: int, bt: int, b: Result, B: Result)
    requires n.player == O
    requires forall p :: p in moves ==> p in Available(n.grid)
    requires BestMaximizingScore <= alpha < bt && bt == Min(beta0, b.bestScore) && beta0 <= BestMinimizingScore
    requires B.bestScore >= beta0 ==> b.bestScore >= beta0
    requires B.bestScore < beta0 ==> b == B
    ensures FailSoft(BestChild(n, depth, moves, B), EvaluateMoves(n, true, depth, moves, alpha, bt, b), alpha, beta0)
    decreases |Available(n.grid)|, 0, |moves|
  {
    if moves != [] {
      var m := moves[0];
      assert m in moves;
      PlaceShrinks(n.grid.columns, n.grid.rows, n.grid.selections, m, n.player);
      var child := Child(n, m);
      PrunedIsFailSoft(child, depth + 1, alpha, bt);
      var c := MinimaxValue(child, depth + 1).bestScore;
      var r := Evaluate(child, true, depth + 1, alpha, bt).bestScore;
      var B' := if c < B.bestScore then Result(c, Some(m)) else B;
      var b' := if r < b.bestScore then Result(r, Some(m)) else b;
      var bt' := if r < b.bestScore then Min(bt, r) else bt;
      assert BestChild(n, depth, moves, B) == BestChild(n, depth, moves[1..], B');
      assert EvaluateMoves(n, true, depth, moves, alpha, bt, b)
          == if bt' <= alpha then b' else EvaluateMoves(n, true, depth, moves[1..], alpha, bt', b');
      if c <= alpha {
        BestChildBound(n, depth, moves[1..], B');
      } else {
        MinLoopIsFailSoft(n, depth, moves[1..], alpha, beta0, bt', b', B');
      }
    }
  }

  /**
   * From the default window, pruning changes neither the score nor the move
   * whenever the minimax value lies strictly between the two initial scores.
   */
  lemma PruningPreservesResult(n: Node, depth: int)
    requires BestMaximizingScore < MinimaxValue(n, depth).bestScore < BestMinimizingScore
    ensures Evaluate(n, true, depth, BestMaximizingScore, BestMinimizingScore)
         == Evaluate(n, false, depth, BestMaximizingScore, BestMinimizingScore)
  {
    PrunedIsFailSoft(n, depth, BestMaximizingScore, BestMinimizingScore);
    UnprunedIsMinimax(n, depth, BestMaximizingScore, BestMinimizingScore);
  }
}
