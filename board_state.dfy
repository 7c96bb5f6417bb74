/** The free `getAvailableMoves(state)` of board.ts: the same enumeration over a state record. */
module BoardState {
  import opened Types
  import opened Boards

  /**
   * The fields of the game state record that are board related or read by the
   * search; its `room` (the rule list) is not part of this model.
   */
  datatype State = State(
    columns: int,
    rows: int,
    selections: Moves,
    requiredWin: int,
    currentPlayer: Choice,
    maxDepth: int)

  /**
   * Every in-bounds cell without a mark, column by column, each once; the
   * state itself is a value and so cannot change.
   */
  method GetAvailableMoves(state: State) returns (moves: seq<Cell>)
    ensures moves == AvailableMoves(state.columns, state.rows, state.selections)
    ensures forall p :: p in moves <==> InBounds(state.columns, state.rows, p) && IsOpen(state.selections, p)
    ensures ColumnMajor(moves)
    ensures state.columns >= 0 && state.rows >= 0 ==>
      |moves| == state.columns * state.rows - |Occupied(state.columns, state.rows, state.selections)|
  {
    moves := [];
    var x := 0;
    while x < state.columns
      invariant x == 0 || x <= state.columns
      invariant moves == AvailableMoves(x, state.rows, state.selections)
    {
      var y := 0;
      while y < state.rows
        invariant y == 0 || y <= state.rows
        invariant moves == AvailableMoves(x, state.rows, state.selections) + ColumnMoves(x, y, state.selections)
      {
        if Get(state.selections, (x, y)) == None {
          moves := moves + [(x, y)];
        }
        y := y + 1;
      }
      x := x + 1;
    }
    forall p ensures p in moves <==> InBounds(state.columns, state.rows, p) && IsOpen(state.selections, p) {
      AvailableMovesMembership(state.columns, state.rows, state.selections, p);
    }
    AvailableMovesOrdered(state.columns, state.rows, state.selections);
    if state.columns >= 0 && state.rows >= 0 {
      AvailableCount(state.columns, state.rows, state.selections);
    }
  }
}
