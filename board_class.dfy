/**
 * The board (classes/Board.ts): its dimensions, its selections and the
 * enumeration of the moves still open, in column-major order.
 */
module Boards {
  import opened Types

  predicate InBounds(columns: int, rows: int, p: Cell)
  {
    0 <= p.0 < columns && 0 <= p.1 < rows
  }

  /** `selections.get(key) === undefined`. */
  predicate IsOpen(s: Moves, p: Cell)
  {
    Get(s, p) == None
  }

  /** The open cells (x, 0), ..., (x, n - 1), top to bottom. */
  function ColumnMoves(x: int, n: int, s: Moves): seq<Cell>
    decreases n
  {
    if n <= 0 then []
    else ColumnMoves(x, n - 1, s) + (if IsOpen(s, (x, n - 1)) then [(x, n - 1)] else [])
  }

  /** The open cells of the first `columns` columns, column by column. */
  function AvailableMoves(columns: int, rows: int, s: Moves): seq<Cell>
    decreases columns
  {
    if columns <= 0 then []
    else AvailableMoves(columns - 1, rows, s) + ColumnMoves(columns - 1, rows, s)
  }

  function Available(g: Grid): seq<Cell>
  {
    AvailableMoves(g.columns, g.rows, g.selections)
  }

  predicate ColumnMajor(ms: seq<Cell>)
  {
    forall i, j :: 0 <= i < j < |ms| ==> Before(ms[i], ms[j])
  }

  /** The in-bounds cells that hold a mark. */
  function Occupied(columns: int, rows: int, s: Moves): set<Cell>
  {
    set p | p in s && InBounds(columns, rows, p) && s[p].Some?
  }

  // ---------------------------------------------------------------------
  // Soundness and completeness

  lemma {:induction false} ColumnMovesMembership(x: int, n: int, s: Moves, p: Cell)
    ensures p in ColumnMoves(x, n, s) <==> p.0 == x && 0 <= p.1 < n && IsOpen(s, p)
    decreases n
  {
    if n > 0 {
      ColumnMovesMembership(x, n - 1, s, p);
    }
  }

  /** A cell is returned exactly when it is in bounds and has no mark. */
  lemma {:induction false} AvailableMovesMembership(columns: int, rows: int, s: Moves, p: Cell)
    ensures p in AvailableMoves(columns, rows, s) <==> InBounds(columns, rows, p) && IsOpen(s, p)
    decreases columns
  {
    if columns > 0 {
      AvailableMovesMembership(columns - 1, rows, s, p);
      ColumnMovesMembership(columns - 1, rows, s, p);
    }
  }

  // ---------------------------------------------------------------------
  // Order

  lemma {:induction false} ColumnMovesOrdered(x: int, n: int, s: Moves)
    ensures ColumnMajor(ColumnMoves(x, n, s))
    ensures forall i :: 0 <= i < |ColumnMoves(x, n, s)| ==> ColumnMoves(x, n, s)[i].0 == x
    decreases n
  {
    if n > 0 {
      ColumnMovesOrdered(x, n - 1, s);
      var prefix := ColumnMoves(x, n - 1, s);
      forall q | q in prefix ensures q.1 < n - 1 {
        ColumnMovesMembership(x, n - 1, s, q);
      }
      assert forall i :: 0 <= i < |prefix| ==> prefix[i] in prefix;
    }
  }

  /** Column-major order: earlier entries come strictly before later ones. */
  lemma {:induction false} AvailableMovesOrdered(columns: int, rows: int, s: Moves)
    ensures ColumnMajor(AvailableMoves(columns, rows, s))
    decreases columns
  {
    if columns > 0 {
      AvailableMovesOrdered(columns - 1, rows, s);
      ColumnMovesOrdered(columns - 1, rows, s);
      var prefix := AvailableMoves(columns - 1, rows, s);
      forall q | q in prefix ensures q.0 < columns - 1 {
        AvailableMovesMembership(columns - 1, rows, s, q);
      }
      assert forall i :: 0 <= i < |prefix| ==> prefix[i] in prefix;
    }
  }

  /** Position in the result follows column-major order in both directions; so no cell repeats. */
  lemma OrderMatchesColumnMajor(columns: int, rows: int, s: Moves)
    ensures var ms := AvailableMoves(columns, rows, s);
      forall i, j :: 0 <= i < |ms| && 0 <= j < |ms| ==>
        (i < j <==> Before(ms[i], ms[j])) && (i != j ==> ms[i] != ms[j])
  {
    AvailableMovesOrdered(columns, rows, s);
  }

  // ---------------------------------------------------------------------
  // Count

  function OccupiedInColumn(x: int, n: int, s: Moves): set<Cell>
  {
    set p | p in s && p.0 == x && 0 <= p.1 < n && s[p].Some?
  }

  lemma {:induction false} ColumnCount(x: int, n: int, s: Moves)
    requires n >= 0
    ensures |ColumnMoves(x, n, s)| + |OccupiedInColumn(x, n, s)| == n
    decreases n
  {
    if n > 0 {
      ColumnCount(x, n - 1, s);
      var p := (x, n - 1);
      if IsOpen(s, p) {
        assert OccupiedInColumn(x, n, s) == OccupiedInColumn(x, n - 1, s);
      } else {
        assert OccupiedInColumn(x, n, s) == OccupiedInColumn(x, n - 1, s) + {p};
      }
    }
  }

  /** The result has columns * rows entries less the marked in-bounds cells. */
  lemma {:induction false} AvailableCount(columns: int, rows: int, s: Moves)
    requires columns >= 0 && rows >= 0
    ensures |AvailableMoves(columns, rows, s)| == columns * rows - |Occupied(columns, rows, s)|
    decreases columns
  {
    if columns > 0 {
      AvailableCount(columns - 1, rows, s);
      ColumnCount(columns - 1, rows, s);
      OccupiedSplit(columns, rows, s);
      DisjointUnionSize(Occupied(columns - 1, rows, s), OccupiedInColumn(columns - 1, rows, s));
      assert columns * rows == (columns - 1) * rows + rows;
    }
  }

  lemma OccupiedSplit(columns: int, rows: int, s: Moves)
    requires columns > 0
    ensures Occupied(columns, rows, s) == Occupied(columns - 1, rows, s) + OccupiedInColumn(columns - 1, rows, s)
    ensures Occupied(columns - 1, rows, s) * OccupiedInColumn(columns - 1, rows, s) == {}
  {
  }

  lemma DisjointUnionSize<T>(a: set<T>, b: set<T>)
    requires a * b == {}
    ensures |a + b| == |a| + |b|
  {
  }

  /** On an empty map every cell is open. */
  lemma EmptyBoardCount(columns: int, rows: int)
    requires columns >= 0 && rows >= 0
    ensures |AvailableMoves(columns, rows, map[])| == columns * rows
  {
    AvailableCount(columns, rows, map[]);
    assert Occupied(columns, rows, map[]) == {};
  }

  // ---------------------------------------------------------------------
  // Frame

  /** Entries outside the bounds never affect the result. */
  lemma {:induction false} OutOfBoundsIrrelevant(columns: int, rows: int, s: Moves, t: Moves)
    requires forall p :: InBounds(columns, rows, p) ==> Get(s, p) == Get(t, p)
    ensures AvailableMoves(columns, rows, s) == AvailableMoves(columns, rows, t)
    decreases columns
  {
    if columns > 0 {
      OutOfBoundsIrrelevant(columns - 1, rows, s, t);
      ColumnFrame(columns - 1, rows, rows, s, t);
    }
  }

  lemma {:induction false} ColumnFrame(x: int, n: int, rows: int, s: Moves, t: Moves)
    requires 0 <= x && n <= rows
    requires forall p: Cell :: 0 <= p.0 <= x && 0 <= p.1 < rows ==> Get(s, p) == Get(t, p)
    ensures ColumnMoves(x, n, s) == ColumnMoves(x, n, t)
    decreases n
  {
    if n > 0 {
      ColumnFrame(x, n - 1, rows, s, t);
      assert Get(s, (x, n - 1)) == Get(t, (x, n - 1));
    }
  }

  // ---------------------------------------------------------------------
  // Placing a mark

  lemma {:induction false} ColumnPlace(x: int, n: int, s: Moves, p: Cell, m: Choice)
    ensures |ColumnMoves(x, n, s[p := Some(m)])| ==
      |ColumnMoves(x, n, s)| - (if p.0 == x && 0 <= p.1 < n && IsOpen(s, p) then 1 else 0)
    decreases n
  {
    if n > 0 {
      ColumnPlace(x, n - 1, s, p, m);
    }
  }

  /** Placing a mark on an open cell closes exactly that cell: one move fewer. */
  lemma {:induction false} PlaceShrinks(columns: int, rows: int, s: Moves, p: Cell, m: Choice)
    requires p in AvailableMoves(columns, rows, s)
    ensures |AvailableMoves(columns, rows, s[p := Some(m)])| == |AvailableMoves(columns, rows, s)| - 1
  {
    AvailableMovesMembership(columns, rows, s, p);
    PlaceCount(columns, rows, s, p, m);
  }

  lemma {:induction false} PlaceCount(columns: int, rows: int, s: Moves, p: Cell, m: Choice)
    ensures |AvailableMoves(columns, rows, s[p := Some(m)])| ==
      |AvailableMoves(columns, rows, s)| - (if InBounds(columns, rows, p) && IsOpen(s, p) then 1 else 0)
    decreases columns
  {
    if columns > 0 {
      PlaceCount(columns - 1, rows, s, p, m);
      ColumnPlace(columns - 1, rows, s, p, m);
    }
  }

  // ---------------------------------------------------------------------

  class Board {
    var columns: int
    var rows: int
    var selections: Moves

    /** Stores the given selections as they are. */
    constructor (columns: int, rows: int, selections: Moves)
      ensures this.columns == columns && this.rows == rows && this.selections == selections
    {
      this.columns := columns;
      this.rows := rows;
      this.selections := selections;
    }

    function Snapshot(): Grid
      reads this
    {
      Grid(columns, rows, selections)
    }

    /**
     * getAvailableMoves: the nested loops push every open in-bounds cell, in
     * the order AvailableMoves lists them; no field changes. The lemmas above
     * give that list's membership, order and count.
     */
    method GetAvailableMoves() returns (moves: seq<Cell>)
      ensures moves == AvailableMoves(columns, rows, selections)
    {
      moves := [];
      var x := 0;
      while x < columns
        invariant x == 0 || x <= columns
        invariant moves == AvailableMoves(x, rows, selections)
      {
        var y := 0;
        while y < rows
          invariant y == 0 || y <= rows
          invariant moves == AvailableMoves(x, rows, selections) + ColumnMoves(x, y, selections)
        {
          if Get(selections, (x, y)) == None {
            moves := moves + [(x, y)];
          }
          y := y + 1;
        }
        x := x + 1;
      }
    }
  }
}
