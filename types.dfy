/** Marks, coordinates and the `Moves` map that every board holds. */
module Types {

  datatype Option<+T> = None | Some(value: T)

  /** A player's mark: 'x' or 'o'. */
  datatype Choice = X | O

  /** A cell `{x, y}`: x is the column, y is the row. */
  type Cell = (int, int)

  /**
   * The selections of a board. The source keys its map by the string "x,y";
   * CoordinatesHelper proves that formatting is injective, so a pair key
   * loses nothing. A key mapped to None is a key whose value is `undefined`.
   */
  type Moves = map<Cell, Option<Choice>>

  /** `selections.get(key)`: a missing key and a key mapped to `undefined` both read as None. */
  function Get(s: Moves, p: Cell): Option<Choice>
  {
    if p in s then s[p] else None
  }

  /** The other player. */
  function Other(c: Choice): (r: Choice)
    ensures r != c
  {
    if c == X then O else X
  }

  function SwapMark(m: Option<Choice>): (r: Option<Choice>)
    ensures r.Some? <==> m.Some?
    ensures m.Some? ==> r.value == Other(m.value)
  {
    match m
    case None => None
    case Some(c) => Some(Other(c))
  }

  /** The same board with every 'x' turned into 'o' and every 'o' into 'x'. */
  function SwapColours(s: Moves): (t: Moves)
    ensures t.Keys == s.Keys
    ensures forall p :: Get(t, p) == SwapMark(Get(s, p))
  {
    map p | p in s :: SwapMark(s[p])
  }

  /** Column-major order: column first, then row. */
  predicate Before(a: Cell, b: Cell)
  {
    a.0 < b.0 || (a.0 == b.0 && a.1 < b.1)
  }

  /** The three fields of a board (columns, rows, selections) as one value. */
  datatype Grid = Grid(columns: int, rows: int, selections: Moves)
  {
    /** The board after `selections.set(key(p), Some(m))`. */
    function Place(p: Cell, m: Choice): (g: Grid)
      ensures g.columns == columns && g.rows == rows
      ensures Get(g.selections, p) == Some(m)
      ensures forall q :: q != p ==> Get(g.selections, q) == Get(selections, q)
    {
      Grid(columns, rows, selections[p := Some(m)])
    }
  }

  function Max(a: int, b: int): int { if a >= b then a else b }

  function Min(a: int, b: int): int { if a <= b then a else b }
}
