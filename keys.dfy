/**
 * The transposition-table keys of minimax.ts: a board written as one
 * character per cell ('x', 'o' or '_'), groups joined by commas, and the
 * same board read with the coordinates swapped.
 */
module Keys {
  import opened Types

  /** `selections.get(key) ?? '_'`. */
  function KeyChar(v: Option<Choice>): char
  {
    match v
    case None => '_'
    case Some(X) => 'x'
    case Some(O) => 'o'
  }

  /** The cell the loops read at (x, y): `${x},${y}`, or `${y},${x}` for the inverted key. */
  function Reads(x: int, y: int, inverted: bool): Cell
  {
    if inverted then (y, x) else (x, y)
  }

  /** The inner loop: the cells read at (0, y) .. (n - 1, y). */
  function Group(s: Moves, y: int, n: int, inverted: bool): (g: seq<char>)
    ensures |g| == if n > 0 then n else 0
    decreases n
  {
    if n <= 0 then [] else Group(s, y, n - 1, inverted) + [KeyChar(Get(s, Reads(n - 1, y, inverted)))]
  }

  /** One more pass of the inner loop appends the character of the cell read at (x, y). */
  lemma GroupStep(s: Moves, y: int, x: int, inverted: bool)
    requires x >= 0
    ensures Group(s, y, x + 1, inverted) == Group(s, y, x, inverted) + [KeyChar(Get(s, Reads(x, y, inverted)))]
  {
  }

  /** The inner loop's step: the key so far, followed by the cell read at (x, y). */
  lemma AppendCell(key: seq<char>, s: Moves, y: int, x: int, r: int, inverted: bool)
    requires x >= 0 && key == Raw(s, y, r, inverted) + Group(s, y, x, inverted)
    ensures key + [KeyChar(Get(s, Reads(x, y, inverted)))] == Raw(s, y, r, inverted) + Group(s, y, x + 1, inverted)
  {
    GroupStep(s, y, x, inverted);
  }

  /** The outer loop's step: a finished group and its comma. */
  lemma AppendComma(key: seq<char>, s: Moves, y: int, r: int, inverted: bool)
    requires y >= 0 && key == Raw(s, y, r, inverted) + Group(s, y, r, inverted)
    ensures key + [','] == Raw(s, y + 1, r, inverted)
  {
    RawStep(s, y, r, inverted);
  }

  /** The x-th character of a group is the cell (x, y). */
  lemma {:induction false} GroupCell(s: Moves, y: int, n: int, inverted: bool, x: int)
    requires 0 <= x < n
    ensures Group(s, y, n, inverted)[x] == KeyChar(Get(s, Reads(x, y, inverted)))
    decreases n
  {
    if x < n - 1 {
      GroupCell(s, y, n - 1, inverted, x);
    }
  }

  /** The outer loop before the final slice: each group followed by a comma. */
  function Raw(s: Moves, c: int, r: int, inverted: bool): seq<char>
    decreases c
  {
    if c <= 0 then [] else Raw(s, c - 1, r, inverted) + Group(s, c - 1, r, inverted) + [',']
  }

  /** `slice(0, -1)`: the last character removed, and nothing left of an empty string. */
  function DropLast(t: seq<char>): (u: seq<char>)
    ensures |t| > 0 ==> u == t[..|t| - 1] && |u| == |t| - 1
    ensures |t| == 0 ==> u == []
  {
    if |t| == 0 then t else t[..|t| - 1]
  }

  /** boardToTranspositionTableKey: groups over y < columns, each reading (x, y) for x < rows. */
  function Key(s: Moves, columns: int, rows: int): seq<char>
  {
    DropLast(Raw(s, columns, rows, false))
  }

  /** The second key of boardToTranspositionTableKeys: the same loops reading (y, x). */
  function InvertedKey(s: Moves, columns: int, rows: int): seq<char>
  {
    DropLast(Raw(s, columns, rows, true))
  }

  /** The selections with every key (x, y) moved to (y, x). */
  function Transposed(s: Moves): Moves
  {
    map k | k in s :: (k.1, k.0) := s[k]
  }

  /** The transposed board holds at (x, y) what the board holds at (y, x). */
  lemma TransposedAt(s: Moves, p: Cell)
    ensures p in Transposed(s) <==> (p.1, p.0) in s
    ensures Get(Transposed(s), p) == Get(s, (p.1, p.0))
  {
    if (p.1, p.0) in s {
      assert ((p.1, p.0).1, (p.1, p.0).0) == p;
    }
  }

  // ---------------------------------------------------------------------
  // The source's loops

  method BoardToTranspositionTableKey(selections: Moves, columns: int, rows: int) returns (key: seq<char>)
    ensures key == Key(selections, columns, rows)
  {
    key := [];
    var y := 0;
    while y < columns
      invariant y == 0 || y <= columns
      invariant key == Raw(selections, y, rows, false)
    {
      var x := 0;
      while x < rows
        invariant x == 0 || x <= rows
        invariant key == Raw(selections, y, rows, false) + Group(selections, y, x, false)
      {
        AppendCell(key, selections, y, x, rows, false);
        key := key + [KeyChar(Get(selections, (x, y)))];
        x := x + 1;
      }
      AppendComma(key, selections, y, rows, false);
      key := key + [','];
      y := y + 1;
    }
    key := DropLast(key);
  }

  /**
   * boardToTranspositionTableKeys: the key, and the key read with the
   * coordinates swapped, which is the key of the transposed board.
   */
  method BoardToTranspositionTableKeys(selections: Moves, columns: int, rows: int) returns (keys: seq<seq<char>>)
    ensures keys == [Key(selections, columns, rows), InvertedKey(selections, columns, rows)]
    ensures keys[1] == Key(Transposed(selections), columns, rows)
  {
    var key := [];
    var keyInverted := [];
    var y := 0;
    while y < columns
      invariant y == 0 || y <= columns
      invariant key == Raw(selections, y, rows, false)
      invariant keyInverted == Raw(selections, y, rows, true)
    {
      var x := 0;
      while x < rows
        invariant x == 0 || x <= rows
        invariant key == Raw(selections, y, rows, false) + Group(selections, y, x, false)
        invariant keyInverted == Raw(selections, y, rows, true) + Group(selections, y, x, true)
      {
        AppendCell(key, selections, y, x, rows, false);
        AppendCell(keyInverted, selections, y, x, rows, true);
        key := key + [KeyChar(Get(selections, (x, y)))];
        keyInverted := keyInverted + [KeyChar(Get(selections, (y, x)))];
        x := x + 1;
      }
      AppendComma(key, selections, y, rows, false);
      AppendComma(keyInverted, selections, y, rows, true);
      key := key + [','];
      keyInverted := keyInverted + [','];
      y := y + 1;
    }
    key := DropLast(key);
    keyInverted := DropLast(keyInverted);
    keys := [key, keyInverted];
    InvertedKeyIsTransposedKey(selections, columns, rows);
  }

  // ---------------------------------------------------------------------
  // Layout

  /** Every group is r characters and a comma. */
  lemma {:induction false} RawLength(s: Moves, c: int, r: int, inverted: bool)
    requires c >= 0 && r >= 0
    ensures |Raw(s, c, r, inverted)| == c * (r + 1)
    decreases c
  {
    if c > 0 {
      RawLength(s, c - 1, r, inverted);
      assert (c - 1) * (r + 1) + r + 1 == c * (r + 1);
    }
  }

  /** The groups written first stay in front as the outer loop goes on. */
  lemma {:induction false} RawPrefix(s: Moves, y: int, c: int, r: int, inverted: bool)
    requires 0 <= y <= c
    ensures Raw(s, y, r, inverted) <= Raw(s, c, r, inverted)
    decreases c
  {
    if y < c {
      RawPrefix(s, y, c - 1, r, inverted);
    }
  }

  /** One more pass of the outer loop appends group y and a comma. */
  lemma RawStep(s: Moves, y: int, r: int, inverted: bool)
    requires y >= 0
    ensures Raw(s, y + 1, r, inverted) == Raw(s, y, r, inverted) + Group(s, y, r, inverted) + [',']
  {
  }

  /** Group y, with its comma, follows the first y groups. */
  lemma RawGroup(s: Moves, c: int, r: int, y: int)
    requires 0 <= y < c && r >= 0
    ensures Raw(s, y, r, false) + Group(s, y, r, false) + [','] <= Raw(s, c, r, false)
  {
    RawStep(s, y, r, false);
    RawPrefix(s, y + 1, c, r, false);
  }

  /** A key of c > 0 groups is the outer loop's string without its final comma. */
  lemma KeyShape(s: Moves, c: int, r: int)
    requires c > 0 && r >= 0
    ensures Raw(s, c, r, false) == Key(s, c, r) + [',']
    ensures |Key(s, c, r)| == c * (r + 1) - 1
    ensures Key(s, c, r) == Raw(s, c - 1, r, false) + Group(s, c - 1, r, false)
  {
    RawLength(s, c, r, false);
  }

  /** The cell (x, y) follows the first y groups at offset x. */
  lemma KeyCellAfterGroups(s: Moves, c: int, r: int, x: int, y: int)
    requires 0 <= y < c && 0 <= x < r
    ensures |Raw(s, y, r, false)| + x < |Key(s, c, r)|
    ensures Key(s, c, r)[|Raw(s, y, r, false)| + x] == KeyChar(Get(s, (x, y)))
  {
    RawGroup(s, c, r, y);
    var head := Raw(s, y, r, false) + Group(s, y, r, false) + [','];
    var i := |Raw(s, y, r, false)|;
    assert Raw(s, c, r, false) == Key(s, c, r) + [','] by {
      KeyShape(s, c, r);
    }
    GroupCell(s, y, r, false, x);
    assert head[i + x] == Group(s, y, r, false)[x];
    assert Raw(s, c, r, false)[i + x] == head[i + x];
  }

  /** In a key, the cell (x, y) is the character at y * (r + 1) + x. */
  lemma KeyCell(s: Moves, c: int, r: int, x: int, y: int)
    requires 0 <= y < c && 0 <= x < r
    ensures y * (r + 1) + x < |Key(s, c, r)|
    ensures Key(s, c, r)[y * (r + 1) + x] == KeyChar(Get(s, (x, y)))
  {
    KeyCellAfterGroups(s, c, r, x, y);
    RawLength(s, y, r, false);
  }

  /** The comma after group y, when another group follows. */
  lemma KeyCommaAfterGroups(s: Moves, c: int, r: int, y: int)
    requires 0 <= y < c - 1 && r >= 0
    ensures |Raw(s, y + 1, r, false)| - 1 < |Key(s, c, r)|
    ensures Key(s, c, r)[|Raw(s, y + 1, r, false)| - 1] == ','
  {
    RawPrefix(s, y + 1, c - 1, r, false);
    KeyShape(s, c, r);
    var head := Raw(s, y + 1, r, false);
    assert head == Raw(s, y, r, false) + Group(s, y, r, false) + [','];
    assert Key(s, c, r)[|head| - 1] == head[|head| - 1];
  }

  /** Between two groups, at y * (r + 1) + r, the key holds a comma. */
  lemma KeyComma(s: Moves, c: int, r: int, y: int)
    requires 0 <= y < c - 1 && r >= 0
    ensures y * (r + 1) + r < |Key(s, c, r)|
    ensures Key(s, c, r)[y * (r + 1) + r] == ','
  {
    KeyCommaAfterGroups(s, c, r, y);
    RawLength(s, y + 1, r, false);
    assert (y + 1) * (r + 1) - 1 == y * (r + 1) + r;
  }

  /** The three characters name three different cell contents. */
  lemma KeyCharInjective(u: Option<Choice>, v: Option<Choice>)
    ensures KeyChar(u) == KeyChar(v) <==> u == v
  {
  }

  /** One group is the same exactly when the row of cells it reads is. */
  lemma GroupDeterminesCells(s: Moves, t: Moves, y: int, r: int)
    requires r >= 0
    ensures Group(s, y, r, false) == Group(t, y, r, false) <==> forall x :: 0 <= x < r ==> Get(s, (x, y)) == Get(t, (x, y))
  {
    if Group(s, y, r, false) == Group(t, y, r, false) {
      forall x | 0 <= x < r ensures Get(s, (x, y)) == Get(t, (x, y)) {
        GroupCell(s, y, r, false, x);
        GroupCell(t, y, r, false, x);
        KeyCharInjective(Get(s, (x, y)), Get(t, (x, y)));
      }
    } else {
      GroupsDiffer(s, t, y, r);
    }
  }

  /** Different groups differ at some cell of the row. */
  lemma {:induction false} GroupsDiffer(s: Moves, t: Moves, y: int, r: int)
    requires r >= 0 && Group(s, y, r, false) != Group(t, y, r, false)
    ensures exists x :: 0 <= x < r && Get(s, (x, y)) != Get(t, (x, y))
    decreases r
  {
    if Group(s, y, r - 1, false) != Group(t, y, r - 1, false) {
      GroupsDiffer(s, t, y, r - 1);
    } else {
      assert Get(s, (r - 1, y)) != Get(t, (r - 1, y));
    }
  }

  /** Boards that agree on the cells read give the same string. */
  lemma {:induction false} AgreeingBoardsSameRaw(s: Moves, t: Moves, c: int, r: int)
    requires r >= 0
    requires forall x, y :: 0 <= x < r && 0 <= y < c ==> Get(s, (x, y)) == Get(t, (x, y))
    ensures Raw(s, c, r, false) == Raw(t, c, r, false)
    decreases c
  {
    if c > 0 {
      AgreeingBoardsSameRaw(s, t, c - 1, r);
      GroupDeterminesCells(s, t, c - 1, r);
    }
  }

  /** The same string means the same cells, group by group. */
  lemma {:induction false} SameRawAgreeingBoards(s: Moves, t: Moves, c: int, r: int)
    requires c >= 0 && r >= 0
    requires Raw(s, c, r, false) == Raw(t, c, r, false)
    ensures forall x, y :: 0 <= x < r && 0 <= y < c ==> Get(s, (x, y)) == Get(t, (x, y))
    decreases c
  {
    if c > 0 {
      var ps, pt := Raw(s, c - 1, r, false), Raw(t, c - 1, r, false);
      var gs, gt := Group(s, c - 1, r, false), Group(t, c - 1, r, false);
      RawLength(s, c - 1, r, false);
      RawLength(t, c - 1, r, false);
      assert ps + gs + [','] == pt + gt + [','];
      assert ps == (ps + gs + [','])[..|ps|] && pt == (pt + gt + [','])[..|pt|];
      assert gs == (ps + gs + [','])[|ps|..|ps| + r] && gt == (pt + gt + [','])[|pt|..|pt| + r];
      SameRawAgreeingBoards(s, t, c - 1, r);
      GroupDeterminesCells(s, t, c - 1, r);
    }
  }

  /**
   * Two boards have the same key exactly when they agree on every cell the
   * key covers: x < rows and y < columns.
   */
  lemma KeyDeterminesCells(s: Moves, t: Moves, c: int, r: int)
    requires c >= 0 && r >= 0
    ensures Key(s, c, r) == Key(t, c, r)
        <==> forall x, y :: 0 <= x < r && 0 <= y < c ==> Get(s, (x, y)) == Get(t, (x, y))
  {
    if c > 0 {
      KeyShape(s, c, r);
      KeyShape(t, c, r);
    }
    if Key(s, c, r) == Key(t, c, r) {
      SameRawAgreeingBoards(s, t, c, r);
    }
    if forall x, y :: 0 <= x < r && 0 <= y < c ==> Get(s, (x, y)) == Get(t, (x, y)) {
      AgreeingBoardsSameRaw(s, t, c, r);
    }
  }

  /** Reading each cell at (y, x) is reading the transposed board at (x, y). */
  lemma {:induction false} InvertedGroupIsTransposedGroup(s: Moves, y: int, n: int)
    ensures Group(s, y, n, true) == Group(Transposed(s), y, n, false)
    decreases n
  {
    if n > 0 {
      InvertedGroupIsTransposedGroup(s, y, n - 1);
      TransposedAt(s, (n - 1, y));
    }
  }

  lemma {:induction false} InvertedRawIsTransposedRaw(s: Moves, c: int, r: int)
    ensures Raw(s, c, r, true) == Raw(Transposed(s), c, r, false)
    decreases c
  {
    if c > 0 {
      InvertedRawIsTransposedRaw(s, c - 1, r);
      InvertedGroupIsTransposedGroup(s, c - 1, r);
    }
  }

  /** The second key is the first key of the board with x and y exchanged. */
  lemma InvertedKeyIsTransposedKey(s: Moves, c: int, r: int)
    ensures InvertedKey(s, c, r) == Key(Transposed(s), c, r)
  {
    InvertedRawIsTransposedRaw(s, c, r);
  }

  /** Reading at (y, x) twice gives the board back. */
  lemma TransposedTwice(s: Moves)
    ensures Transposed(Transposed(s)) == s
  {
    var t := Transposed(Transposed(s));
    forall p ensures p in t <==> p in s {
      TransposedAt(Transposed(s), p);
      TransposedAt(s, (p.1, p.0));
    }
    forall p | p in s ensures t[p] == s[p] {
      TransposedAt(Transposed(s), p);
      TransposedAt(s, (p.1, p.0));
    }
  }

  /** The keys of the transposed board are the board's own keys, swapped. */
  lemma TransposedKeysSwap(s: Moves, c: int, r: int)
    ensures Key(Transposed(s), c, r) == InvertedKey(s, c, r)
    ensures InvertedKey(Transposed(s), c, r) == Key(s, c, r)
  {
    InvertedKeyIsTransposedKey(s, c, r);
    InvertedKeyIsTransposedKey(Transposed(s), c, r);
    TransposedTwice(s);
  }

  // ---------------------------------------------------------------------
  // The two boards of the key tests

  lemma EmptyBoardKeys(s: Moves)
    requires s == map[]
    ensures Key(s, 3, 3) == "___,___,___"
    ensures InvertedKey(s, 3, 3) == "___,___,___"
  {
  }

  /** A group of four cells, spelled out. */
  lemma FourCells(s: Moves, y: int, inverted: bool)
    ensures Group(s, y, 4, inverted)
         == [KeyChar(Get(s, Reads(0, y, inverted))), KeyChar(Get(s, Reads(1, y, inverted))),
             KeyChar(Get(s, Reads(2, y, inverted))), KeyChar(Get(s, Reads(3, y, inverted)))]
  {
  }

  /** Three groups of four, spelled out. */
  lemma ThreeGroups(s: Moves, inverted: bool)
    ensures DropLast(Raw(s, 3, 4, inverted))
         == Group(s, 0, 4, inverted) + [','] + Group(s, 1, 4, inverted) + [','] + Group(s, 2, 4, inverted)
  {
    RawStep(s, 0, 4, inverted);
    RawStep(s, 1, 4, inverted);
    RawStep(s, 2, 4, inverted);
    var a, b, c := Group(s, 0, 4, inverted), Group(s, 1, 4, inverted), Group(s, 2, 4, inverted);
    assert Raw(s, 3, 4, inverted) == a + [','] + b + [','] + c + [','];
  }

  /** 'x' at (1, 0) and 'o' at (0, 1), three columns of four: the first group holds the 'x'. */
  lemma PopulatedBoardKey(s: Moves)
    requires s == map[(1, 0) := Some(X), (0, 1) := Some(O)]
    ensures Key(s, 3, 4) == "_x__,o___,____"
  {
    ThreeGroups(s, false);
    assert Group(s, 0, 4, false) == "_x__" by {
      FourCells(s, 0, false);
      assert Get(s, (0, 0)) == None && Get(s, (1, 0)) == Some(X) && Get(s, (2, 0)) == None && Get(s, (3, 0)) == None;
    }
    assert Group(s, 1, 4, false) == "o___" by {
      FourCells(s, 1, false);
      assert Get(s, (0, 1)) == Some(O) && Get(s, (1, 1)) == None && Get(s, (2, 1)) == None && Get(s, (3, 1)) == None;
    }
    assert Group(s, 2, 4, false) == "____" by {
      FourCells(s, 2, false);
      assert Get(s, (0, 2)) == None && Get(s, (1, 2)) == None && Get(s, (2, 2)) == None && Get(s, (3, 2)) == None;
    }
  }

  /** The same board read at (y, x): now the first group holds the 'o'. */
  lemma PopulatedBoardInvertedKey(s: Moves)
    requires s == map[(1, 0) := Some(X), (0, 1) := Some(O)]
    ensures InvertedKey(s, 3, 4) == "_o__,x___,____"
  {
    ThreeGroups(s, true);
    assert Group(s, 0, 4, true) == "_o__" by {
      FourCells(s, 0, true);
      assert Get(s, (0, 0)) == None && Get(s, (0, 1)) == Some(O) && Get(s, (0, 2)) == None && Get(s, (0, 3)) == None;
    }
    assert Group(s, 1, 4, true) == "x___" by {
      FourCells(s, 1, true);
      assert Get(s, (1, 0)) == Some(X) && Get(s, (1, 1)) == None && Get(s, (1, 2)) == None && Get(s, (1, 3)) == None;
    }
    assert Group(s, 2, 4, true) == "____" by {
      FourCells(s, 2, true);
      assert Get(s, (2, 0)) == None && Get(s, (2, 1)) == None && Get(s, (2, 2)) == None && Get(s, (2, 3)) == None;
    }
  }

  /**
   * The groups run over y < columns and read x < rows, so on a board with
   * more rows than columns an in-bounds cell such as (0, 3) of a 3 x 4
   * board is not part of the key.
   */
  lemma KeyMissesCellOfTallBoard(s: Moves)
    requires s == map[]
    ensures Key(s, 3, 4) == Key(s[(0, 3) := Some(X)], 3, 4)
  {
    var t := s[(0, 3) := Some(X)];
    forall x, y | 0 <= x < 4 && 0 <= y < 3 ensures Get(s, (x, y)) == Get(t, (x, y)) {
    }
    KeyDeterminesCells(s, t, 3, 4);
  }
}
