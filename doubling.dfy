/**
 * The doubling stage (`cleanUp`). When doubling is on, a layout whose halls
 * touch only at a corner is rejected; otherwise every row and then every
 * column is duplicated, so each cell becomes a 2×2 block, and one pass over
 * all 2×2 windows shrinks keys, doors, start and end back to one cell each.
 */
module Doubling {
  import opened Tiles

  /** The source measures columns on row 0. */
  function Width(g: Grid): nat
  {
    if |g| == 0 then 0 else |g[0]|
  }

  // ---------------------------------------------------------------------------
  // Rejection

  /**
   * The window with top-left cell (i, j) is a diagonal checkerboard of halls
   * and empty cells: two halls that touch only at a corner. Reads past the
   * right or bottom edge hold no tile.
   */
  predicate Checker(g: Grid, i: int, j: int)
  {
    || (IsAt(g, i, j, Hall) && IsAt(g, i, j + 1, Empty) && IsAt(g, i + 1, j, Empty) && IsAt(g, i + 1, j + 1, Hall))
    || (IsAt(g, i, j, Empty) && IsAt(g, i, j + 1, Hall) && IsAt(g, i + 1, j, Hall) && IsAt(g, i + 1, j + 1, Empty))
  }

  predicate HasChecker(g: Grid)
  {
    exists i, j :: 0 <= i < |g| && 0 <= j < Width(g) && Checker(g, i, j)
  }

  /** The rejection scan: finds a checkerboard window exactly when there is one. */
  method FindChecker(g: Grid) returns (found: bool)
    ensures found <==> HasChecker(g)
  {
    var i := 0;
    while i < |g|
      invariant 0 <= i <= |g|
      invariant forall a, b :: 0 <= a < i && 0 <= b < Width(g) ==> !Checker(g, a, b)
    {
      var j := 0;
      while j < |g[0]|
        invariant 0 <= j <= |g[0]|
        invariant forall b :: 0 <= b < j ==> !Checker(g, i, b)
      {
        if IsAt(g, i, j, Hall) && IsAt(g, i, j + 1, Empty) && IsAt(g, i + 1, j, Empty) && IsAt(g, i + 1, j + 1, Hall) {
          assert Checker(g, i, j);
          return true;
        }
        if IsAt(g, i, j, Empty) && IsAt(g, i, j + 1, Hall) && IsAt(g, i + 1, j, Hall) && IsAt(g, i + 1, j + 1, Empty) {
          assert Checker(g, i, j);
          return true;
        }
        j := j + 1;
      }
      i := i + 1;
    }
    return false;
  }

  // ---------------------------------------------------------------------------
  // Duplication

  /**
   * Row duplication: a copy of row `i` is spliced in front of it and `i`
   * steps past both, for as long as `i` is below the growing row count. Every
   * row of the result is the original row at half its index.
   */
  method DoubleRows(g: Grid, h: nat, w: nat) returns (out: Grid)
    requires IsRect(g, h, w)
    ensures IsRect(out, 2 * h, w)
    ensures forall r :: 0 <= r < 2 * h ==> out[r] == g[r / 2]
  {
    out := g;
    var i := 0;
    while i < |out|
      invariant RowsDoubledUpTo(out, g, h, w, i)
      decreases 2 * h - i
    {
      var y := CopyRow(out[i], |out[0]|);
      SpliceRow(out, g, h, w, i);
      out := out[..i] + [y] + out[i..];
      i := i + 2;
    }
    RowsDoubledDone(out, g, h, w, i);
  }

  /** Once `i` has caught up with the row count, every row is doubled. */
  lemma RowsDoubledDone(out: Grid, g: Grid, h: nat, w: nat, i: int)
    requires RowsDoubledUpTo(out, g, h, w, i) && i >= |out|
    ensures IsRect(out, 2 * h, w)
    ensures forall r :: 0 <= r < 2 * h ==> out[r] == g[r / 2]
  {
    assert i == 2 * h;
  }

  /** The copy loop of the row duplication: `n` cells, one by one, from `row`. */
  method CopyRow(row: seq<Tile>, n: int) returns (y: seq<Tile>)
    requires n == |row|
    ensures y == row
  {
    y := [];
    for j := 0 to n
      invariant y == row[..j]
    {
      y := y + [row[j]];
    }
    assert row[..n] == row;
  }

  /** The row loop's state at `i`: rows before `i` doubled, the rest still to do. */
  predicate RowsDoubledUpTo(out: Grid, g: Grid, h: nat, w: nat, i: int)
  {
    && |g| == h && i % 2 == 0 && 0 <= i <= 2 * h
    && IsRect(out, h + i / 2, w)
    && (forall r :: 0 <= r < i ==> out[r] == g[r / 2])
    && (forall r :: i <= r < |out| ==> out[r] == g[r - i / 2])
  }

  /** Copying row `i` in front of itself is one step of the row loop. */
  lemma SpliceRow(out: Grid, g: Grid, h: nat, w: nat, i: int)
    requires RowsDoubledUpTo(out, g, h, w, i) && i < |out|
    ensures RowsDoubledUpTo(out[..i] + [out[i]] + out[i..], g, h, w, i + 2)
  {
    var o := out[..i] + [out[i]] + out[i..];
    assert |o| == |out| + 1;
    forall r | 0 <= r < |o|
      ensures o[r] == if r <= i then out[if r < i then r else i] else out[r - 1]
    {
    }
  }

  /**
   * Column duplication: in every row, a copy of cell `j` is spliced in front
   * of it and `j` steps past both, for as long as `j` is below the length of
   * row 0. While row 0 itself is doubled that bound grows with it; for the
   * later rows it is already twice the width. Every cell of the result is the
   * original cell at half its column.
   */
  method DoubleColumns(g: Grid, h: nat, w: nat) returns (out: Grid)
    requires IsRect(g, h, w)
    ensures IsRect(out, h, 2 * w)
    ensures forall r, c :: 0 <= r < h && 0 <= c < 2 * w ==> out[r][c] == g[r][c / 2]
  {
    out := g;
    for i := 0 to |out|
      invariant |out| == h
      invariant forall r :: 0 <= r < i ==> IsDoubledRow(out[r], g[r], w)
      invariant forall r :: i <= r < h ==> out[r] == g[r]
    {
      ghost var before := out;
      var j := 0;
      while j < |out[0]|
        invariant |out| == h
        invariant CellsDoubledUpTo(out[i], g[i], w, j)
        invariant i > 0 ==> |out[0]| == 2 * w
        invariant forall r :: 0 <= r < h && r != i ==> out[r] == before[r]
        decreases 2 * w - j
      {
        var row := out[i];
        SpliceCell(row, g[i], w, j);
        out := out[i := row[..j] + [row[j]] + row[j..]];
        j := j + 2;
      }
      assert IsDoubledRow(out[i], g[i], w);
    }
  }

  /** `o` is `row` with every cell doubled. */
  predicate IsDoubledRow(o: seq<Tile>, row: seq<Tile>, w: nat)
    requires |row| == w
  {
    |o| == 2 * w && forall c :: 0 <= c < 2 * w ==> o[c] == row[c / 2]
  }

  /** The column loop's state at `j` in one row: cells before `j` doubled, the rest still to do. */
  predicate CellsDoubledUpTo(o: seq<Tile>, row: seq<Tile>, w: nat, j: int)
  {
    && |row| == w && j % 2 == 0 && 0 <= j <= 2 * w
    && |o| == w + j / 2
    && (forall c :: 0 <= c < j ==> o[c] == row[c / 2])
    && (forall c :: j <= c < |o| ==> o[c] == row[c - j / 2])
  }

  /** Copying cell `j` in front of itself is one step of the column loop. */
  lemma SpliceCell(o: seq<Tile>, row: seq<Tile>, w: nat, j: int)
    requires CellsDoubledUpTo(o, row, w, j) && j < |o|
    ensures CellsDoubledUpTo(o[..j] + [o[j]] + o[j..], row, w, j + 2)
  {
    var o' := o[..j] + [o[j]] + o[j..];
    forall c | 0 <= c < |o'|
      ensures o'[c] == if c <= j then o[if c < j then c else j] else o[c - 1]
    {
    }
  }

  /** Every cell of `out` is the cell of `g` at half its row and column. */
  predicate IsDoubleOf(out: Grid, g: Grid, h: int, w: int)
    requires IsRect(g, h, w)
  {
    IsRect(out, 2 * h, 2 * w) &&
    forall r, c :: 0 <= r < 2 * h && 0 <= c < 2 * w ==> out[r][c] == g[r / 2][c / 2]
  }

  /** The grid `cleanUp` builds before its window pass: each cell of `g` as a 2×2 block. */
  function Doubled(g: Grid, h: nat, w: nat): (r: Grid)
    requires IsRect(g, h, w)
    ensures IsDoubleOf(r, g, h, w)
  {
    seq(2 * h, r requires 0 <= r < 2 * h => seq(2 * w, c requires 0 <= c < 2 * w => g[r / 2][c / 2]))
  }

  /** The block structure pins the doubled grid down: there is only one. */
  lemma DoubleOfUnique(out: Grid, g: Grid, h: nat, w: nat)
    requires IsRect(g, h, w) && IsDoubleOf(out, g, h, w)
    ensures out == Doubled(g, h, w)
  {
    SameCells(out, Doubled(g, h, w));
  }

  /** Rows then columns: the whole duplication turns each cell into a 2×2 block. */
  method Duplicate(g: Grid, h: nat, w: nat) returns (out: Grid)
    requires IsRect(g, h, w)
    ensures out == Doubled(g, h, w)
  {
    var rows := DoubleRows(g, h, w);
    out := DoubleColumns(rows, 2 * h, w);
    DoubleOfUnique(out, g, h, w);
  }

  /** Every other row and column, from the first: undoes the duplication. */
  function Shrunk(g: Grid, h: nat, w: nat): Grid
    requires IsRect(g, 2 * h, 2 * w)
  {
    seq(h, r requires 0 <= r < h => seq(w, c requires 0 <= c < w => g[2 * r][2 * c]))
  }

  /** The duplication loses nothing: shrinking its result gives back the grid it started from. */
  lemma ShrunkUndoesDouble(g: Grid, h: nat, w: nat)
    requires IsRect(g, h, w)
    ensures Shrunk(Doubled(g, h, w), h, w) == g
  {
    var out := Doubled(g, h, w);
    var s := Shrunk(out, h, w);
    forall r | 0 <= r < h
      ensures s[r] == g[r]
    {
      forall c | 0 <= c < w
        ensures s[r][c] == g[r][c]
      {
        assert out[2 * r][2 * c] == g[(2 * r) / 2][(2 * c) / 2];
      }
    }
  }

  // ---------------------------------------------------------------------------
  // The window pass

  /** The three cells of the window at (i, j) other than its top-left one become `t`. */
  function Fill3(g: Grid, h: int, w: int, i: int, j: int, t: Tile): (r: Grid)
    requires IsRect(g, h, w) && 0 <= i && i + 1 < h && 0 <= j && j + 1 < w
    ensures IsRect(r, h, w)
  {
    Set(Set(Set(g, Coord(j + 1, i), t), Coord(j, i + 1), t), Coord(j + 1, i + 1), t)
  }

  /** All four cells of the window at (i, j) become `t`. */
  function Fill4(g: Grid, h: int, w: int, i: int, j: int, t: Tile): (r: Grid)
    requires IsRect(g, h, w) && 0 <= i && i + 1 < h && 0 <= j && j + 1 < w
    ensures IsRect(r, h, w)
  {
    Set(Fill3(g, h, w, i, j, t), Coord(j, i), t)
  }

  /** All four cells of the window at (i, j) hold the same tile. */
  predicate Uniform(g: Grid, h: int, w: int, i: int, j: int)
    requires IsRect(g, h, w) && 0 <= i && i + 1 < h && 0 <= j && j + 1 < w
  {
    g[i][j + 1] == g[i][j] && g[i + 1][j + 1] == g[i][j] && g[i + 1][j] == g[i][j]
  }

  /** All four cells of the window at (i, j) are doors of some kind. */
  predicate AllDoors(g: Grid, h: int, w: int, i: int, j: int)
    requires IsRect(g, h, w) && 0 <= i && i + 1 < h && 0 <= j && j + 1 < w
  {
    IsDoorTile(g[i][j]) && IsDoorTile(g[i][j + 1]) && IsDoorTile(g[i + 1][j + 1]) && IsDoorTile(g[i + 1][j])
  }

  /** A window of four copies of a key with gate below `keys` keeps only its top-left key. */
  function KeyWindow(g: Grid, h: int, w: int, i: int, j: int, keys: int): (r: Grid)
    requires IsRect(g, h, w) && 0 <= i && i + 1 < h && 0 <= j && j + 1 < w
    ensures IsRect(r, h, w)
  {
    if g[i][j].KeyN? && g[i][j].gate < keys && Uniform(g, h, w, i, j) then Fill3(g, h, w, i, j, Room) else g
  }

  /** The two cells `a` and `b` take tile `t` when both are halls; a read outside the grid is no hall. */
  function CopyOntoHalls(g: Grid, h: int, w: int, a: Coord, b: Coord, t: Tile): (r: Grid)
    requires IsRect(g, h, w)
    ensures IsRect(r, h, w)
  {
    if IsAt(g, a.y, a.x, Hall) && IsAt(g, b.y, b.x, Hall) then Set(Set(g, a, t), b, t) else g
  }

  /**
   * A window of four doors copies its top-left door tile onto each fully-hall
   * pair of cells beside it (top, bottom, right, left), then becomes four room
   * cells.
   */
  function DoorWindow(g: Grid, h: int, w: int, i: int, j: int): (r: Grid)
    requires IsRect(g, h, w) && 0 <= i && i + 1 < h && 0 <= j && j + 1 < w
    ensures IsRect(r, h, w)
  {
    if AllDoors(g, h, w, i, j) then Fill4(SideCopies(g, h, w, i, j, g[i][j]), h, w, i, j, Room) else g
  }

  /** The four side copies of the window at (i, j), in the source's order: top, bottom, right, left. */
  function SideCopies(g: Grid, h: int, w: int, i: int, j: int, t: Tile): (r: Grid)
    requires IsRect(g, h, w)
    ensures IsRect(r, h, w)
  {
    var top := CopyOntoHalls(g, h, w, Coord(j, i - 1), Coord(j + 1, i - 1), t);
    var bottom := CopyOntoHalls(top, h, w, Coord(j, i + 2), Coord(j + 1, i + 2), t);
    var right := CopyOntoHalls(bottom, h, w, Coord(j + 2, i), Coord(j + 2, i + 1), t);
    CopyOntoHalls(right, h, w, Coord(j - 1, i), Coord(j - 1, i + 1), t)
  }

  /** A start or end tile at the top-left keeps its cell; the other three turn into room. */
  function StartEndWindow(g: Grid, h: int, w: int, i: int, j: int): (r: Grid)
    requires IsRect(g, h, w) && 0 <= i && i + 1 < h && 0 <= j && j + 1 < w
    ensures IsRect(r, h, w)
  {
    if g[i][j] == Start || g[i][j] == End then Fill3(g, h, w, i, j, Room) else g
  }

  /** One iteration of the pass at window (i, j): keys, then doors, then start and end. */
  function Window(g: Grid, h: int, w: int, i: int, j: int, keys: int): (r: Grid)
    requires IsRect(g, h, w) && 0 <= i && i + 1 < h && 0 <= j && j + 1 < w
    ensures IsRect(r, h, w)
  {
    StartEndWindow(DoorWindow(KeyWindow(g, h, w, i, j, keys), h, w, i, j), h, w, i, j)
  }

  /** The windows of row `i` from column `j` on, left to right. */
  function PassRow(g: Grid, h: int, w: int, i: int, j: int, keys: int): (r: Grid)
    requires IsRect(g, h, w) && 0 <= i && i + 1 < h && 0 <= j
    ensures IsRect(r, h, w)
    decreases w - j
  {
    if j + 1 >= w then g else PassRow(Window(g, h, w, i, j, keys), h, w, i, j + 1, keys)
  }

  /** The windows of rows `i` on, top to bottom. */
  function Pass(g: Grid, h: int, w: int, i: int, keys: int): (r: Grid)
    requires IsRect(g, h, w) && 0 <= i
    ensures IsRect(r, h, w)
    decreases h - i
  {
    if i + 1 >= h then g else Pass(PassRow(g, h, w, i, 0, keys), h, w, i + 1, keys)
  }

  /** The key test at window (i, j), repeated for every gate below `keys`. */
  method CollapseKey(g: Grid, h: nat, w: nat, i: nat, j: nat, keys: nat) returns (out: Grid)
    requires IsRect(g, h, w) && i + 1 < h && j + 1 < w
    ensures out == KeyWindow(g, h, w, i, j, keys)
  {
    out := g;
    for k := 0 to keys
      invariant out == if g[i][j].KeyN? && g[i][j].gate < k && Uniform(g, h, w, i, j)
                       then Fill3(g, h, w, i, j, Room) else g
    {
      var key := KeyN(k);
      if out[i][j] == key && out[i][j + 1] == key && out[i + 1][j + 1] == key && out[i + 1][j] == key {
        out := Set(Set(Set(out, Coord(j + 1, i), Room), Coord(j, i + 1), Room), Coord(j + 1, i + 1), Room);
      }
    }
  }

  /** One side copy: both cells take `t` when both are halls. */
  method CopyPair(g: Grid, h: nat, w: nat, a: Coord, b: Coord, t: Tile) returns (out: Grid)
    requires IsRect(g, h, w)
    ensures out == CopyOntoHalls(g, h, w, a, b, t)
  {
    out := g;
    if IsAt(out, a.y, a.x, Hall) && IsAt(out, b.y, b.x, Hall) {
      out := Set(out, a, t);
      out := Set(out, b, t);
    }
  }

  /** The door test at window (i, j), with its four side copies: top, bottom, right, left. */
  method CollapseDoor(g: Grid, h: nat, w: nat, i: nat, j: nat) returns (out: Grid)
    requires IsRect(g, h, w) && i + 1 < h && j + 1 < w
    ensures out == DoorWindow(g, h, w, i, j)
  {
    out := g;
    if IsDoorTile(out[i][j]) && IsDoorTile(out[i][j + 1]) && IsDoorTile(out[i + 1][j + 1]) && IsDoorTile(out[i + 1][j]) {
      var t := out[i][j];
      out := CopyPair(out, h, w, Coord(j, i - 1), Coord(j + 1, i - 1), t);
      out := CopyPair(out, h, w, Coord(j, i + 2), Coord(j + 1, i + 2), t);
      out := CopyPair(out, h, w, Coord(j + 2, i), Coord(j + 2, i + 1), t);
      out := CopyPair(out, h, w, Coord(j - 1, i), Coord(j - 1, i + 1), t);
      out := Set(Set(Set(Set(out, Coord(j + 1, i), Room), Coord(j, i + 1), Room), Coord(j + 1, i + 1), Room), Coord(j, i), Room);
    }
  }

  /** One iteration of the pass at window (i, j). */
  method CollapseWindow(g: Grid, h: nat, w: nat, i: nat, j: nat, keys: nat) returns (out: Grid)
    requires IsRect(g, h, w) && i + 1 < h && j + 1 < w
    ensures out == Window(g, h, w, i, j, keys)
  {
    out := CollapseKey(g, h, w, i, j, keys);
    out := CollapseDoor(out, h, w, i, j);
    if out[i][j] == Start {
      out := Set(Set(Set(out, Coord(j + 1, i), Room), Coord(j, i + 1), Room), Coord(j + 1, i + 1), Room);
    }
    if out[i][j] == End {
      out := Set(Set(Set(out, Coord(j + 1, i), Room), Coord(j, i + 1), Room), Coord(j + 1, i + 1), Room);
    }
  }

  /**
   * The window pass as the source runs it, over every window whose top-left
   * cell is not in the last row or column.
   */
  method CollapseWindows(g: Grid, h: nat, w: nat, keys: nat) returns (out: Grid)
    requires IsRect(g, h, w)
    ensures out == Pass(g, h, w, 0, keys)
  {
    out := g;
    var i := 0;
    while i < |out| - 1
      invariant 0 <= i && IsRect(out, h, w)
      invariant Pass(out, h, w, i, keys) == Pass(g, h, w, 0, keys)
    {
      var j := 0;
      while j < |out[0]| - 1
        invariant 0 <= j && IsRect(out, h, w)
        invariant Pass(PassRow(out, h, w, i, j, keys), h, w, i + 1, keys) == Pass(g, h, w, 0, keys)
      {
        out := CollapseWindow(out, h, w, i, j, keys);
        j := j + 1;
      }
      i := i + 1;
    }
  }

  // ---------------------------------------------------------------------------
  // What one window does

  predicate InWindow(r: int, c: int, i: int, j: int)
  {
    i <= r <= i + 1 && j <= c <= j + 1
  }

  /** The single cell `(r, c)` written by `Fill3(..., Room)`: the window minus its top-left cell. */
  lemma Fill3Cells(g: Grid, h: int, w: int, i: int, j: int, t: Tile)
    requires IsRect(g, h, w) && 0 <= i && i + 1 < h && 0 <= j && j + 1 < w
    ensures forall r, c :: 0 <= r < h && 0 <= c < w ==>
              Fill3(g, h, w, i, j, t)[r][c] == if InWindow(r, c, i, j) && !(r == i && c == j) then t else g[r][c]
  {
  }

  /**
   * A window of four copies of a key with gate below `keys` keeps the key in
   * its top-left cell only; the other three cells become room and nothing
   * else changes.
   */
  lemma WindowKey(g: Grid, h: int, w: int, i: int, j: int, keys: int)
    requires IsRect(g, h, w) && 0 <= i && i + 1 < h && 0 <= j && j + 1 < w
    requires g[i][j].KeyN? && g[i][j].gate < keys && Uniform(g, h, w, i, j)
    ensures forall r, c :: 0 <= r < h && 0 <= c < w ==>
              Window(g, h, w, i, j, keys)[r][c] == if InWindow(r, c, i, j) && !(r == i && c == j) then Room else g[r][c]
  {
    var k := Fill3(g, h, w, i, j, Room);
    assert KeyWindow(g, h, w, i, j, keys) == k;
    Fill3Cells(g, h, w, i, j, Room);
    assert DoorWindow(k, h, w, i, j) == k && StartEndWindow(k, h, w, i, j) == k;
  }

  /**
   * A start or end tile in the top-left cell stays; the rest of its window
   * becomes room and nothing else changes.
   */
  lemma WindowStartEnd(g: Grid, h: int, w: int, i: int, j: int, keys: int)
    requires IsRect(g, h, w) && 0 <= i && i + 1 < h && 0 <= j && j + 1 < w
    requires g[i][j] == Start || g[i][j] == End
    ensures forall r, c :: 0 <= r < h && 0 <= c < w ==>
              Window(g, h, w, i, j, keys)[r][c] == if InWindow(r, c, i, j) && !(r == i && c == j) then Room else g[r][c]
  {
    assert KeyWindow(g, h, w, i, j, keys) == g;
    assert DoorWindow(g, h, w, i, j) == g;
    assert Window(g, h, w, i, j, keys) == StartEndWindow(g, h, w, i, j) == Fill3(g, h, w, i, j, Room);
    Fill3Cells(g, h, w, i, j, Room);
  }

  /** The two cells `a`, `b` when both are halls, and no cell otherwise. */
  function HallPair(g: Grid, a: Coord, b: Coord): set<Coord>
  {
    if IsAt(g, a.y, a.x, Hall) && IsAt(g, b.y, b.x, Hall) then {a, b} else {}
  }

  /** The cells of the side pairs (top, bottom, right, left) of the window at (i, j) that are two halls. */
  function HallPairs(g: Grid, i: int, j: int): set<Coord>
  {
    HallPair(g, Coord(j, i - 1), Coord(j + 1, i - 1)) + HallPair(g, Coord(j, i + 2), Coord(j + 1, i + 2))
    + HallPair(g, Coord(j + 2, i), Coord(j + 2, i + 1)) + HallPair(g, Coord(j - 1, i), Coord(j - 1, i + 1))
  }

  /** Every cell of a hall pair is a hall. */
  lemma HallPairsAreHalls(g: Grid, i: int, j: int, r: int, c: int)
    requires Coord(c, r) in HallPairs(g, i, j)
    ensures IsAt(g, r, c, Hall)
  {
  }

  /**
   * One side copy, after copies that wrote `t` onto the cells `done` of `g`:
   * the test of the next pair, which lies outside `done`, sees the cells of
   * `g`, so the copied cells grow by that pair exactly when it is two halls
   * in `g`.
   */
  lemma CopyStep(g: Grid, prev: Grid, h: int, w: int, done: set<Coord>, a: Coord, b: Coord, t: Tile)
    requires IsRect(g, h, w) && IsRect(prev, h, w) && a !in done && b !in done
    requires forall r, c :: 0 <= r < h && 0 <= c < w ==> prev[r][c] == if Coord(c, r) in done then t else g[r][c]
    ensures forall r, c :: 0 <= r < h && 0 <= c < w ==>
              CopyOntoHalls(prev, h, w, a, b, t)[r][c] == if Coord(c, r) in done + HallPair(g, a, b) then t else g[r][c]
  {
    assert IsAt(prev, a.y, a.x, Hall) == IsAt(g, a.y, a.x, Hall);
    assert IsAt(prev, b.y, b.x, Hall) == IsAt(g, b.y, b.x, Hall);
  }

  /** The side copies write `t` onto exactly the cells of the pairs that are two halls. */
  lemma SideCopiesCells(g: Grid, h: int, w: int, i: int, j: int, t: Tile)
    requires IsRect(g, h, w)
    ensures forall r, c :: 0 <= r < h && 0 <= c < w ==>
              SideCopies(g, h, w, i, j, t)[r][c] == if Coord(c, r) in HallPairs(g, i, j) then t else g[r][c]
  {
    var top, bottom := HallPair(g, Coord(j, i - 1), Coord(j + 1, i - 1)), HallPair(g, Coord(j, i + 2), Coord(j + 1, i + 2));
    var g1 := TwoCopiesCells(g, g, h, w, {}, Coord(j, i - 1), Coord(j + 1, i - 1), Coord(j, i + 2), Coord(j + 1, i + 2), t);
    assert {} + top + bottom == top + bottom;
    var g2 := TwoCopiesCells(g, g1, h, w, top + bottom, Coord(j + 2, i), Coord(j + 2, i + 1), Coord(j - 1, i), Coord(j - 1, i + 1), t);
    assert g2 == SideCopies(g, h, w, i, j, t);
  }

  /**
   * Two side copies in a row, after copies that wrote `t` onto the cells
   * `done`: the pairs are tested on the cells of `g`, so the copied cells grow
   * by each pair that is two halls in `g`.
   */
  lemma TwoCopiesCells(g: Grid, prev: Grid, h: int, w: int, done: set<Coord>, a: Coord, b: Coord, a': Coord, b': Coord, t: Tile)
    returns (out: Grid)
    requires IsRect(g, h, w) && IsRect(prev, h, w)
    requires a !in done && b !in done && a' !in done && b' !in done && a' != a && a' != b && b' != a && b' != b
    requires forall r, c :: 0 <= r < h && 0 <= c < w ==> prev[r][c] == if Coord(c, r) in done then t else g[r][c]
    ensures out == CopyOntoHalls(CopyOntoHalls(prev, h, w, a, b, t), h, w, a', b', t) && IsRect(out, h, w)
    ensures forall r, c :: 0 <= r < h && 0 <= c < w ==>
              out[r][c] == if Coord(c, r) in done + HallPair(g, a, b) + HallPair(g, a', b') then t else g[r][c]
  {
    var mid := CopyOntoHalls(prev, h, w, a, b, t);
    out := CopyOntoHalls(mid, h, w, a', b', t);
    CopyStep(g, prev, h, w, done, a, b, t);
    CopyStep(g, mid, h, w, done + HallPair(g, a, b), a', b', t);
  }

  /**
   * A window of four doors (of any gate) becomes four room cells; each side
   * pair that was two halls takes the window's top-left door tile; every
   * other cell is unchanged.
   */
  lemma WindowDoors(g: Grid, h: int, w: int, i: int, j: int, keys: int)
    requires IsRect(g, h, w) && 0 <= i && i + 1 < h && 0 <= j && j + 1 < w
    requires AllDoors(g, h, w, i, j)
    ensures forall r, c :: 0 <= r < h && 0 <= c < w ==>
              Window(g, h, w, i, j, keys)[r][c] ==
              if InWindow(r, c, i, j) then Room else if Coord(c, r) in HallPairs(g, i, j) then g[i][j] else g[r][c]
  {
    assert KeyWindow(g, h, w, i, j, keys) == g;
    var left := SideCopies(g, h, w, i, j, g[i][j]);
    var d := Fill4(left, h, w, i, j, Room);
    assert DoorWindow(g, h, w, i, j) == d;
    Fill4Cells(left, h, w, i, j, Room);
    assert StartEndWindow(d, h, w, i, j) == d;
    SideCopiesCells(g, h, w, i, j, g[i][j]);
  }

  /** The cells written by `Fill4(..., t)`: the whole window. */
  lemma Fill4Cells(g: Grid, h: int, w: int, i: int, j: int, t: Tile)
    requires IsRect(g, h, w) && 0 <= i && i + 1 < h && 0 <= j && j + 1 < w
    ensures forall r, c :: 0 <= r < h && 0 <= c < w ==> Fill4(g, h, w, i, j, t)[r][c] == if InWindow(r, c, i, j) then t else g[r][c]
  {
  }

  // ---------------------------------------------------------------------------
  // What the whole pass can do to a cell

  /**
   * The tile a cell may hold after the pass, given what it held before: the
   * same tile, a room tile, or, on a former hall, a copied door tile.
   */
  predicate Allowed(t: Tile, t': Tile)
  {
    t' == t || t' == Room || (t == Hall && IsDoorTile(t'))
  }

  predicate Collapsed(g: Grid, g': Grid, h: int, w: int)
  {
    IsRect(g, h, w) && IsRect(g', h, w) &&
    forall r, c :: 0 <= r < h && 0 <= c < w ==> Allowed(g[r][c], g'[r][c])
  }

  lemma CollapsedTrans(a: Grid, b: Grid, c: Grid, h: int, w: int)
    requires Collapsed(a, b, h, w) && Collapsed(b, c, h, w)
    ensures Collapsed(a, c, h, w)
  {
    forall r, k | 0 <= r < h && 0 <= k < w
      ensures Allowed(a[r][k], c[r][k])
    {
      assert Allowed(a[r][k], b[r][k]) && Allowed(b[r][k], c[r][k]);
    }
  }

  lemma CollapsedRefl(g: Grid, h: int, w: int)
    requires IsRect(g, h, w)
    ensures Collapsed(g, g, h, w)
  {
  }

  lemma WindowCollapses(g: Grid, h: int, w: int, i: int, j: int, keys: int)
    requires IsRect(g, h, w) && 0 <= i && i + 1 < h && 0 <= j && j + 1 < w
    ensures Collapsed(g, Window(g, h, w, i, j, keys), h, w)
  {
    var k := KeyWindow(g, h, w, i, j, keys);
    Fill3Cells(g, h, w, i, j, Room);
    assert Collapsed(g, k, h, w);
    var d := DoorWindow(k, h, w, i, j);
    if AllDoors(k, h, w, i, j) {
      WindowDoors(k, h, w, i, j, 0);
      assert d == Window(k, h, w, i, j, 0);
      forall r, c | 0 <= r < h && 0 <= c < w
        ensures Allowed(k[r][c], d[r][c])
      {
        if !InWindow(r, c, i, j) && Coord(c, r) in HallPairs(k, i, j) {
          HallPairsAreHalls(k, i, j, r, c);
        }
      }
    }
    assert Collapsed(k, d, h, w);
    CollapsedTrans(g, k, d, h, w);
    Fill3Cells(d, h, w, i, j, Room);
    assert Collapsed(d, StartEndWindow(d, h, w, i, j), h, w);
    CollapsedTrans(g, d, StartEndWindow(d, h, w, i, j), h, w);
  }

  lemma {:induction false} PassRowCollapses(g: Grid, h: int, w: int, i: int, j: int, keys: int)
    requires IsRect(g, h, w) && 0 <= i && i + 1 < h && 0 <= j
    ensures Collapsed(g, PassRow(g, h, w, i, j, keys), h, w)
    decreases w - j
  {
    if j + 1 >= w {
      CollapsedRefl(g, h, w);
    } else {
      var g' := Window(g, h, w, i, j, keys);
      WindowCollapses(g, h, w, i, j, keys);
      PassRowCollapses(g', h, w, i, j + 1, keys);
      CollapsedTrans(g, g', PassRow(g', h, w, i, j + 1, keys), h, w);
    }
  }

  /**
   * The pass invents no tile: every cell ends up with the tile it had, with a
   * room tile, or, where it was a hall, with a door tile copied onto it.
   */
  lemma {:induction false} PassCollapses(g: Grid, h: int, w: int, i: int, keys: int)
    requires IsRect(g, h, w) && 0 <= i
    ensures Collapsed(g, Pass(g, h, w, i, keys), h, w)
    decreases h - i
  {
    if i + 1 >= h {
      CollapsedRefl(g, h, w);
    } else {
      var g' := PassRow(g, h, w, i, 0, keys);
      PassRowCollapses(g, h, w, i, 0, keys);
      PassCollapses(g', h, w, i + 1, keys);
      CollapsedTrans(g, g', Pass(g', h, w, i + 1, keys), h, w);
    }
  }
}
