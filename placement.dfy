/**
 * Room placement (`createRooms` and `createRoom`): a candidate rectangle is
 * drawn at random and painted only when it and a padding ring around it are
 * still empty; a placed room also gets a pattern of obstacle cells around it
 * and a room record.
 */
module Placement {
  import opened Tiles
  import opened Random
  import opened Rooms

  /** The configured room size bounds. */
  datatype Sizes = Sizes(minX: int, minY: int, maxX: int, maxY: int)

  predicate SizesOk(s: Sizes)
  {
    0 <= s.minX && 0 <= s.minY && 0 <= s.maxX && 0 <= s.maxY
  }

  /** A candidate rectangle: top-left cell `(x, y)`, `w` columns and `h` rows. */
  datatype Box = Box(x: int, y: int, w: int, h: int)

  /**
   * The `Math.random()` values one iteration of the placement loop consumes
   * (width, height, x, y, and the centre's two coordinates, which are drawn
   * only when the room is placed), with the clock reading its deadline test sees.
   */
  datatype RoomDraw = RoomDraw(now: int, w: real, h: real, x: real, y: real, tx: real, ty: real)

  predicate RoomDrawOk(d: RoomDraw)
  {
    IsUnit(d.w) && IsUnit(d.h) && IsUnit(d.x) && IsUnit(d.y) && IsUnit(d.tx) && IsUnit(d.ty)
  }

  predicate RoomDrawsOk(ds: seq<RoomDraw>)
  {
    forall k :: 0 <= k < |ds| ==> RoomDrawOk(ds[k])
  }

  /** The candidate an iteration draws on a grid of `rows` rows and `cols` columns. */
  function Candidate(rows: int, cols: int, s: Sizes, d: RoomDraw): (b: Box)
    requires RoomDrawOk(d) && SizesOk(s)
    ensures 0 <= b.w && 0 <= b.h
    ensures (s.minX <= s.maxX ==> s.minX <= b.w <= s.maxX) && (s.maxX < s.minX ==> s.maxX <= b.w <= s.minX)
    ensures (s.minY <= s.maxY ==> s.minY <= b.h <= s.maxY) && (s.maxY < s.minY ==> s.maxY <= b.h <= s.minY)
  {
    var w := Rand(s.minX, s.maxX, d.w);
    var h := Rand(s.minY, s.maxY, d.h);
    Box(Rand(2, cols - 2 - w, d.x), Rand(2, rows - 2 - h, d.y), w, h)
  }

  // ---------------------------------------------------------------------------
  // The fit test

  /** Cell `(i, j)`, its eight neighbours and the four cells two steps away along the axes are all empty. */
  predicate ClearAround(g: Grid, i: int, j: int)
  {
    && IsAt(g, i, j, Empty)
    && IsAt(g, i - 1, j - 1, Empty) && IsAt(g, i - 1, j + 1, Empty)
    && IsAt(g, i + 1, j + 1, Empty) && IsAt(g, i + 1, j - 1, Empty)
    && IsAt(g, i + 1, j, Empty) && IsAt(g, i - 1, j, Empty)
    && IsAt(g, i, j + 1, Empty) && IsAt(g, i, j - 1, Empty)
    && IsAt(g, i + 2, j, Empty) && IsAt(g, i - 2, j, Empty)
    && IsAt(g, i, j + 2, Empty) && IsAt(g, i, j - 2, Empty)
  }

  /** Every cell `(i, j)` with `x <= j <= x + w`, `i` in a row band, is clear around. */
  predicate RowsClear(g: Grid, b: Box, fromRow: int, toRow: int)
  {
    forall i, j :: fromRow <= i < toRow && b.x <= j <= b.x + b.w ==> ClearAround(g, i, j)
  }

  /**
   * The candidate fits: the box `[y..y+h] × [x..x+w]`, both ends included
   * (one row and one column more than is painted), is clear around.
   */
  predicate Fits(g: Grid, b: Box)
  {
    RowsClear(g, b, b.y, b.y + b.h + 1)
  }

  /** A fitting box lies at least two cells inside the grid on every side. */
  lemma FitsInside(g: Grid, b: Box, rows: int, cols: int)
    requires IsRect(g, rows, cols) && 0 <= b.w && 0 <= b.h && Fits(g, b)
    ensures 2 <= b.x && b.x + b.w + 2 < cols
    ensures 2 <= b.y && b.y + b.h + 2 < rows
  {
    assert ClearAround(g, b.y, b.x);
    assert ClearAround(g, b.y + b.h, b.x + b.w);
  }

  /**
   * A rectangle is painted only onto empty space: when the candidate fits,
   * the box grown by one cell on every side is empty, so a new room never
   * touches a non-empty cell, not even diagonally.
   */
  lemma FitsClearsRing(g: Grid, b: Box, i: int, j: int)
    requires 0 <= b.w && 0 <= b.h && Fits(g, b)
    requires b.y - 1 <= i <= b.y + b.h + 1 && b.x - 1 <= j <= b.x + b.w + 1
    ensures IsAt(g, i, j, Empty)
  {
    var bi := if i < b.y then b.y else if i > b.y + b.h then b.y + b.h else i;
    var bj := if j < b.x then b.x else if j > b.x + b.w then b.x + b.w else j;
    assert ClearAround(g, bi, bj);
  }

  // ---------------------------------------------------------------------------
  // Painting and the obstacle pattern

  /** `g` with the cells `[y, y+h) × [x, x+w)` turned into room tiles. */
  function Painted(g: Grid, b: Box): (r: Grid)
    ensures |r| == |g| && forall i :: 0 <= i < |g| ==> |r[i]| == |g[i]|
  {
    seq(|g|, i requires 0 <= i < |g| =>
      seq(|g[i]|, j requires 0 <= j < |g[i]| =>
        if b.y <= i < b.y + b.h && b.x <= j < b.x + b.w then Room else g[i][j]))
  }

  /** One of the sixteen corner cells `createRoom` marks as obstacles. */
  predicate IsCornerCell(i: int, j: int, b: Box)
  {
    var x, y, w, h := b.x, b.y, b.w, b.h;
    || (i == y && j == x) || (i == y && j == x - 1) || (i == y - 1 && j == x) || (i == y - 1 && j == x - 1)
    || (i == y && j == x + w) || (i == y && j == x + w - 1) || (i == y - 1 && j == x + w) || (i == y - 1 && j == x + w - 1)
    || (i == y + h && j == x + w) || (i == y + h && j == x + w - 1) || (i == y + h - 1 && j == x + w - 1) || (i == y + h - 1 && j == x + w)
    || (i == y + h - 1 && j == x) || (i == y + h - 1 && j == x - 1) || (i == y + h && j == x - 1) || (i == y + h && j == x)
  }

  /**
   * One of the cells of the "permeable border": the ring of rows `y-1..y+h`
   * and columns `x-1..x+w` around the room, at even row (on the left and
   * right sides) or even column (on the top and bottom sides); odd cells stay
   * open as ways in.
   */
  predicate IsBorderCell(i: int, j: int, b: Box)
  {
    || (b.y - 1 <= i < b.y + b.h + 1 && i % 2 == 0 && (j == b.x - 1 || j == b.x + b.w))
    || (b.x - 1 <= j < b.x + b.w + 1 && j % 2 == 0 && (i == b.y - 1 || i == b.y + b.h))
  }

  predicate IsPatternCell(i: int, j: int, b: Box)
  {
    IsCornerCell(i, j, b) || IsBorderCell(i, j, b)
  }

  /** The obstacle layer after `createRoom`: the pattern cells are set, all others unchanged. */
  function RoomWalls(wl: Walls, b: Box): (r: Walls)
    ensures |r| == |wl| && forall i :: 0 <= i < |wl| ==> |r[i]| == |wl[i]|
  {
    seq(|wl|, i requires 0 <= i < |wl| =>
      seq(|wl[i]|, j requires 0 <= j < |wl[i]| => wl[i][j] || IsPatternCell(i, j, b)))
  }

  /**
   * The pattern hugs the room: every pattern cell lies in the ring of rows
   * `y-1..y+h` and columns `x-1..x+w`.
   */
  lemma PatternNearRoom(i: int, j: int, b: Box)
    requires 0 <= b.w && 0 <= b.h && IsPatternCell(i, j, b)
    ensures b.y - 1 <= i <= b.y + b.h && b.x - 1 <= j <= b.x + b.w
  {
  }

  /** The record `createRoom` appends for the rectangle `b`, with centre draws `utx`, `uty`. */
  function NewRoom(b: Box, utx: real, uty: real): (r: Room)
    requires IsUnit(utx) && IsUnit(uty)
    ensures r.x == b.x && r.y == b.y && r.width == b.x + b.w && r.height == b.y + b.h
    ensures r.doors == [] && r.key == None && r.order == Unordered
    ensures b.w >= 3 ==> b.x + 1 <= r.tx < b.x + b.w - 1
    ensures b.h >= 3 ==> b.y + 1 <= r.ty < b.y + b.h - 1
    ensures b.w >= 0 ==> b.x - 1 <= r.tx <= b.x + b.w + 1
    ensures b.h >= 0 ==> b.y - 1 <= r.ty <= b.y + b.h + 1
  {
    Record(b.x, b.y, Rand(b.x + 1, b.x + b.w - 1, utx), Rand(b.y + 1, b.y + b.h - 1, uty),
         b.x + b.w, b.y + b.h, [], None, Unordered)
  }

  /** A record as `createRoom` makes it, for a room at least two cells inside a `rows` × `cols` grid. */
  predicate FreshRoom(r: Room, rows: int, cols: int)
  {
    && r.doors == [] && r.key == None && r.order == Unordered
    && 2 <= r.x <= r.width && r.width + 2 < cols
    && 2 <= r.y <= r.height && r.height + 2 < rows
    && r.x - 1 <= r.tx <= r.width + 1 && r.y - 1 <= r.ty <= r.height + 1
  }

  lemma FreshRoomInGrid(r: Room, rows: int, cols: int)
    requires FreshRoom(r, rows, cols)
    ensures RoomInGrid(r, rows, cols)
  {
  }

  // ---------------------------------------------------------------------------
  // The placement loop

  /** One iteration after its deadline test: place the candidate if it fits. */
  function TryPlace(l: Layout, rows: int, cols: int, s: Sizes, d: RoomDraw): (r: (Layout, bool))
    requires Shaped(l, rows, cols) && RoomDrawOk(d) && SizesOk(s)
    ensures Shaped(r.0, rows, cols)
  {
    var b := Candidate(rows, cols, s, d);
    if Fits(l.grid, b) then
      (Layout(Painted(l.grid, b), RoomWalls(l.walls, b), l.rooms + [NewRoom(b, d.tx, d.ty)]), true)
    else
      (l, false)
  }

  /**
   * The rooms `createRooms` places from the state `l`, with `count` rooms
   * still to place, the clock reading `start` taken at the stage's entry, and
   * the iterations' draws `ds`. The loop stops when `count` reaches zero or
   * when a reading passes `start + count * 500`, a deadline that moves closer
   * with every room placed. Yields the final state and the rooms not placed.
   */
  function PlaceRooms(l: Layout, rows: int, cols: int, s: Sizes, start: int, count: int, ds: seq<RoomDraw>): (r: (Layout, int))
    requires Shaped(l, rows, cols) && RoomDrawsOk(ds) && SizesOk(s)
    ensures Shaped(r.0, rows, cols)
    decreases |ds|
  {
    if count <= 0 || |ds| == 0 || start + count * 500 < ds[0].now then (l, count)
    else
      var (l1, placed) := TryPlace(l, rows, cols, s, ds[0]);
      PlaceRooms(l1, rows, cols, s, start, if placed then count - 1 else count, ds[1..])
  }

  /**
   * The stage succeeds exactly when every room was placed: the number of
   * rooms left over is between zero and `count`, every placed room is
   * appended after the old ones, which stay as they were, and each new record
   * is fresh (no doors, no key, no order) and lies inside the grid.
   */
  lemma {:induction false} PlaceRoomsCount(l: Layout, rows: int, cols: int, s: Sizes, start: int, count: int, ds: seq<RoomDraw>)
    requires Shaped(l, rows, cols) && RoomDrawsOk(ds) && SizesOk(s) && 0 <= count
    ensures var (l', left) := PlaceRooms(l, rows, cols, s, start, count, ds);
      && 0 <= left <= count
      && |l'.rooms| == |l.rooms| + (count - left)
      && l'.rooms[..|l.rooms|] == l.rooms
      && forall k :: |l.rooms| <= k < |l'.rooms| ==> FreshRoom(l'.rooms[k], rows, cols)
    decreases |ds|
  {
    if count <= 0 || |ds| == 0 || start + count * 500 < ds[0].now {
    } else {
      var (l1, placed) := TryPlace(l, rows, cols, s, ds[0]);
      TryPlaceAppends(l, rows, cols, s, ds[0]);
      assert PlaceRooms(l, rows, cols, s, start, count, ds) == PlaceRooms(l1, rows, cols, s, start, if placed then count - 1 else count, ds[1..]);
      PlaceRoomsCount(l1, rows, cols, s, start, if placed then count - 1 else count, ds[1..]);
      var (l', left) := PlaceRooms(l1, rows, cols, s, start, if placed then count - 1 else count, ds[1..]);
      assert l'.rooms[..|l1.rooms|][..|l.rooms|] == l'.rooms[..|l.rooms|];
    }
  }

  /** One iteration appends the new record, fresh and inside the grid, when the candidate fits, and nothing otherwise. */
  lemma TryPlaceAppends(l: Layout, rows: int, cols: int, s: Sizes, d: RoomDraw)
    requires Shaped(l, rows, cols) && RoomDrawOk(d) && SizesOk(s)
    ensures var (l1, placed) := TryPlace(l, rows, cols, s, d);
      && |l1.rooms| == |l.rooms| + (if placed then 1 else 0)
      && l1.rooms[..|l.rooms|] == l.rooms
      && (placed ==> FreshRoom(l1.rooms[|l.rooms|], rows, cols))
  {
    var b := Candidate(rows, cols, s, d);
    if Fits(l.grid, b) {
      FitsInside(l.grid, b, rows, cols);
      assert (l.rooms + [NewRoom(b, d.tx, d.ty)])[..|l.rooms|] == l.rooms;
    }
  }

  /** How placement may change a cell: an empty tile may become a room tile; no other tile changes. */
  predicate PlacedTiles(g: Grid, g': Grid)
  {
    && |g'| == |g|
    && (forall i :: 0 <= i < |g| ==> |g'[i]| == |g[i]|)
    && forall i, j :: 0 <= i < |g| && 0 <= j < |g[i]| ==>
         g'[i][j] == g[i][j] || (g[i][j] == Empty && g'[i][j] == Room)
  }

  /** How placement may change an obstacle cell: it may only become an obstacle. */
  predicate AddedWalls(w: Walls, w': Walls)
  {
    && |w'| == |w|
    && (forall i :: 0 <= i < |w| ==> |w'[i]| == |w[i]|)
    && forall i, j :: 0 <= i < |w| && 0 <= j < |w[i]| ==> w[i][j] ==> w'[i][j]
  }

  /** Placement only paints empty cells as room and only adds obstacles. */
  lemma {:induction false} PlaceRoomsMonotone(l: Layout, rows: int, cols: int, s: Sizes, start: int, count: int, ds: seq<RoomDraw>)
    requires Shaped(l, rows, cols) && RoomDrawsOk(ds) && SizesOk(s)
    ensures PlacedTiles(l.grid, PlaceRooms(l, rows, cols, s, start, count, ds).0.grid)
    ensures AddedWalls(l.walls, PlaceRooms(l, rows, cols, s, start, count, ds).0.walls)
    decreases |ds|
  {
    if count <= 0 || |ds| == 0 || start + count * 500 < ds[0].now {
    } else {
      var (l1, placed) := TryPlace(l, rows, cols, s, ds[0]);
      var b := Candidate(rows, cols, s, ds[0]);
      if placed {
        forall i, j | 0 <= i < |l.grid| && 0 <= j < |l.grid[i]| && b.y <= i < b.y + b.h && b.x <= j < b.x + b.w
          ensures l.grid[i][j] == Empty
        {
          FitsClearsRing(l.grid, b, i, j);
        }
      }
      PlaceRoomsMonotone(l1, rows, cols, s, start, if placed then count - 1 else count, ds[1..]);
    }
  }
}
