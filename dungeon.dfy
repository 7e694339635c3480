/**
 * The generator object: its options, its observable progress flags, and the
 * three layers every stage works on in place (the tile grid, the obstacle
 * layer and the room list). Each stage is a method that changes those fields
 * and is proved against the specification of its stage; `Generate` runs one
 * attempt of the eight-stage pipeline and decides between success, a retry
 * and final failure.
 */
module Generator {
  import opened Tiles
  import opened Random
  import opened Rooms
  import opened Placement
  import opened Layers
  import opened Carving
  import opened Gating
  import opened Doubling

  /** The generator's options after merging with the defaults. */
  datatype Options = Options(sizeX: int, sizeY: int, doubled: bool, roomCount: int,
                             roomMinX: int, roomMinY: int, roomMaxX: int, roomMaxY: int,
                             keys: nat, restartTimer: int, tries: int)

  function SizesOf(o: Options): Sizes
  {
    Sizes(o.roomMinX, o.roomMinY, o.roomMaxX, o.roomMaxY)
  }

  function Max(a: int, b: int): int
  {
    if a < b then b else a
  }

  /**
   * Options the stages can run on without reading past the arrays: room
   * sizes and the width are non-negative; there are enough rows that the fit
   * test never reads a row outside the grid, whatever height is drawn; and
   * there are either at least two rooms to hold start and end, or a negative
   * count, with which `createRooms` fails every attempt.
   */
  predicate ValidOptions(o: Options)
  {
    && SizesOk(SizesOf(o))
    && o.sizeY >= (if o.roomMinY < o.roomMaxY then o.roomMaxY + 4 else o.roomMinY + 5)
    && o.sizeX >= 0
    && (o.roomCount >= 2 || o.roomCount < 0)
  }

  /** The clock readings `now` finds in the draws `ds` end past `deadline`: a loop polling that clock stops by its last draw. */
  predicate ClockEnds<D>(ds: seq<D>, now: D -> int, deadline: int)
  {
    |ds| > 0 && deadline < now(ds[|ds| - 1])
  }

  /**
   * What one attempt reads from the clock and from `Math.random()`: the
   * readings at the start of `generate` and at its end, those of the two
   * stages with deadlines, and the random values of every stage that draws.
   */
  datatype AttemptInput = AttemptInput(
    startedAt: int, finishedAt: int,
    roomStart: int, roomDraws: seq<RoomDraw>,
    wallDraws: seq<CellDraw>,
    keyStart: int, firstKey: real, keyDraws: seq<KeyDraw>)

  /** The supply of readings and random values is long enough for every loop of the attempt. */
  predicate InputOk(o: Options, a: AttemptInput)
  {
    && RoomDrawsOk(a.roomDraws) && ClockEnds(a.roomDraws, (d: RoomDraw) => d.now, a.roomStart + o.roomCount * 500)
    && CellDrawsOk(a.wallDraws) && |a.wallDraws| >= o.roomCount
    && KeyDrawFor(o.roomCount, a.firstKey) && KeyDrawsOk(o.roomCount, a.keyDraws)
    && ClockEnds(a.keyDraws, (d: KeyDraw) => d.now, a.keyStart + o.keys * 500)
  }

  /** The fields besides the three layers: options, saved tries, start time and the observable flags. */
  datatype Progress = Progress(opt: Options, savedTries: int, started: int, percent: real, time: int,
                               done: bool, working: bool, cancelled: bool)

  /** How an attempt ends: done, retry scheduled, or given up. */
  datatype Outcome = Succeeded | Retry | Failed

  class Dungeon {
    var opt: Options
    /** The try budget saved by a fresh call and restored when generation ends. */
    var savedTries: int
    var started: int
    var percent: real
    var time: int
    var done: bool
    var working: bool
    var cancelled: bool
    var grid: Grid
    var walls: Walls
    var rooms: seq<Room>

    function Current(): Layout
      reads this
    {
      Layout(grid, walls, rooms)
    }

    function ProgressOf(): Progress
      reads this
    {
      Progress(opt, savedTries, started, percent, time, done, working, cancelled)
    }

    /** A new generator: nothing generated, no flag set. */
    constructor (o: Options)
      ensures opt == o && percent == 0.0 && time == 0
      ensures !done && !working && !cancelled
      ensures grid == [] && walls == [] && rooms == []
    {
      opt := o;
      savedTries := 0;
      started := 0;
      percent := 0.0;
      time := 0;
      done := false;
      working := false;
      cancelled := false;
      grid := [];
      walls := [];
      rooms := [];
    }

    /** `cancel`: raises the cancelled flag and changes nothing else. */
    method Cancel()
      modifies this
      ensures cancelled && Current() == old(Current())
      ensures ProgressOf() == old(ProgressOf()).(cancelled := true)
    {
      cancelled := true;
    }

    // -------------------------------------------------------------------------
    // createGrid

    /**
     * `createGrid`: fresh layers of `sizeY` rows and `sizeX` columns, every
     * tile empty, an obstacle exactly on the source's border test, and no
     * rooms. The right-hand column is never an obstacle below the top row and
     * above the bottom one.
     */
    method CreateGrid() returns (ok: bool)
      requires 0 <= opt.sizeY && 0 <= opt.sizeX
      modifies this
      ensures ok && rooms == [] && ProgressOf() == old(ProgressOf())
      ensures Shaped(Current(), opt.sizeY, opt.sizeX)
      ensures forall i, j :: 0 <= i < opt.sizeY && 0 <= j < opt.sizeX ==>
                grid[i][j] == Empty && (walls[i][j] <==> Border(i, j, opt.sizeY, opt.sizeX))
      ensures forall i :: 0 < i < opt.sizeY - 1 && opt.sizeX >= 2 ==> !walls[i][opt.sizeX - 1]
    {
      var rows, cols := opt.sizeY, opt.sizeX;
      var g: Grid := [];
      var wl: Walls := [];
      rooms := [];
      for i := 0 to rows
        invariant IsRect(g, i, cols) && IsRect(wl, i, cols)
        invariant forall r, c :: 0 <= r < i && 0 <= c < cols ==> g[r][c] == Empty && (wl[r][c] <==> Border(r, c, rows, cols))
      {
        var row: seq<Tile> := [];
        var wrow: seq<bool> := [];
        for j := 0 to cols
          invariant |row| == j && |wrow| == j
          invariant forall c :: 0 <= c < j ==> row[c] == Empty && (wrow[c] <==> Border(i, c, rows, cols))
        {
          row := row + [Empty];
          wrow := wrow + [i == 0 || j == 0 || i == rows - 1 || j == cols];
        }
        g := g + [row];
        wl := wl + [wrow];
      }
      grid, walls := g, wl;
      ok := true;
    }

    // -------------------------------------------------------------------------
    // createRooms and createRoom

    /** The fit test of `createRooms`: every cell of the inclusive box is clear around. */
    method FitTest(b: Box) returns (found: bool)
      ensures found == Fits(grid, b)
    {
      found := true;
      var i := b.y;
      while i < b.y + b.h + 1
        invariant b.y <= i <= Max(b.y, b.y + b.h + 1)
        invariant found == RowsClear(grid, b, b.y, i)
      {
        var j := b.x;
        while j < b.x + b.w + 1
          invariant b.x <= j <= Max(b.x, b.x + b.w + 1)
          invariant found == (RowsClear(grid, b, b.y, i) && forall jj :: b.x <= jj < j ==> ClearAround(grid, i, jj))
        {
          if !ClearAround(grid, i, j) {
            found := false;
          }
          j := j + 1;
        }
        assert (RowsClear(grid, b, b.y, i) && forall jj :: b.x <= jj < j ==> ClearAround(grid, i, jj))
               == RowsClear(grid, b, b.y, i + 1);
        i := i + 1;
      }
    }

    /** The painting loop of `createRooms`: exactly the cells of the rectangle become room tiles. */
    method PaintRoom(b: Box)
      requires IsRect(grid, opt.sizeY, opt.sizeX)
      requires 0 <= b.w && 0 <= b.h && 0 <= b.x && b.x + b.w <= opt.sizeX && 0 <= b.y && b.y + b.h <= opt.sizeY
      modifies this
      ensures grid == Painted(old(grid), b)
      ensures walls == old(walls) && rooms == old(rooms) && ProgressOf() == old(ProgressOf())
    {
      var rows, cols := opt.sizeY, opt.sizeX;
      var g := grid;
      for i := b.y to b.y + b.h
        invariant IsRect(g, rows, cols)
        invariant forall r, c :: 0 <= r < rows && 0 <= c < cols ==>
                    g[r][c] == if b.y <= r < i && b.x <= c < b.x + b.w then Room else grid[r][c]
      {
        for j := b.x to b.x + b.w
          invariant IsRect(g, rows, cols)
          invariant forall r, c :: 0 <= r < rows && 0 <= c < cols ==>
                      g[r][c] == if (b.y <= r < i && b.x <= c < b.x + b.w) || (r == i && b.x <= c < j) then Room else grid[r][c]
        {
          g := Set(g, Coord(j, i), Room);
        }
      }
      SameCells(g, Painted(grid, b));
      grid := g;
    }

    /**
     * `createRoom`: marks the sixteen corner cells and the even cells of the
     * ring around the rectangle as obstacles, changes no tile, and appends the
     * room's record.
     */
    method CreateRoom(b: Box, utx: real, uty: real)
      requires IsUnit(utx) && IsUnit(uty) && IsRect(walls, opt.sizeY, opt.sizeX)
      requires 0 <= b.w && 0 <= b.h && 1 <= b.x && b.x + b.w < opt.sizeX && 1 <= b.y && b.y + b.h < opt.sizeY
      modifies this
      ensures walls == RoomWalls(old(walls), b)
      ensures rooms == old(rooms) + [NewRoom(b, utx, uty)]
      ensures grid == old(grid) && ProgressOf() == old(ProgressOf())
    {
      var rows, cols := opt.sizeY, opt.sizeX;
      var x, y, width, height := b.x, b.y, b.w, b.h;
      var wl := Corners(walls, rows, cols, b);
      wl := SideRing(wl, rows, cols, b);
      wl := EndRing(wl, rows, cols, b);
      SameCells(wl, RoomWalls(walls, b));
      walls := wl;
      var tx := Rand(x + 1, x + width - 1, utx);
      var ty := Rand(y + 1, y + height - 1, uty);
      rooms := rooms + [Record(x, y, tx, ty, x + width, y + height, [], None, Unordered)];
    }

    /** The first ring loop of `createRoom`: the even rows of the columns left and right of the room. */
    static method SideRing(wl: Walls, rows: int, cols: int, b: Box) returns (out: Walls)
      requires IsRect(wl, rows, cols)
      requires 0 <= b.w && 0 <= b.h && 1 <= b.x && b.x + b.w < cols && 1 <= b.y && b.y + b.h < rows
      ensures IsRect(out, rows, cols)
      ensures forall r, c :: 0 <= r < rows && 0 <= c < cols ==>
                out[r][c] == (wl[r][c] || (b.y - 1 <= r < b.y + b.h + 1 && r % 2 == 0 && (c == b.x - 1 || c == b.x + b.w)))
    {
      out := wl;
      for i := b.y - 1 to b.y + b.h + 1
        invariant IsRect(out, rows, cols)
        invariant forall r, c :: 0 <= r < rows && 0 <= c < cols ==>
                    out[r][c] == (wl[r][c] || (b.y - 1 <= r < i && r % 2 == 0 && (c == b.x - 1 || c == b.x + b.w)))
      {
        if i % 2 == 0 {
          out := Set(out, Coord(b.x - 1, i), true);
          out := Set(out, Coord(b.x + b.w, i), true);
        }
      }
    }

    /** The second ring loop of `createRoom`: the even columns of the rows above and below the room. */
    static method EndRing(wl: Walls, rows: int, cols: int, b: Box) returns (out: Walls)
      requires IsRect(wl, rows, cols)
      requires 0 <= b.w && 0 <= b.h && 1 <= b.x && b.x + b.w < cols && 1 <= b.y && b.y + b.h < rows
      ensures IsRect(out, rows, cols)
      ensures forall r, c :: 0 <= r < rows && 0 <= c < cols ==>
                out[r][c] == (wl[r][c] || (b.x - 1 <= c < b.x + b.w + 1 && c % 2 == 0 && (r == b.y - 1 || r == b.y + b.h)))
    {
      out := wl;
      for j := b.x - 1 to b.x + b.w + 1
        invariant IsRect(out, rows, cols)
        invariant forall r, c :: 0 <= r < rows && 0 <= c < cols ==>
                    out[r][c] == (wl[r][c] || (b.x - 1 <= c < j && c % 2 == 0 && (r == b.y - 1 || r == b.y + b.h)))
      {
        if j % 2 == 0 {
          out := Set(out, Coord(j, b.y - 1), true);
          out := Set(out, Coord(j, b.y + b.h), true);
        }
      }
    }

    /** The sixteen corner writes of `createRoom`, four corners of four cells each. */
    static method Corners(wl: Walls, rows: int, cols: int, b: Box) returns (out: Walls)
      requires IsRect(wl, rows, cols)
      requires 0 <= b.w && 0 <= b.h && 1 <= b.x && b.x + b.w < cols && 1 <= b.y && b.y + b.h < rows
      ensures IsRect(out, rows, cols)
      ensures forall r, c :: 0 <= r < rows && 0 <= c < cols ==> out[r][c] == (wl[r][c] || IsCornerCell(r, c, b))
    {
      var x, y, width, height := b.x, b.y, b.w, b.h;
      var w1 := MarkFour(wl, rows, cols, Coord(x, y), Coord(x - 1, y), Coord(x, y - 1), Coord(x - 1, y - 1));
      var w2 := MarkFour(w1, rows, cols, Coord(x + width, y), Coord(x + width - 1, y), Coord(x + width, y - 1), Coord(x + width - 1, y - 1));
      var w3 := MarkFour(w2, rows, cols, Coord(x + width, y + height), Coord(x + width - 1, y + height),
                         Coord(x + width - 1, y + height - 1), Coord(x + width, y + height - 1));
      out := MarkFour(w3, rows, cols, Coord(x, y + height - 1), Coord(x - 1, y + height - 1), Coord(x - 1, y + height), Coord(x, y + height));
    }

    /** Four obstacle writes, in order. */
    static method MarkFour(wl: Walls, rows: int, cols: int, p: Coord, q: Coord, s: Coord, t: Coord) returns (out: Walls)
      requires IsRect(wl, rows, cols) && InBounds(p, rows, cols) && InBounds(q, rows, cols)
      requires InBounds(s, rows, cols) && InBounds(t, rows, cols)
      ensures IsRect(out, rows, cols)
      ensures forall r, c :: 0 <= r < rows && 0 <= c < cols ==>
                out[r][c] == (wl[r][c] || (r == p.y && c == p.x) || (r == q.y && c == q.x) || (r == s.y && c == s.x) || (r == t.y && c == t.x))
    {
      out := Set(wl, p, true);
      out := Set(out, q, true);
      out := Set(out, s, true);
      out := Set(out, t, true);
    }

    /**
     * `createRooms`: runs the placement loop on the draws `ds`, polling the
     * clock against `start` plus 500 for every room still to place. The new
     * state is the one the placement specification yields, and the stage
     * succeeds exactly when no room is left over.
     */
    method CreateRooms(start: int, ds: seq<RoomDraw>) returns (ok: bool)
      requires SizesOk(SizesOf(opt)) && 0 < opt.sizeY && Shaped(Current(), opt.sizeY, opt.sizeX)
      requires RoomDrawsOk(ds) && ClockEnds(ds, (d: RoomDraw) => d.now, start + opt.roomCount * 500)
      modifies this
      ensures ProgressOf() == old(ProgressOf())
      ensures Current() == PlaceRooms(old(Current()), opt.sizeY, opt.sizeX, SizesOf(opt), start, opt.roomCount, ds).0
      ensures ok <==> PlaceRooms(old(Current()), opt.sizeY, opt.sizeX, SizesOf(opt), start, opt.roomCount, ds).1 == 0
    {
      var rows, cols, s := opt.sizeY, opt.sizeX, SizesOf(opt);
      ghost var spec := PlaceRooms(Current(), rows, cols, s, start, opt.roomCount, ds);
      var count := opt.roomCount;
      var k := 0;
      while count > 0
        invariant 0 <= k < |ds| && count <= opt.roomCount
        invariant Shaped(Current(), rows, cols) && ProgressOf() == old(ProgressOf())
        invariant PlaceRooms(Current(), rows, cols, s, start, count, ds[k..]) == spec
        decreases |ds| - k
      {
        if start + count * 500 < ds[k].now {
          break;
        }
        assert k + 1 < |ds|;
        assert RoomDrawOk(ds[k]) && ds[k..][0] == ds[k];
        var placed := TryRoom(ds[k]);
        if placed {
          count := count - 1;
        }
        assert ds[k..][1..] == ds[k + 1..];
        k := k + 1;
      }
      ok := count == 0;
    }

    /** One iteration of `createRooms` past its deadline test: draw a candidate, test it, place it if it fits. */
    method TryRoom(d: RoomDraw) returns (placed: bool)
      requires Shaped(Current(), opt.sizeY, opt.sizeX) && 0 < opt.sizeY && RoomDrawOk(d) && SizesOk(SizesOf(opt))
      modifies this
      ensures ProgressOf() == old(ProgressOf())
      ensures (Current(), placed) == TryPlace(old(Current()), opt.sizeY, opt.sizeX, SizesOf(opt), d)
    {
      var rows, cols, s := opt.sizeY, opt.sizeX, SizesOf(opt);
      var width := Rand(s.minX, s.maxX, d.w);
      var height := Rand(s.minY, s.maxY, d.h);
      var x := Rand(2, |grid[0]| - 2 - width, d.x);
      var y := Rand(2, |grid| - 2 - height, d.y);
      var b := Box(x, y, width, height);
      assert b == Candidate(rows, cols, s, d);
      placed := FitTest(b);
      if placed {
        FitsInside(grid, b, rows, cols);
        PaintRoom(b);
        CreateRoom(b, d.tx, d.ty);
      }
    }

    // -------------------------------------------------------------------------
    // addDoorToRoomAt and placeRandomWalls

    /** `addDoorToRoomAt`: every room whose box (borders included) holds `c` records a door at `c`. */
    method AddDoorToRoomAt(c: Coord)
      modifies this
      ensures ProgressOf() == old(ProgressOf())
      ensures rooms == WithDoor(old(rooms), c)
      ensures grid == old(grid) && walls == old(walls)
    {
      var rs := rooms;
      for k := 0 to |rs|
        invariant |rs| == |rooms|
        invariant forall m :: 0 <= m < |rs| ==> rs[m] == if m < k then WithDoor(rooms, c)[m] else rooms[m]
      {
        var room := rs[k];
        if c.x >= room.x && c.x <= room.width && c.y >= room.y && c.y <= room.height {
          rs := rs[k := room.(doors := room.doors + [c])];
        }
      }
      rooms := rs;
    }

    /**
     * `placeRandomWalls`: `roomCount` draws, each marking one cell off the
     * first row and column as an obstacle. Tiles and rooms are untouched.
     */
    method PlaceRandomWalls(ds: seq<CellDraw>) returns (ok: bool)
      requires Shaped(Current(), opt.sizeY, opt.sizeX) && opt.sizeY >= 2 && opt.sizeX >= 2
      requires CellDrawsOk(ds) && opt.roomCount <= |ds|
      modifies this
      ensures ProgressOf() == old(ProgressOf())
      ensures ok && grid == old(grid) && rooms == old(rooms)
      ensures walls == ScatterWalls(old(walls), opt.sizeY, opt.sizeX, ds, opt.roomCount)
    {
      var rows, cols := opt.sizeY, opt.sizeX;
      ghost var spec := ScatterWalls(walls, rows, cols, ds, opt.roomCount);
      var count := opt.roomCount;
      var k := 0;
      while count > 0
        invariant 0 <= k <= |ds| && count == opt.roomCount - k
        invariant IsRect(walls, rows, cols) && grid == old(grid) && rooms == old(rooms) && ProgressOf() == old(ProgressOf())
        invariant ScatterWalls(walls, rows, cols, ds[k..], count) == spec
      {
        var d := ds[k];
        var x := Rand(1, |grid[0]| - 1, d.x);
        var y := Rand(1, |grid| - 1, d.y);
        assert Coord(x, y) == DrawnCell(rows, cols, ds[k..][0]);
        walls := Set(walls, Coord(x, y), true);
        count := count - 1;
        assert ds[k..][1..] == ds[k + 1..];
        k := k + 1;
      }
      ok := true;
    }

    // -------------------------------------------------------------------------
    // createHallsAndDoors

    /** One cell of a path walk: the branches of `createHallsAndDoors` for path cell `n`. */
    method CarveCell(p: seq<Coord>, n: nat)
      requires Shaped(Current(), opt.sizeY, opt.sizeX) && PathInGrid(p, opt.sizeY, opt.sizeX) && n < |p|
      modifies this
      ensures ProgressOf() == old(ProgressOf())
      ensures Current() == Step(old(Current()), opt.sizeY, opt.sizeX, p, n)
    {
      var c := p[n];
      if grid[c.y][c.x] == Empty {
        grid := Set(grid, c, Hall);
        if n + 1 < |p| {
          var c1 := p[n + 1];
          if grid[c1.y][c1.x] == Room {
            grid := Set(grid, c1, Door);
            AddDoorToRoomAt(c1);
          }
        }
      } else if grid[c.y][c.x] == Room {
        if n + 1 < |p| {
          var c1 := p[n + 1];
          if grid[c1.y][c1.x] == Empty {
            grid := Set(grid, c, Door);
            AddDoorToRoomAt(c);
          }
        }
      }
    }

    /**
     * `createHallsAndDoors`: links every room to the next one (the last to
     * the first) along the pathfinder's path, carving halls and doors; fails
     * at the first link without a path. The result is the carving
     * specification's.
     */
    method CreateHallsAndDoors(pf: Pathfinder) returns (ok: bool)
      requires Shaped(Current(), opt.sizeY, opt.sizeX) && PathsInGrid(pf, opt.sizeY, opt.sizeX) && DoorsRecorded(Current())
      modifies this
      ensures ProgressOf() == old(ProgressOf())
      ensures (Current(), ok) == Carve(old(Current()), opt.sizeY, opt.sizeX, pf, 0)
      ensures DoorsRecorded(Current())
    {
      var rows, cols := opt.sizeY, opt.sizeX;
      CarveRecords(Current(), rows, cols, pf, 0);
      ghost var spec := Carve(Current(), rows, cols, pf, 0);
      var n := |rooms|;
      for i := 0 to n
        invariant |rooms| == n && Shaped(Current(), rows, cols) && ProgressOf() == old(ProgressOf())
        invariant Carve(Current(), rows, cols, pf, i) == spec
      {
        var room1 := rooms[i];
        var room2 := if i + 1 < |rooms| then rooms[i + 1] else rooms[0];
        var result := pf(walls, Centre(room1), Centre(room2));
        assert result == PathOf(Current(), pf, i);
        if |result| == 0 {
          return false;
        }
        ghost var entry := Current();
        assert PathInGrid(result, rows, cols);
        for m := 1 to |result|
          invariant |rooms| == n && Shaped(Current(), rows, cols) && ProgressOf() == old(ProgressOf())
          invariant Walk(Current(), rows, cols, result, m) == Walk(entry, rows, cols, result, 1)
        {
          CarveCell(result, m);
        }
      }
      ok := true;
    }

    // -------------------------------------------------------------------------
    // fixWalls and setStartAndEnd

    /** `fixWalls`: rebuilds the obstacle layer from the tiles, an obstacle exactly on every empty tile. */
    method FixWalls() returns (ok: bool)
      requires Shaped(Current(), opt.sizeY, opt.sizeX)
      modifies this
      ensures ProgressOf() == old(ProgressOf())
      ensures ok && grid == old(grid) && rooms == old(rooms) && Shaped(Current(), opt.sizeY, opt.sizeX)
      ensures forall i, j :: 0 <= i < opt.sizeY && 0 <= j < opt.sizeX ==> (walls[i][j] <==> grid[i][j] == Empty)
    {
      var rows, cols := opt.sizeY, opt.sizeX;
      var wl: Walls := [];
      for i := 0 to |grid|
        invariant IsRect(wl, i, cols)
        invariant forall r, c :: 0 <= r < i && 0 <= c < cols ==> (wl[r][c] <==> grid[r][c] == Empty)
      {
        var row: seq<bool> := [];
        for j := 0 to |grid[0]|
          invariant |row| == j
          invariant forall c :: 0 <= c < j ==> (row[c] <==> grid[i][c] == Empty)
        {
          row := row + [grid[i][j] == Empty];
        }
        wl := wl + [row];
      }
      walls := wl;
      ok := true;
    }

    /**
     * `setStartAndEnd`: sorts the rooms by their number of doors (in some
     * order among ties) and marks the centre of the first room as the start
     * and that of the second as the end; no other tile changes.
     */
    method SetStartAndEnd() returns (ok: bool)
      requires Shaped(Current(), opt.sizeY, opt.sizeX) && RoomsInGrid(rooms, opt.sizeY, opt.sizeX) && |rooms| >= 2
      modifies this
      ensures ProgressOf() == old(ProgressOf())
      ensures ok && walls == old(walls)
      ensures multiset(rooms) == multiset(old(rooms)) && SortedBy(rooms, DoorCount) && |rooms| == |old(rooms)|
      ensures Shaped(Current(), opt.sizeY, opt.sizeX) && RoomsInGrid(rooms, opt.sizeY, opt.sizeX)
      ensures NoKeys(old(rooms)) ==> NoKeys(rooms)
      ensures forall k :: 0 <= k < |rooms| ==> |rooms[0].doors| <= |rooms[k].doors|
      ensures grid[rooms[1].ty][rooms[1].tx] == End
      ensures Centre(rooms[0]) != Centre(rooms[1]) ==> grid[rooms[0].ty][rooms[0].tx] == Start
      ensures forall i, j :: 0 <= i < opt.sizeY && 0 <= j < opt.sizeX && Coord(j, i) != Centre(rooms[0]) && Coord(j, i) != Centre(rooms[1]) ==>
                grid[i][j] == old(grid)[i][j]
    {
      var rows, cols := opt.sizeY, opt.sizeX;
      var sorted := SortBy(rooms, DoorCount);
      PermutationInGrid(rooms, sorted, rows, cols);
      if NoKeys(rooms) {
        PermutationNoKeys(rooms, sorted);
      }
      assert |sorted| == |multiset(sorted)| == |multiset(rooms)| == |rooms|;
      assert RoomInGrid(sorted[0], rows, cols) && RoomInGrid(sorted[1], rows, cols);
      rooms := sorted;
      grid := Set(grid, Centre(rooms[0]), Start);
      grid := Set(grid, Centre(rooms[1]), End);
      ok := true;
    }

    // -------------------------------------------------------------------------
    // createPaths and checkPaths

    /** The door loops of `createPaths`: each listed cell becomes a door of gate `gate` and an obstacle. */
    method LockDoors(doors: seq<Coord>, gate: nat)
      requires Shaped(Current(), opt.sizeY, opt.sizeX)
      requires forall d :: 0 <= d < |doors| ==> InBounds(doors[d], opt.sizeY, opt.sizeX)
      modifies this
      ensures ProgressOf() == old(ProgressOf())
      ensures Current() == Locked(old(Current()), doors, gate)
    {
      var rows, cols := opt.sizeY, opt.sizeX;
      var g, wl := grid, walls;
      for d := 0 to |doors|
        invariant IsRect(g, rows, cols) && IsRect(wl, rows, cols)
        invariant forall i, j :: 0 <= i < rows && 0 <= j < cols ==>
                    g[i][j] == (if Coord(j, i) in doors[..d] then DoorN(gate) else grid[i][j]) &&
                    wl[i][j] == (Coord(j, i) in doors[..d] || walls[i][j])
      {
        g := Set(g, doors[d], DoorN(gate));
        wl := Set(wl, doors[d], true);
        assert doors[..d + 1] == doors[..d] + [doors[d]];
      }
      assert doors[..|doors|] == doors;
      SameCells(g, Locked(Current(), doors, gate).grid);
      SameCells(wl, Locked(Current(), doors, gate).walls);
      grid, walls := g, wl;
    }

    /** The room at index `k` takes the key of gate `gate`: its record and the key tile at its centre. */
    method GiveKeyTo(k: int, gate: nat)
      requires 0 <= k < |rooms| && Within(grid, Centre(rooms[k]))
      modifies this
      ensures ProgressOf() == old(ProgressOf())
      ensures Current() == GiveKey(old(Current()), k, gate)
    {
      var room := rooms[k];
      rooms := rooms[k := room.(key := Some(gate), order := gate + 1)];
      grid := Set(grid, Centre(room), KeyN(gate));
    }

    /**
     * `createPaths`: without keys, succeeds and changes nothing. Otherwise
     * it ranks the start and end rooms, places the keys as the gating
     * specification does under the deadline `keyStart + keys * 500`, and, if
     * every key found a room, runs the check. A successful placement leaves a
     * valid key chain, and the stage then succeeds exactly when the check
     * finds every pair of the sorted chain connected.
     */
    method CreatePaths(keyStart: int, u0: real, ds: seq<KeyDraw>, pf: Pathfinder) returns (ok: bool)
      requires Shaped(Current(), opt.sizeY, opt.sizeX) && RoomsInGrid(rooms, opt.sizeY, opt.sizeX) && NoKeys(rooms)
      requires |rooms| >= 2
      requires KeyDrawFor(|rooms|, u0) && KeyDrawsOk(|rooms|, ds) && ClockEnds(ds, (d: KeyDraw) => d.now, keyStart + opt.keys * 500)
      modifies this
      ensures ProgressOf() == old(ProgressOf())
      ensures opt.keys == 0 ==> ok && Current() == old(Current())
      ensures opt.keys > 0 ==>
                var placed := PlaceAllKeys(old(Current()), opt.sizeY, opt.sizeX, opt.keys, u0, keyStart + opt.keys * 500, ds);
                && (!placed.1 ==> !ok && Current() == placed.0)
                && (|rooms| == 2 ==> (placed.1 <==> opt.keys == 1))
                && (placed.1 ==>
                      && (|rooms| >= 3 ==> KeyChain(placed.0, opt.keys)) && grid == placed.0.grid
                      && multiset(rooms) == multiset(placed.0.rooms) && SortedBy(rooms, OrderDesc)
                      && (walls, ok) == CheckFrom(placed.0.walls, rooms, pf, 0, false, false)
                      && (ok <==> forall j :: 0 <= j && j + 1 < |rooms| && rooms[j].order != Unordered ==>
                                    PairConnected(placed.0.walls, rooms, pf, j)))
    {
      var keys := opt.keys;
      if keys == 0 {
        return true;
      }
      var deadline := keyStart + keys * 500;
      PlaceAllKeysChain(Current(), opt.sizeY, opt.sizeX, keys, u0, deadline, ds);
      var last := PlaceFirstKey(u0);
      var placed := PlaceMoreKeys(last, deadline, ds);
      if !placed {
        return false;
      }
      ok := CheckPaths(pf);
    }

    /** The start of `createPaths` with keys: start and end room orders, then key 0. Yields the key room's index. */
    method PlaceFirstKey(u0: real) returns (last: int)
      requires GateReady(Current(), opt.sizeY, opt.sizeX) && KeyDrawFor(|rooms|, u0)
      modifies this
      ensures ProgressOf() == old(ProgressOf())
      ensures (Current(), last) == FirstKey(old(Current()).(rooms := Ranked(old(rooms))), opt.sizeY, opt.sizeX, u0)
    {
      var rows, cols := opt.sizeY, opt.sizeX;
      rooms := rooms[0 := rooms[0].(order := 99)];
      rooms := rooms[1 := rooms[1].(order := 0)];
      assert RoomInGrid(rooms[1], rows, cols);
      LockDoors(rooms[1].doors, 0);
      last := Rand(2, |rooms| - 1, u0);
      assert last == KeyIndex(|rooms|, u0);
      assert RoomInGrid(rooms[last], rows, cols);
      GiveKeyTo(last, 0);
    }

    /**
     * The key loop of `createPaths` for keys 1 up to `keys - 1`, following
     * the key room `last`: fails when a clock reading passes `deadline`.
     */
    method PlaceMoreKeys(last0: int, deadline: int, ds: seq<KeyDraw>) returns (placed: bool)
      requires GateReady(Current(), opt.sizeY, opt.sizeX) && 0 <= last0 < |rooms|
      requires KeyDrawsOk(|rooms|, ds) && ClockEnds(ds, (d: KeyDraw) => d.now, deadline)
      modifies this
      ensures ProgressOf() == old(ProgressOf())
      ensures (Current(), placed) == PlaceKeys(old(Current()), opt.sizeY, opt.sizeX, 1, opt.keys, last0, deadline, ds)
    {
      var rows, cols, keys := opt.sizeY, opt.sizeX, opt.keys;
      ghost var spec := PlaceKeys(Current(), rows, cols, 1, keys, last0, deadline, ds);
      var last := last0;
      var gate := 1;
      var k := 0;
      while gate < keys
        invariant 0 <= k < |ds| && 0 <= last < |rooms| && |rooms| == |old(rooms)|
        invariant GateReady(Current(), rows, cols) && ProgressOf() == old(ProgressOf())
        invariant PlaceKeys(Current(), rows, cols, gate, keys, last, deadline, ds[k..]) == spec
        decreases |ds| - k
      {
        assert ds[k..][0] == ds[k];
        if deadline < ds[k].now {
          return false;
        }
        assert ds[k..][1..] == ds[k + 1..];
        ghost var before := Current();
        var index, accepted := TryKey(ds[k].u, last, gate);
        if accepted {
          assert spec == PlaceKeys(Current(), rows, cols, gate + 1, keys, index, deadline, ds[k + 1..]);
          last := index;
          gate := gate + 1;
        } else {
          assert spec == PlaceKeys(before, rows, cols, gate, keys, last, deadline, ds[k + 1..]);
        }
        k := k + 1;
      }
      placed := true;
    }

    /**
     * One draw of the key loop of `createPaths`: the drawn room takes the key
     * of gate `gate` when its centre is still a plain room tile, and then the
     * doors of the previous key room `last` become doors of that gate.
     */
    method TryKey(u: real, last: int, gate: nat) returns (index: int, accepted: bool)
      requires GateReady(Current(), opt.sizeY, opt.sizeX) && 0 <= last < |rooms| && KeyDrawFor(|rooms|, u)
      modifies this
      ensures ProgressOf() == old(ProgressOf())
      ensures index == KeyIndex(|old(rooms)|, u)
      ensures accepted == (old(grid)[old(rooms)[index].ty][old(rooms)[index].tx] == Room)
      ensures Current() == if accepted then Accept(old(Current()), opt.sizeY, opt.sizeX, index, last, gate) else old(Current())
    {
      var rows, cols := opt.sizeY, opt.sizeX;
      index := Rand(2, |rooms| - 1, u);
      assert index == KeyIndex(|rooms|, u);
      var room := rooms[index];
      assert RoomInGrid(room, rows, cols);
      accepted := grid[room.ty][room.tx] == Room;
      if accepted {
        GiveKeyTo(index, gate);
        assert RoomInGrid(rooms[last], rows, cols);
        LockDoors(rooms[last].doors, gate);
      }
    }

    /** The door loop of `checkPaths`: every listed cell stops being an obstacle. */
    method UnlockDoors(doors: seq<Coord>)
      requires IsRect(walls, opt.sizeY, opt.sizeX)
      requires forall d :: 0 <= d < |doors| ==> InBounds(doors[d], opt.sizeY, opt.sizeX)
      modifies this
      ensures ProgressOf() == old(ProgressOf())
      ensures walls == Unlocked(old(walls), doors) && grid == old(grid) && rooms == old(rooms)
    {
      var rows, cols := opt.sizeY, opt.sizeX;
      var wl := walls;
      for d := 0 to |doors|
        invariant IsRect(wl, rows, cols)
        invariant forall i, j :: 0 <= i < rows && 0 <= j < cols ==> wl[i][j] == (Coord(j, i) !in doors[..d] && walls[i][j])
      {
        wl := Set(wl, doors[d], false);
        assert doors[..d + 1] == doors[..d] + [doors[d]];
      }
      assert doors[..|doors|] == doors;
      SameCells(wl, Unlocked(walls, doors));
      walls := wl;
    }

    /**
     * `checkPaths`: sorts the rooms by descending order (ties in some order)
     * and walks the chain from the start room: a pair without a path fails
     * the check, a connected pair opens the doors of the room after next.
     * The check succeeds exactly when every tested pair is connected under
     * the doors opened so far, and then every gate it reached is open.
     */
    method CheckPaths(pf: Pathfinder) returns (ok: bool)
      requires Shaped(Current(), opt.sizeY, opt.sizeX) && RoomsInGrid(rooms, opt.sizeY, opt.sizeX)
      modifies this
      ensures ProgressOf() == old(ProgressOf())
      ensures grid == old(grid) && multiset(rooms) == multiset(old(rooms)) && SortedBy(rooms, OrderDesc)
      ensures (walls, ok) == CheckFrom(old(walls), rooms, pf, 0, false, false)
      ensures ok <==> forall j :: 0 <= j && j + 1 < |rooms| && rooms[j].order != Unordered ==> PairConnected(old(walls), rooms, pf, j)
      ensures ok ==> walls == WallsAt(old(walls), rooms, |rooms|)
    {
      var rows, cols := opt.sizeY, opt.sizeX;
      var sorted := SortBy(rooms, OrderDesc);
      PermutationInGrid(rooms, sorted, rows, cols);
      rooms := sorted;
      ghost var spec := CheckFrom(walls, rooms, pf, 0, false, false);
      CheckFromIff(walls, rooms, pf, 0);
      var stop, finish := false, false;
      for i := 0 to |rooms|
        invariant rooms == sorted && grid == old(grid) && IsRect(walls, rows, cols) && ProgressOf() == old(ProgressOf())
        invariant CheckFrom(walls, rooms, pf, i, stop, finish) == spec
      {
        var room := rooms[i];
        if stop || finish || room.order == Unordered {
          continue;
        }
        if i + 1 >= |rooms| {
          finish := true;
          continue;
        }
        if |pf(walls, Centre(room), Centre(rooms[i + 1]))| == 0 {
          stop := true;
          continue;
        }
        if i + 2 < |rooms| {
          assert RoomInGrid(rooms[i + 2], rows, cols);
          UnlockDoors(rooms[i + 2].doors);
        }
      }
      ok := !stop;
    }

    // -------------------------------------------------------------------------
    // cleanUp

    /**
     * `cleanUp`: nothing to do unless the grid is doubled. A doubled grid
     * is refused exactly when two halls touch only at a corner; otherwise
     * every tile becomes a 2×2 block and the window pass shrinks keys, doors,
     * start and end back to single cells. The pass only ever turns a tile
     * into a room tile, or a hall into a door tile.
     */
    method CleanUp() returns (ok: bool)
      requires IsRect(grid, opt.sizeY, opt.sizeX) && opt.sizeY >= 0 && opt.sizeX >= 0
      modifies this
      ensures ProgressOf() == old(ProgressOf()) && walls == old(walls) && rooms == old(rooms)
      ensures !opt.doubled ==> ok && grid == old(grid)
      ensures opt.doubled ==> (ok <==> !HasChecker(old(grid)))
      ensures opt.doubled && !ok ==> grid == old(grid)
      ensures opt.doubled && ok ==>
                && grid == Pass(Doubled(old(grid), opt.sizeY, opt.sizeX), 2 * opt.sizeY, 2 * opt.sizeX, 0, opt.keys)
                && Collapsed(Doubled(old(grid), opt.sizeY, opt.sizeX), grid, 2 * opt.sizeY, 2 * opt.sizeX)
    {
      if !opt.doubled {
        return true;
      }
      var found := FindChecker(grid);
      if found {
        return false;
      }
      var rows: nat, cols: nat := opt.sizeY, opt.sizeX;
      var g := Duplicate(grid, rows, cols);
      PassCollapses(g, 2 * rows, 2 * cols, 0, opt.keys);
      grid := CollapseWindows(g, 2 * rows, 2 * cols, opt.keys);
      ok := true;
    }

    // -------------------------------------------------------------------------
    // generate

    /** What stage `i` (counted from 0) may take for granted once the stages before it have succeeded. */
    ghost predicate Ready(i: int)
      reads this
    {
      var rows, cols := opt.sizeY, opt.sizeX;
      && (i == 1 ==> Shaped(Current(), rows, cols) && rooms == [] && NoDoors(grid))
      && (i == 2 ==> Shaped(Current(), rows, cols) && |rooms| == opt.roomCount && NoDoors(grid) &&
                     forall k :: 0 <= k < |rooms| ==> FreshRoom(rooms[k], rows, cols))
      && (3 <= i <= 4 ==> DoorsRecorded(Current()))
      && (3 <= i <= 6 ==> Shaped(Current(), rows, cols) && |rooms| == opt.roomCount &&
                          RoomsInGrid(rooms, rows, cols) && NoKeys(rooms))
      && (i == 7 ==> IsRect(grid, rows, cols) && |rooms| == opt.roomCount)
      && (i == 8 ==> |rooms| == opt.roomCount)
    }

    /** Stage `i` of the pipeline, fed from the attempt's inputs; a success establishes what the next stage needs. */
    method RunStage(i: int, a: AttemptInput, pf: Pathfinder) returns (ok: bool)
      requires 0 <= i < 8 && ValidOptions(opt) && InputOk(opt, a) && PathsInGrid(pf, opt.sizeY, opt.sizeX) && Ready(i)
      modifies this
      ensures ProgressOf() == old(ProgressOf())
      ensures ok ==> Ready(i + 1)
    {
      if i < 4 {
        ok := RunLayoutStage(i, a, pf);
      } else {
        ok := RunKeyStage(i, a, pf);
      }
    }

    /** Stages 0 to 3: the grid, the rooms, the random walls, the halls and doors. */
    method RunLayoutStage(i: int, a: AttemptInput, pf: Pathfinder) returns (ok: bool)
      requires 0 <= i < 4 && ValidOptions(opt) && InputOk(opt, a) && PathsInGrid(pf, opt.sizeY, opt.sizeX) && Ready(i)
      modifies this
      ensures ProgressOf() == old(ProgressOf())
      ensures ok ==> Ready(i + 1)
    {
      var rows, cols := opt.sizeY, opt.sizeX;
      if i == 0 {
        ok := CreateGrid();
      } else if i == 1 {
        if opt.roomCount >= 0 {
          PlaceRoomsCount(Current(), rows, cols, SizesOf(opt), a.roomStart, opt.roomCount, a.roomDraws);
        }
        PlaceRoomsMonotone(Current(), rows, cols, SizesOf(opt), a.roomStart, opt.roomCount, a.roomDraws);
        ok := CreateRooms(a.roomStart, a.roomDraws);
      } else if i == 2 {
        assert FreshRoom(rooms[0], rows, cols);
        forall k | 0 <= k < |rooms|
          ensures RoomInGrid(rooms[k], rows, cols) && rooms[k].key == None
        {
          FreshRoomInGrid(rooms[k], rows, cols);
        }
        ok := PlaceRandomWalls(a.wallDraws);
        FreshDoorsRecorded(Current());
      } else {
        CarveKeepsRooms(Current(), rows, cols, pf, 0);
        ok := CreateHallsAndDoors(pf);
      }
    }

    /** Stages 4 to 7: the obstacle fix, start and end, keys and paths, the doubling. */
    method RunKeyStage(i: int, a: AttemptInput, pf: Pathfinder) returns (ok: bool)
      requires 4 <= i < 8 && ValidOptions(opt) && InputOk(opt, a) && PathsInGrid(pf, opt.sizeY, opt.sizeX) && Ready(i)
      modifies this
      ensures ProgressOf() == old(ProgressOf())
      ensures ok ==> Ready(i + 1)
    {
      if i == 4 {
        ok := FixWalls();
      } else if i == 5 {
        ok := SetStartAndEnd();
      } else if i == 6 {
        ok := CreatePaths(a.keyStart, a.firstKey, a.keyDraws, pf);
        assert |multiset(rooms)| == |rooms|;
      } else {
        ok := CleanUp();
      }
    }

    /**
     * The stage loop of `generate`: runs the stages in order until one fails,
     * or none when the generator is cancelled (no stage can cancel it).
     * `finished` says that all eight succeeded.
     */
    method RunStages(a: AttemptInput, pf: Pathfinder) returns (finished: bool, completed: nat)
      requires ValidOptions(opt) && InputOk(opt, a) && PathsInGrid(pf, opt.sizeY, opt.sizeX)
      modifies this
      ensures completed <= 8
      ensures ProgressOf() == old(ProgressOf()).(percent := if completed == 0 then old(percent) else (completed - 1) as real / 8.0)
      ensures old(cancelled) ==> completed == 0 && !finished
      ensures finished <==> !old(cancelled) && completed == 8
      ensures finished ==> |rooms| == opt.roomCount
    {
      var success := true;
      completed := 0;
      while completed < 8
        invariant completed <= 8 && success && (old(cancelled) ==> completed == 0)
        invariant ValidOptions(opt) && InputOk(opt, a) && PathsInGrid(pf, opt.sizeY, opt.sizeX) && Ready(completed)
        invariant ProgressOf() == old(ProgressOf()).(percent := if completed == 0 then old(percent) else (completed - 1) as real / 8.0)
      {
        if cancelled {
          break;
        }
        var ok := RunStage(completed, a, pf);
        if !ok {
          success := false;
          break;
        }
        percent := completed as real / 8.0;
        completed := completed + 1;
      }
      finished := success && !cancelled;
    }

    /**
     * `generate`: one attempt of the pipeline. A first call (one without
     * arguments in the source) resets the flags, saves the try budget and
     * reads the start time; every call spends one try. The stages run in
     * order while the generator is not cancelled, `percent` recording the
     * index of the last stage that succeeded out of eight. A failed or
     * cancelled attempt schedules a retry while tries remain and the
     * generator is not cancelled; otherwise generation gives up, restoring the
     * budget and marking itself cancelled. A complete run is done.
     */
    method Generate(first: bool, a: AttemptInput, pf: Pathfinder) returns (outcome: Outcome, completed: nat)
      requires ValidOptions(opt) && InputOk(opt, a) && PathsInGrid(pf, opt.sizeY, opt.sizeX)
      modifies this
      ensures var p1 := if first then old(ProgressOf()).(done := false, working := true, cancelled := false,
                                                          savedTries := old(opt.tries), started := a.startedAt)
                        else old(ProgressOf());
              && completed <= 8
              && (p1.cancelled ==> completed == 0 && outcome != Succeeded)
              && (outcome == Succeeded <==> !p1.cancelled && completed == 8)
              && (outcome == Retry <==> !p1.cancelled && completed < 8 && p1.opt.tries - 1 > 0)
              && (outcome == Retry ==>
                    ProgressOf() == p1.(opt := p1.opt.(tries := p1.opt.tries - 1),
                                        percent := if completed == 0 then p1.percent else (completed - 1) as real / 8.0))
              && (outcome == Failed ==>
                    ProgressOf() == p1.(opt := p1.opt.(tries := p1.savedTries), percent := 0.0, time := 0,
                                        done := false, working := false, cancelled := true))
              && (outcome == Succeeded ==>
                    ProgressOf() == p1.(opt := p1.opt.(tries := p1.savedTries), percent := 1.0,
                                        time := a.finishedAt - p1.started, done := true, working := false, cancelled := false))
      ensures outcome == Succeeded ==> |rooms| == opt.roomCount
    {
      if first {
        done := false;
        working := true;
        cancelled := false;
        savedTries := opt.tries;
        started := a.startedAt;
      }
      ghost var p1 := ProgressOf();
      opt := opt.(tries := opt.tries - 1);
      var finished;
      finished, completed := RunStages(a, pf);
      outcome := Conclude(finished, a.finishedAt);
    }

    /**
     * The end of `generate`, once the stages have run: a complete run is done;
     * otherwise a retry is scheduled while tries remain and the generator is
     * not cancelled, and else generation gives up.
     */
    method Conclude(finished: bool, finishedAt: int) returns (outcome: Outcome)
      requires finished ==> !cancelled
      modifies this
      ensures rooms == old(rooms)
      ensures outcome == Succeeded <==> finished
      ensures outcome == Retry <==> !finished && !old(cancelled) && old(opt.tries) > 0
      ensures outcome == Retry ==> ProgressOf() == old(ProgressOf())
      ensures outcome == Failed ==>
                ProgressOf() == old(ProgressOf()).(opt := old(opt).(tries := old(savedTries)), percent := 0.0, time := 0,
                                                   done := false, working := false, cancelled := true)
      ensures outcome == Succeeded ==>
                ProgressOf() == old(ProgressOf()).(opt := old(opt).(tries := old(savedTries)), percent := 1.0,
                                                   time := finishedAt - old(started), done := true, working := false, cancelled := false)
    {
      if !finished {
        if !cancelled {
          if opt.tries > 0 {
            outcome := Retry;
            return;
          }
        }
        opt := opt.(tries := savedTries);
        percent := 0.0;
        time := 0;
        done := false;
        working := false;
        cancelled := true;
        outcome := Failed;
        return;
      }
      opt := opt.(tries := savedTries);
      percent := 1.0;
      time := finishedAt - started;
      done := true;
      working := false;
      cancelled := false;
      outcome := Succeeded;
    }

    /**
     * A fresh `generate` followed by the retries it schedules, until
     * generation is done or gives up. Before each retry the caller may have
     * cancelled the generator (`cancelBefore`). At most the try budget of
     * attempts is made (one when the budget is not positive), and the
     * options, try budget included, end as they started.
     */
    method Run(inputs: seq<AttemptInput>, cancelBefore: seq<bool>, pf: Pathfinder) returns (outcome: Outcome, attempts: nat)
      requires ValidOptions(opt) && PathsInGrid(pf, opt.sizeY, opt.sizeX)
      requires |inputs| >= Max(opt.tries, 1) && |cancelBefore| == |inputs|
      requires forall k :: 0 <= k < |inputs| ==> InputOk(opt, inputs[k])
      modifies this
      ensures outcome != Retry && 1 <= attempts <= Max(old(opt.tries), 1) && opt == old(opt)
      ensures outcome == Succeeded ==> done && !working && !cancelled && percent == 1.0 && |rooms| == opt.roomCount
      ensures outcome == Failed ==> !done && !working && cancelled && percent == 0.0 && time == 0
    {
      ghost var o := opt;
      var completed;
      outcome, completed := Generate(true, inputs[0], pf);
      attempts := 1;
      while outcome == Retry
        invariant 1 <= attempts <= |inputs| && savedTries == o.tries
        invariant outcome == Retry ==> opt == o.(tries := o.tries - attempts) && opt.tries > 0
        invariant outcome != Retry ==> opt == o && attempts <= Max(o.tries, 1)
        invariant outcome == Succeeded ==> done && !working && !cancelled && percent == 1.0 && |rooms| == opt.roomCount
        invariant outcome == Failed ==> !done && !working && cancelled && percent == 0.0 && time == 0
        decreases |inputs| - attempts
      {
        outcome := Reattempt(cancelBefore[attempts], inputs[attempts], pf);
        attempts := attempts + 1;
      }
    }

    /** One scheduled retry: the caller may cancel first, then `generate` runs again without resetting. */
    method Reattempt(cancel: bool, a: AttemptInput, pf: Pathfinder) returns (outcome: Outcome)
      requires ValidOptions(opt) && InputOk(opt, a) && PathsInGrid(pf, opt.sizeY, opt.sizeX)
      modifies this
      ensures savedTries == old(savedTries)
      ensures outcome == Retry ==> opt == old(opt).(tries := old(opt.tries) - 1) && opt.tries > 0
      ensures outcome != Retry ==> opt == old(opt).(tries := old(savedTries))
      ensures outcome == Succeeded ==> done && !working && !cancelled && percent == 1.0 && |rooms| == opt.roomCount
      ensures outcome == Failed ==> !done && !working && cancelled && percent == 0.0 && time == 0
    {
      if cancel {
        Cancel();
      }
      var completed;
      outcome, completed := Generate(false, a, pf);
    }
  }
}
