/**
 * Corridor carving (`createHallsAndDoors`): every room is linked to the next
 * one (the last to the first) by a path the external pathfinder finds over
 * the obstacle layer; walking the path turns empty cells into halls and the
 * room cells where it crosses a room's edge into doors, which are recorded
 * against the rooms whose box contains them.
 */
module Carving {
  import opened Tiles
  import opened Rooms

  /**
   * The external pathfinder (`AStar` with the Manhattan heuristic): given the
   * obstacle layer and two cells, a path from the first to the second, both
   * included, or the empty sequence when there is none.
   */
  type Pathfinder = (Walls, Coord, Coord) -> seq<Coord>

  predicate PathInGrid(p: seq<Coord>, rows: int, cols: int)
  {
    forall n :: 0 <= n < |p| ==> InBounds(p[n], rows, cols)
  }

  /** What the model assumes of the pathfinder: every cell of every path it returns is a grid cell. */
  ghost predicate PathsInGrid(pf: Pathfinder, rows: int, cols: int)
  {
    forall wl, a, b :: PathInGrid(pf(wl, a, b), rows, cols)
  }

  /** The path searched for link `i`: from room `i`'s centre to the next room's (room 0's, after the last). */
  function PathOf(l: Layout, pf: Pathfinder, i: int): seq<Coord>
    requires 0 <= i < |l.rooms|
  {
    pf(l.walls, Centre(l.rooms[i]), Centre(l.rooms[if i + 1 < |l.rooms| then i + 1 else 0]))
  }

  /**
   * Path cell `n`: an empty cell becomes a hall, and if the next path cell is
   * a room cell, that one becomes a door; a room cell followed by an empty
   * cell becomes a door itself. New doors are recorded with `WithDoor`.
   */
  function Step(l: Layout, rows: int, cols: int, p: seq<Coord>, n: int): (r: Layout)
    requires Shaped(l, rows, cols) && PathInGrid(p, rows, cols) && 0 <= n < |p|
    ensures Shaped(r, rows, cols) && r.walls == l.walls && |r.rooms| == |l.rooms|
  {
    var c := p[n];
    if l.grid[c.y][c.x] == Empty then
      var g1 := Set(l.grid, c, Hall);
      if n + 1 < |p| && g1[p[n + 1].y][p[n + 1].x] == Room then
        Layout(Set(g1, p[n + 1], Door), l.walls, WithDoor(l.rooms, p[n + 1]))
      else
        Layout(g1, l.walls, l.rooms)
    else if l.grid[c.y][c.x] == Room && n + 1 < |p| && l.grid[p[n + 1].y][p[n + 1].x] == Empty then
      Layout(Set(l.grid, c, Door), l.walls, WithDoor(l.rooms, c))
    else
      l
  }

  /** The walk over the path cells from index `n` on. */
  function Walk(l: Layout, rows: int, cols: int, p: seq<Coord>, n: nat): (r: Layout)
    requires Shaped(l, rows, cols) && PathInGrid(p, rows, cols)
    ensures Shaped(r, rows, cols) && r.walls == l.walls && |r.rooms| == |l.rooms|
    decreases |p| - n
  {
    if n >= |p| then l else Walk(Step(l, rows, cols, p, n), rows, cols, p, n + 1)
  }

  /**
   * The links from room `i` on. A link whose path is empty stops the stage
   * with failure; the cells carved by earlier links are kept.
   */
  function Carve(l: Layout, rows: int, cols: int, pf: Pathfinder, i: nat): (r: (Layout, bool))
    requires Shaped(l, rows, cols) && PathsInGrid(pf, rows, cols)
    ensures Shaped(r.0, rows, cols) && r.0.walls == l.walls && |r.0.rooms| == |l.rooms|
    decreases |l.rooms| - i
  {
    if i >= |l.rooms| then (l, true)
    else
      var p := PathOf(l, pf, i);
      if |p| == 0 then (l, false)
      else Carve(Walk(l, rows, cols, p, 1), rows, cols, pf, i + 1)
  }

  // ---------------------------------------------------------------------------
  // Carving leaves the rooms' boxes, centres, keys and orders alone

  predicate SameButDoors(rs: seq<Room>, rs': seq<Room>)
  {
    |rs'| == |rs| && forall k :: 0 <= k < |rs| ==> rs'[k] == rs[k].(doors := rs'[k].doors)
  }

  lemma WithDoorSameButDoors(rs: seq<Room>, c: Coord)
    ensures SameButDoors(rs, WithDoor(rs, c))
  {
    forall k | 0 <= k < |rs|
      ensures WithDoor(rs, c)[k] == rs[k].(doors := WithDoor(rs, c)[k].doors)
    {
      WithDoorEffect(rs, c, k);
    }
  }

  lemma {:induction false} WalkSameButDoors(l: Layout, rows: int, cols: int, p: seq<Coord>, n: nat)
    requires Shaped(l, rows, cols) && PathInGrid(p, rows, cols)
    ensures SameButDoors(l.rooms, Walk(l, rows, cols, p, n).rooms)
    decreases |p| - n
  {
    if n < |p| {
      var l1 := Step(l, rows, cols, p, n);
      var c := p[n];
      if l.grid[c.y][c.x] == Empty {
        if n + 1 < |p| { WithDoorSameButDoors(l.rooms, p[n + 1]); }
      } else {
        WithDoorSameButDoors(l.rooms, c);
      }
      WalkSameButDoors(l1, rows, cols, p, n + 1);
    }
  }

  /** With the same walls and centres, a link searches the same path. */
  lemma PathOfStable(l: Layout, l': Layout, pf: Pathfinder, i: int)
    requires l'.walls == l.walls && SameButDoors(l.rooms, l'.rooms) && 0 <= i < |l.rooms|
    ensures PathOf(l', pf, i) == PathOf(l, pf, i)
  {
    var j := if i + 1 < |l.rooms| then i + 1 else 0;
    assert Centre(l'.rooms[i]) == Centre(l.rooms[i]);
    assert Centre(l'.rooms[j]) == Centre(l.rooms[j]);
  }

  /**
   * The stage fails exactly when the pathfinder finds no path for one of the
   * links, each searched between the rooms' centres over the walls the stage
   * started with (the stage never changes the walls or the centres).
   */
  lemma {:induction false} CarveFailsIffNoPath(l: Layout, rows: int, cols: int, pf: Pathfinder, i: nat)
    requires Shaped(l, rows, cols) && PathsInGrid(pf, rows, cols)
    ensures Carve(l, rows, cols, pf, i).1 <==> forall k :: i <= k < |l.rooms| ==> |PathOf(l, pf, k)| > 0
    decreases |l.rooms| - i
  {
    if i < |l.rooms| {
      var p := PathOf(l, pf, i);
      if |p| > 0 {
        var l1 := Walk(l, rows, cols, p, 1);
        WalkSameButDoors(l, rows, cols, p, 1);
        forall k | i + 1 <= k < |l.rooms|
          ensures PathOf(l1, pf, k) == PathOf(l, pf, k)
        {
          PathOfStable(l, l1, pf, k);
        }
        CarveFailsIffNoPath(l1, rows, cols, pf, i + 1);
      }
    }
  }

  /** Recording a door at a grid cell keeps every room inside the grid. */
  lemma WithDoorInGrid(rs: seq<Room>, c: Coord, rows: int, cols: int)
    requires RoomsInGrid(rs, rows, cols) && InBounds(c, rows, cols)
    ensures RoomsInGrid(WithDoor(rs, c), rows, cols)
  {
    forall k | 0 <= k < |rs|
      ensures RoomInGrid(WithDoor(rs, c)[k], rows, cols)
    {
      WithDoorEffect(rs, c, k);
      assert RoomInGrid(rs[k], rows, cols);
    }
  }

  lemma {:induction false} WalkInGrid(l: Layout, rows: int, cols: int, p: seq<Coord>, n: nat)
    requires Shaped(l, rows, cols) && PathInGrid(p, rows, cols) && RoomsInGrid(l.rooms, rows, cols)
    ensures RoomsInGrid(Walk(l, rows, cols, p, n).rooms, rows, cols)
    decreases |p| - n
  {
    if n < |p| {
      var c := p[n];
      if l.grid[c.y][c.x] == Empty {
        if n + 1 < |p| { WithDoorInGrid(l.rooms, p[n + 1], rows, cols); }
      } else if n + 1 < |p| {
        WithDoorInGrid(l.rooms, c, rows, cols);
      }
      WalkInGrid(Step(l, rows, cols, p, n), rows, cols, p, n + 1);
    }
  }

  /**
   * The stage keeps every room's box, centre, key and order, and keeps every
   * room inside the grid: the doors it records are path cells.
   */
  lemma {:induction false} CarveKeepsRooms(l: Layout, rows: int, cols: int, pf: Pathfinder, i: nat)
    requires Shaped(l, rows, cols) && PathsInGrid(pf, rows, cols) && RoomsInGrid(l.rooms, rows, cols)
    ensures SameButDoors(l.rooms, Carve(l, rows, cols, pf, i).0.rooms)
    ensures RoomsInGrid(Carve(l, rows, cols, pf, i).0.rooms, rows, cols)
    decreases |l.rooms| - i
  {
    if i < |l.rooms| {
      var p := PathOf(l, pf, i);
      if |p| > 0 {
        var l1 := Walk(l, rows, cols, p, 1);
        WalkSameButDoors(l, rows, cols, p, 1);
        WalkInGrid(l, rows, cols, p, 1);
        CarveKeepsRooms(l1, rows, cols, pf, i + 1);
        var rs := Carve(l1, rows, cols, pf, i + 1).0.rooms;
        forall k | 0 <= k < |l.rooms|
          ensures rs[k] == l.rooms[k].(doors := rs[k].doors)
        {
          assert l1.rooms[k] == l.rooms[k].(doors := l1.rooms[k].doors);
        }
      }
    }
  }

  // ---------------------------------------------------------------------------
  // What carving does to the tiles

  /**
   * How carving may change a cell: an empty tile may become a hall, a room
   * tile may become a door, and nothing else changes.
   */
  predicate CarvedTiles(g: Grid, g': Grid)
  {
    && |g'| == |g|
    && (forall i :: 0 <= i < |g| ==> |g'[i]| == |g[i]|)
    && forall i, j :: 0 <= i < |g| && 0 <= j < |g[i]| ==>
         || g'[i][j] == g[i][j]
         || (g[i][j] == Empty && g'[i][j] == Hall)
         || (g[i][j] == Room && g'[i][j] == Door)
  }

  /** Halls and doors are never carved again, so carving composes. */
  lemma CarvedTilesTrans(a: Grid, b: Grid, c: Grid)
    requires CarvedTiles(a, b) && CarvedTiles(b, c)
    ensures CarvedTiles(a, c)
  {
  }

  lemma StepCarves(l: Layout, rows: int, cols: int, p: seq<Coord>, n: int)
    requires Shaped(l, rows, cols) && PathInGrid(p, rows, cols) && 0 <= n < |p|
    ensures CarvedTiles(l.grid, Step(l, rows, cols, p, n).grid)
  {
  }

  lemma {:induction false} WalkCarves(l: Layout, rows: int, cols: int, p: seq<Coord>, n: nat)
    requires Shaped(l, rows, cols) && PathInGrid(p, rows, cols)
    ensures CarvedTiles(l.grid, Walk(l, rows, cols, p, n).grid)
    decreases |p| - n
  {
    if n < |p| {
      var l1 := Step(l, rows, cols, p, n);
      StepCarves(l, rows, cols, p, n);
      WalkCarves(l1, rows, cols, p, n + 1);
      CarvedTilesTrans(l.grid, l1.grid, Walk(l1, rows, cols, p, n + 1).grid);
    }
  }

  /** Over the whole stage, empty cells only become halls and room cells only become doors. */
  lemma {:induction false} CarveTiles(l: Layout, rows: int, cols: int, pf: Pathfinder, i: nat)
    requires Shaped(l, rows, cols) && PathsInGrid(pf, rows, cols)
    ensures CarvedTiles(l.grid, Carve(l, rows, cols, pf, i).0.grid)
    decreases |l.rooms| - i
  {
    if i < |l.rooms| {
      var p := PathOf(l, pf, i);
      if |p| > 0 {
        var l1 := Walk(l, rows, cols, p, 1);
        WalkCarves(l, rows, cols, p, 1);
        CarveTiles(l1, rows, cols, pf, i + 1);
        CarvedTilesTrans(l.grid, l1.grid, Carve(l1, rows, cols, pf, i + 1).0.grid);
      }
    }
  }

  /** A cell the walk from `n` changes is one of the path's cells from index `n` on. */
  lemma {:induction false} WalkTouchesPathOnly(l: Layout, rows: int, cols: int, p: seq<Coord>, n: nat, i: int, j: int)
    requires Shaped(l, rows, cols) && PathInGrid(p, rows, cols)
    requires 0 <= i < rows && 0 <= j < cols && Walk(l, rows, cols, p, n).grid[i][j] != l.grid[i][j]
    ensures exists m :: n <= m < |p| && p[m] == Coord(j, i)
    decreases |p| - n
  {
    if n < |p| {
      var l1 := Step(l, rows, cols, p, n);
      if l1.grid[i][j] != l.grid[i][j] {
        if p[n] != Coord(j, i) {
          assert n + 1 < |p| && p[n + 1] == Coord(j, i);
        }
      } else {
        WalkTouchesPathOnly(l1, rows, cols, p, n + 1, i, j);
      }
    }
  }

  /** Cell `c` is a cell, other than the first, of the path of some link from `i` on. */
  ghost predicate OnALink(l: Layout, pf: Pathfinder, i: int, c: Coord)
  {
    exists k, m :: 0 <= k < |l.rooms| && i <= k && 1 <= m < |PathOf(l, pf, k)| && PathOf(l, pf, k)[m] == c
  }

  /**
   * The stage changes only cells that lie on a link's path after its first
   * cell (that cell is the centre the link starts from).
   */
  lemma {:induction false} CarveTouchesPathsOnly(l: Layout, rows: int, cols: int, pf: Pathfinder, i: nat, y: int, x: int)
    requires Shaped(l, rows, cols) && PathsInGrid(pf, rows, cols)
    requires 0 <= y < rows && 0 <= x < cols && Carve(l, rows, cols, pf, i).0.grid[y][x] != l.grid[y][x]
    ensures OnALink(l, pf, i, Coord(x, y))
    decreases |l.rooms| - i
  {
    if i < |l.rooms| {
      var p := PathOf(l, pf, i);
      if |p| > 0 {
        var l1 := Walk(l, rows, cols, p, 1);
        WalkSameButDoors(l, rows, cols, p, 1);
        if l1.grid[y][x] != l.grid[y][x] {
          WalkTouchesPathOnly(l, rows, cols, p, 1, y, x);
          var m :| 1 <= m < |p| && p[m] == Coord(x, y);
          assert PathOf(l, pf, i)[m] == Coord(x, y);
        } else {
          CarveTouchesPathsOnly(l1, rows, cols, pf, i + 1, y, x);
          var k, m :| 0 <= k < |l1.rooms| && i + 1 <= k && 1 <= m < |PathOf(l1, pf, k)| && PathOf(l1, pf, k)[m] == Coord(x, y);
          PathOfStable(l, l1, pf, k);
          assert PathOf(l, pf, k)[m] == Coord(x, y);
        }
      }
    }
  }

  // ---------------------------------------------------------------------------
  // Door bookkeeping

  /**
   * The door records agree with the door tiles: every door recorded against a
   * room lies in that room's box on a door tile, and every door tile is
   * recorded against every room whose box contains it.
   */
  ghost predicate DoorsRecorded(l: Layout)
  {
    && (forall k :: 0 <= k < |l.rooms| ==> RecordsAreDoors(l.grid, l.rooms[k]))
    && (forall k :: 0 <= k < |l.rooms| ==> DoorsOfRecorded(l.grid, l.rooms[k]))
  }

  /** Every door recorded against room `r` lies in its box, on a door tile of `g`. */
  ghost predicate RecordsAreDoors(g: Grid, r: Room)
  {
    forall d :: 0 <= d < |r.doors| ==> Contains(r, r.doors[d]) && Within(g, r.doors[d]) && g[r.doors[d].y][r.doors[d].x] == Door
  }

  /** Every door tile of `g` inside room `r`'s box is recorded against `r`. */
  ghost predicate DoorsOfRecorded(g: Grid, r: Room)
  {
    forall i, j {:trigger Coord(j, i) in r.doors} ::
      0 <= i < |g| && 0 <= j < |g[i]| && g[i][j] == Door && Contains(r, Coord(j, i)) ==> Coord(j, i) in r.doors
  }

  /** No cell of `g` holds a door tile. */
  predicate NoDoors(g: Grid)
  {
    forall i, j :: 0 <= i < |g| && 0 <= j < |g[i]| ==> g[i][j] != Door
  }

  /**
   * Before any corridor is carved the books are trivially balanced: on a grid
   * without door tiles, the records agree with the tiles exactly when no room
   * has a door recorded.
   */
  lemma FreshDoorsRecorded(l: Layout)
    requires NoDoors(l.grid)
    ensures DoorsRecorded(l) <==> forall k :: 0 <= k < |l.rooms| ==> l.rooms[k].doors == []
  {
    forall k | 0 <= k < |l.rooms|
      ensures RecordsAreDoors(l.grid, l.rooms[k]) <==> l.rooms[k].doors == []
    {
      NoDoorRecorded(l.grid, l.rooms[k]);
    }
  }

  /** On a grid without door tiles, a room's records are all door tiles exactly when it has none. */
  lemma NoDoorRecorded(g: Grid, r: Room)
    requires NoDoors(g)
    ensures RecordsAreDoors(g, r) <==> r.doors == []
  {
    if r.doors != [] {
      var d := r.doors[0];
    }
  }

  /** A room's door list only grows by a cell it contains, and the grid only changes as carving may. */
  lemma RecordKept(l: Layout, l': Layout, c: Coord)
    requires DoorsRecorded(l) && CarvedTiles(l.grid, l'.grid)
    requires Within(l'.grid, c) && l'.grid[c.y][c.x] == Door
    requires l'.rooms == WithDoor(l.rooms, c)
    requires forall i, j :: 0 <= i < |l.grid| && 0 <= j < |l.grid[i]| && l'.grid[i][j] == Door && l.grid[i][j] != Door ==> Coord(j, i) == c
    ensures DoorsRecorded(l')
  {
    forall k | 0 <= k < |l.rooms|
      ensures Contains(l.rooms[k], c) ==> l'.rooms[k].doors == l.rooms[k].doors + [c]
      ensures !Contains(l.rooms[k], c) ==> l'.rooms[k] == l.rooms[k]
      ensures l'.rooms[k] == l.rooms[k].(doors := l'.rooms[k].doors)
    {
      WithDoorEffect(l.rooms, c, k);
    }
  }

  lemma StepRecords(l: Layout, rows: int, cols: int, p: seq<Coord>, n: int)
    requires Shaped(l, rows, cols) && PathInGrid(p, rows, cols) && 0 <= n < |p| && DoorsRecorded(l)
    ensures DoorsRecorded(Step(l, rows, cols, p, n))
  {
    var l' := Step(l, rows, cols, p, n);
    StepCarves(l, rows, cols, p, n);
    var c := p[n];
    if l.grid[c.y][c.x] == Empty {
      var g1 := Set(l.grid, c, Hall);
      if n + 1 < |p| && g1[p[n + 1].y][p[n + 1].x] == Room {
        RecordKept(l, l', p[n + 1]);
      }
    } else if l.grid[c.y][c.x] == Room && n + 1 < |p| && l.grid[p[n + 1].y][p[n + 1].x] == Empty {
      RecordKept(l, l', c);
    }
  }

  lemma {:induction false} WalkRecords(l: Layout, rows: int, cols: int, p: seq<Coord>, n: nat)
    requires Shaped(l, rows, cols) && PathInGrid(p, rows, cols) && DoorsRecorded(l)
    ensures DoorsRecorded(Walk(l, rows, cols, p, n))
    decreases |p| - n
  {
    if n < |p| {
      StepRecords(l, rows, cols, p, n);
      WalkRecords(Step(l, rows, cols, p, n), rows, cols, p, n + 1);
    }
  }

  /**
   * The door records stay in agreement with the door tiles over the whole
   * stage: each new door is recorded against exactly the rooms whose box
   * contains it.
   */
  lemma {:induction false} CarveRecords(l: Layout, rows: int, cols: int, pf: Pathfinder, i: nat)
    requires Shaped(l, rows, cols) && PathsInGrid(pf, rows, cols) && DoorsRecorded(l)
    ensures DoorsRecorded(Carve(l, rows, cols, pf, i).0)
    decreases |l.rooms| - i
  {
    var l', more := LinkRecords(l, rows, cols, pf, i);
    if more {
      CarveRecords(l', rows, cols, pf, i + 1);
    }
  }

  /**
   * One link of the carving: either the stage stops here with the layout
   * unchanged, or the walk along the link's path gives a layout `l'` whose
   * door records still agree, from which the carving goes on.
   */
  lemma LinkRecords(l: Layout, rows: int, cols: int, pf: Pathfinder, i: nat) returns (l': Layout, more: bool)
    requires Shaped(l, rows, cols) && PathsInGrid(pf, rows, cols) && DoorsRecorded(l)
    ensures more <==> i < |l.rooms| && |PathOf(l, pf, i)| > 0
    ensures !more ==> Carve(l, rows, cols, pf, i).0 == l
    ensures more ==> && Shaped(l', rows, cols) && DoorsRecorded(l') && |l'.rooms| == |l.rooms|
                     && Carve(l, rows, cols, pf, i) == Carve(l', rows, cols, pf, i + 1)
    ensures DoorsRecorded(Carve(l, rows, cols, pf, i).0) <== !more || DoorsRecorded(Carve(l', rows, cols, pf, i + 1).0)
  {
    more := i < |l.rooms| && |PathOf(l, pf, i)| > 0;
    l' := l;
    if more {
      l' := Walk(l, rows, cols, PathOf(l, pf, i), 1);
      WalkRecords(l, rows, cols, PathOf(l, pf, i), 1);
    }
  }
}
