/**
 * Key gating (`createPaths`) and the solvability check (`checkPaths`). The
 * start room is ranked first (order 99) and the end room last (order 0); key
 * `i` goes to a randomly chosen room with order `i + 1`, and the doors of the
 * room reached just before it in play (the end room for key 0, the previous
 * key room otherwise) become doors of gate `i` and obstacles. The check then
 * walks the rooms by descending order and asks the pathfinder for a path
 * between every consecutive pair, opening the doors of the room two steps
 * ahead after each success.
 */
module Gating {
  import opened Tiles
  import opened Random
  import opened Rooms
  import opened Carving

  /** Every cell listed in `doors` becomes a door of gate `gate` and an obstacle. */
  function Locked(l: Layout, doors: seq<Coord>, gate: nat): (r: Layout)
    ensures r.rooms == l.rooms
    ensures |r.grid| == |l.grid| && forall i :: 0 <= i < |l.grid| ==> |r.grid[i]| == |l.grid[i]|
    ensures |r.walls| == |l.walls| && forall i :: 0 <= i < |l.walls| ==> |r.walls[i]| == |l.walls[i]|
  {
    Layout(
      seq(|l.grid|, i requires 0 <= i < |l.grid| =>
        seq(|l.grid[i]|, j requires 0 <= j < |l.grid[i]| =>
          if Coord(j, i) in doors then DoorN(gate) else l.grid[i][j])),
      seq(|l.walls|, i requires 0 <= i < |l.walls| =>
        seq(|l.walls[i]|, j requires 0 <= j < |l.walls[i]| => Coord(j, i) in doors || l.walls[i][j])),
      l.rooms)
  }

  /** The start room (first after sorting by door count) gets order 99, the end room order 0. */
  function Ranked(rs: seq<Room>): (r: seq<Room>)
    requires |rs| >= 2
    ensures |r| == |rs|
  {
    rs[0 := rs[0].(order := 99)][1 := rs[1].(order := 0)]
  }

  /** The room at index `k` holds the key of gate `gate`: its key, its order `gate + 1`, a key tile at its centre. */
  function GiveKey(l: Layout, k: int, gate: nat): (r: Layout)
    requires 0 <= k < |l.rooms| && Within(l.grid, Centre(l.rooms[k]))
    ensures r.walls == l.walls && |r.rooms| == |l.rooms|
  {
    var room := l.rooms[k];
    Layout(Set(l.grid, Centre(room), KeyN(gate)), l.walls,
           l.rooms[k := room.(key := Some(gate), order := gate + 1)])
  }

  /**
   * A `Math.random()` value for which `$rand(2, n - 1)` names one of the `n`
   * rooms, once there are at least two. With two rooms the range is reversed,
   * and only a draw of exactly 0 yields index 2, past the last room, where the
   * source throws.
   */
  predicate KeyDrawFor(n: int, u: real)
  {
    IsUnit(u) && (n == 2 ==> 0.0 < u)
  }

  /**
   * The room index `$rand(2, n - 1)` draws among `n` rooms: never the start
   * or end room (indices 0 and 1) once there are three rooms, and, once there
   * are four, never the last room either. With two rooms it is always the
   * end room.
   */
  function KeyIndex(n: int, u: real): (k: int)
    requires n >= 2 && KeyDrawFor(n, u)
    ensures 1 <= k < n
    ensures n >= 3 ==> 2 <= k
    ensures n == 2 ==> k == 1
    ensures n >= 4 ==> k < n - 1
  {
    Rand(2, n - 1, u)
  }

  /** The `Math.random()` value one iteration of the key loop draws, with the clock reading its deadline test sees. */
  datatype KeyDraw = KeyDraw(now: int, u: real)

  predicate KeyDrawsOk(n: int, ds: seq<KeyDraw>)
  {
    forall k :: 0 <= k < |ds| ==> KeyDrawFor(n, ds[k].u)
  }

  /** What key gating needs of its input: a shaped layout with at least two rooms inside the grid. */
  predicate GateReady(l: Layout, rows: int, cols: int)
  {
    Shaped(l, rows, cols) && RoomsInGrid(l.rooms, rows, cols) && |l.rooms| >= 2
  }

  /**
   * Key 0: the end room's doors become gate-0 doors, then the room at the
   * drawn index takes key 0. Yields the new layout and that room's index.
   */
  function FirstKey(l: Layout, rows: int, cols: int, u: real): (r: (Layout, int))
    requires GateReady(l, rows, cols) && KeyDrawFor(|l.rooms|, u)
    ensures GateReady(r.0, rows, cols) && 1 <= r.1 < |r.0.rooms| && |r.0.rooms| == |l.rooms|
  {
    var l1 := Locked(l, l.rooms[1].doors, 0);
    var k := KeyIndex(|l1.rooms|, u);
    assert RoomInGrid(l1.rooms[k], rows, cols);
    var l2 := GiveKey(l1, k, 0);
    assert RoomInGrid(l2.rooms[k], rows, cols);
    (l2, k)
  }

  /** One accepted draw: room `k` takes the key of gate `gate`, then the doors of room `last` become doors of that gate. */
  function Accept(l: Layout, rows: int, cols: int, k: int, last: int, gate: nat): (r: Layout)
    requires GateReady(l, rows, cols) && 0 <= k < |l.rooms| && 0 <= last < |l.rooms|
    ensures GateReady(r, rows, cols) && |r.rooms| == |l.rooms|
  {
    assert RoomInGrid(l.rooms[k], rows, cols);
    var l1 := GiveKey(l, k, gate);
    assert RoomInGrid(l1.rooms[k], rows, cols);
    Locked(l1, l1.rooms[last].doors, gate)
  }

  /**
   * Keys `gate` up to `keys - 1`. Each iteration of the source's inner loop
   * first fails the stage when its clock reading is past `deadline`, then
   * draws a room index; a room whose centre is still a plain room tile takes
   * the key, and the doors of the previous key room (`last`) become doors of
   * this gate. Otherwise the iteration draws again.
   */
  function PlaceKeys(l: Layout, rows: int, cols: int, gate: nat, keys: nat, last: int, deadline: int, ds: seq<KeyDraw>): (r: (Layout, bool))
    requires GateReady(l, rows, cols) && 0 <= last < |l.rooms| && KeyDrawsOk(|l.rooms|, ds)
    ensures GateReady(r.0, rows, cols) && |r.0.rooms| == |l.rooms|
    decreases keys - gate, |ds|
  {
    if gate >= keys then (l, true)
    else if |ds| == 0 || deadline < ds[0].now then (l, false)
    else
      var k := KeyIndex(|l.rooms|, ds[0].u);
      var room := l.rooms[k];
      assert RoomInGrid(room, rows, cols);
      if l.grid[room.ty][room.tx] == Room then
        PlaceKeys(Accept(l, rows, cols, k, last, gate), rows, cols, gate + 1, keys, k, deadline, ds[1..])
      else
        PlaceKeys(l, rows, cols, gate, keys, last, deadline, ds[1..])
  }

  /**
   * The key placement of `createPaths` (everything before the check): nothing
   * at all without keys; otherwise the ranking, key 0, and keys 1 to
   * `keys - 1` under the deadline `deadline`.
   */
  function PlaceAllKeys(l: Layout, rows: int, cols: int, keys: nat, u0: real, deadline: int, ds: seq<KeyDraw>): (r: (Layout, bool))
    requires GateReady(l, rows, cols) && KeyDrawFor(|l.rooms|, u0) && KeyDrawsOk(|l.rooms|, ds)
    ensures GateReady(r.0, rows, cols) && |r.0.rooms| == |l.rooms|
  {
    if keys == 0 then (l, true)
    else
      var (l1, k) := FirstKey(l.(rooms := Ranked(l.rooms)), rows, cols, u0);
      PlaceKeys(l1, rows, cols, 1, keys, k, deadline, ds)
  }

  // ---------------------------------------------------------------------------
  // The key chain

  predicate NoKeys(rs: seq<Room>)
  {
    forall k :: 0 <= k < |rs| ==> rs[k].key == None
  }

  /** Reordering the rooms hands out no key. */
  lemma PermutationNoKeys(rs: seq<Room>, ts: seq<Room>)
    requires multiset(ts) == multiset(rs) && NoKeys(rs)
    ensures NoKeys(ts)
  {
    forall k | 0 <= k < |ts|
      ensures ts[k].key == None
    {
      PermutationMembers(rs, ts, k);
    }
  }

  /**
   * Gates `0..gates-1` are handed out: each is held by some room, no two
   * rooms hold the same gate, a holder of gate `g` has order `g + 1` and a
   * centre that is no longer a plain room tile, and the start and end rooms
   * hold no key and keep orders 99 and 0.
   */
  ghost predicate KeyChain(l: Layout, gates: nat)
  {
    && |l.rooms| >= 2
    && (forall g :: 0 <= g < gates ==> exists k :: 0 <= k < |l.rooms| && l.rooms[k].key == Some(g))
    && (forall a, b :: 0 <= a < |l.rooms| && 0 <= b < |l.rooms| && l.rooms[a].key.Some? && l.rooms[a].key == l.rooms[b].key ==> a == b)
    && (forall a :: 0 <= a < |l.rooms| && l.rooms[a].key.Some? ==>
          && l.rooms[a].key.value < gates
          && l.rooms[a].order == l.rooms[a].key.value + 1
          && Within(l.grid, Centre(l.rooms[a]))
          && l.grid[l.rooms[a].ty][l.rooms[a].tx] != Room)
    && l.rooms[0].key == None && l.rooms[0].order == 99
    && l.rooms[1].key == None && l.rooms[1].order == 0
  }

  /** Locking doors never turns a cell into a plain room tile, so the chain survives it. */
  lemma LockedKeepsChain(l: Layout, doors: seq<Coord>, gate: nat, gates: nat)
    requires KeyChain(l, gates)
    ensures KeyChain(Locked(l, doors, gate), gates)
  {
    var l' := Locked(l, doors, gate);
    forall a | 0 <= a < |l.rooms| && l.rooms[a].key.Some?
      ensures l'.grid[l.rooms[a].ty][l.rooms[a].tx] != Room
    {
    }
  }

  /** Handing gate `gates` to a room whose centre is a plain room tile extends the chain by one gate. */
  lemma GiveKeyExtendsChain(l: Layout, k: int, gates: nat)
    requires KeyChain(l, gates) && 2 <= k < |l.rooms| && Within(l.grid, Centre(l.rooms[k]))
    requires l.grid[l.rooms[k].ty][l.rooms[k].tx] == Room
    ensures KeyChain(GiveKey(l, k, gates), gates + 1)
  {
    var l' := GiveKey(l, k, gates);
    assert l.rooms[k].key == None;
    forall g | 0 <= g < gates + 1
      ensures exists m :: 0 <= m < |l'.rooms| && l'.rooms[m].key == Some(g)
    {
      if g < gates {
        var m :| 0 <= m < |l.rooms| && l.rooms[m].key == Some(g);
        assert m != k;
        assert l'.rooms[m].key == Some(g);
      } else {
        assert l'.rooms[k].key == Some(g);
      }
    }
    forall a | 0 <= a < |l'.rooms| && l'.rooms[a].key.Some?
      ensures Within(l'.grid, Centre(l'.rooms[a])) && l'.grid[l'.rooms[a].ty][l'.rooms[a].tx] != Room
    {
    }
  }

  /** An accepted draw extends the chain by the gate it hands out. */
  lemma AcceptChain(l: Layout, rows: int, cols: int, k: int, last: int, gate: nat)
    requires GateReady(l, rows, cols) && 2 <= k < |l.rooms| && 0 <= last < |l.rooms| && KeyChain(l, gate)
    requires l.grid[l.rooms[k].ty][l.rooms[k].tx] == Room
    ensures KeyChain(Accept(l, rows, cols, k, last, gate), gate + 1)
  {
    assert RoomInGrid(l.rooms[k], rows, cols);
    var l1 := GiveKey(l, k, gate);
    GiveKeyExtendsChain(l, k, gate);
    LockedKeepsChain(l1, l1.rooms[last].doors, gate, gate + 1);
  }

  /**
   * The cells an accepted draw changes: every door of room `last` becomes a
   * door of gate `gate` and an obstacle, the key room's centre takes the key
   * tile unless it is one of those doors, and no other cell changes; of the
   * rooms only the key room changes, in its key and order.
   */
  lemma AcceptLocks(l: Layout, rows: int, cols: int, k: int, last: int, gate: nat)
    requires GateReady(l, rows, cols) && 0 <= k < |l.rooms| && 0 <= last < |l.rooms|
    ensures var r := Accept(l, rows, cols, k, last, gate);
      var doors, c := l.rooms[last].doors, Centre(l.rooms[k]);
      && r.rooms == l.rooms[k := l.rooms[k].(key := Some(gate), order := gate + 1)]
      && (forall d :: 0 <= d < |doors| ==> r.grid[doors[d].y][doors[d].x] == DoorN(gate) && r.walls[doors[d].y][doors[d].x])
      && (c !in doors ==> r.grid[c.y][c.x] == KeyN(gate))
      && (forall i, j :: 0 <= i < rows && 0 <= j < cols && Coord(j, i) !in doors ==>
            r.walls[i][j] == l.walls[i][j] && (Coord(j, i) != c ==> r.grid[i][j] == l.grid[i][j]))
  {
    assert RoomInGrid(l.rooms[k], rows, cols) && RoomInGrid(l.rooms[last], rows, cols);
    var l1 := GiveKey(l, k, gate);
    assert l1.rooms[last].doors == l.rooms[last].doors;
  }

  /**
   * The cells key 0 changes: every door of the end room becomes a door of
   * gate 0 and an obstacle, except that the key room's centre ends up with
   * the key tile; no other cell changes.
   */
  lemma FirstKeyLocks(l: Layout, rows: int, cols: int, u: real)
    requires GateReady(l, rows, cols) && KeyDrawFor(|l.rooms|, u)
    ensures var (r, k) := FirstKey(l, rows, cols, u);
      var doors, c := l.rooms[1].doors, Centre(l.rooms[k]);
      && r.rooms == l.rooms[k := l.rooms[k].(key := Some(0), order := 1)]
      && r.grid[c.y][c.x] == KeyN(0)
      && (forall d :: 0 <= d < |doors| ==> r.walls[doors[d].y][doors[d].x] && (doors[d] != c ==> r.grid[doors[d].y][doors[d].x] == DoorN(0)))
      && (forall i, j :: 0 <= i < rows && 0 <= j < cols && Coord(j, i) !in doors ==>
            r.walls[i][j] == l.walls[i][j] && (Coord(j, i) != c ==> r.grid[i][j] == l.grid[i][j]))
  {
    assert RoomInGrid(l.rooms[1], rows, cols);
    var k := KeyIndex(|l.rooms|, u);
    assert RoomInGrid(l.rooms[k], rows, cols);
  }

  /** Placing keys from gate `gate` on extends a chain of `gate` gates to all `keys` gates, when it succeeds. */
  lemma {:induction false} PlaceKeysChain(l: Layout, rows: int, cols: int, gate: nat, keys: nat, last: int, deadline: int, ds: seq<KeyDraw>)
    requires GateReady(l, rows, cols) && |l.rooms| >= 3 && 0 <= last < |l.rooms| && KeyDrawsOk(|l.rooms|, ds)
    requires KeyChain(l, gate) && gate <= keys
    ensures PlaceKeys(l, rows, cols, gate, keys, last, deadline, ds).1 ==> KeyChain(PlaceKeys(l, rows, cols, gate, keys, last, deadline, ds).0, keys)
    decreases keys - gate, |ds|, 1
  {
    if gate >= keys {
    } else if |ds| == 0 || deadline < ds[0].now {
    } else {
      var k := KeyIndex(|l.rooms|, ds[0].u);
      var room := l.rooms[k];
      assert RoomInGrid(room, rows, cols);
      if l.grid[room.ty][room.tx] == Room {
        AcceptChain(l, rows, cols, k, last, gate);
        AcceptedChain(l, rows, cols, gate, keys, last, deadline, ds);
      } else {
        PlaceKeysChain(l, rows, cols, gate, keys, last, deadline, ds[1..]);
      }
    }
  }

  /** The accepting case of `PlaceKeysChain`, on the layout after the accepted draw. */
  lemma {:induction false} AcceptedChain(l: Layout, rows: int, cols: int, gate: nat, keys: nat, last: int, deadline: int, ds: seq<KeyDraw>)
    requires GateReady(l, rows, cols) && |l.rooms| >= 3 && 0 <= last < |l.rooms| && KeyDrawsOk(|l.rooms|, ds) && gate < keys
    requires |ds| > 0 && ds[0].now <= deadline
    requires var k := KeyIndex(|l.rooms|, ds[0].u);
             Within(l.grid, Centre(l.rooms[k])) && l.grid[l.rooms[k].ty][l.rooms[k].tx] == Room &&
             KeyChain(Accept(l, rows, cols, k, last, gate), gate + 1)
    ensures PlaceKeys(l, rows, cols, gate, keys, last, deadline, ds).1 ==> KeyChain(PlaceKeys(l, rows, cols, gate, keys, last, deadline, ds).0, keys)
    decreases keys - gate, |ds|, 0
  {
    var k := KeyIndex(|l.rooms|, ds[0].u);
    PlaceKeysChain(Accept(l, rows, cols, k, last, gate), rows, cols, gate + 1, keys, k, deadline, ds[1..]);
  }

  /**
   * When key placement succeeds with three rooms or more, every gate
   * `0..keys-1` has exactly one holder, holding gate `g` with order `g + 1`;
   * the start room (order 99) and the end room (order 0) hold no key. With
   * two rooms every draw names the end room: key 0 goes to it, overwriting
   * its centre tile, and the stage succeeds exactly when there is no second
   * key. This needs no key to be handed out before the stage, which is how
   * `createRoom` leaves the records.
   */
  lemma PlaceAllKeysChain(l: Layout, rows: int, cols: int, keys: nat, u0: real, deadline: int, ds: seq<KeyDraw>)
    requires GateReady(l, rows, cols) && KeyDrawFor(|l.rooms|, u0) && KeyDrawsOk(|l.rooms|, ds) && NoKeys(l.rooms) && keys > 0
    ensures var (r, ok) := PlaceAllKeys(l, rows, cols, keys, u0, deadline, ds);
      && (|l.rooms| >= 3 && ok ==> KeyChain(r, keys))
      && (|l.rooms| == 2 ==>
            && (ok <==> keys == 1)
            && r.rooms[1].key == Some(0) && r.rooms[1].order == 1 && r.grid[r.rooms[1].ty][r.rooms[1].tx] == KeyN(0)
            && r.rooms[0].key == None && r.rooms[0].order == 99)
  {
    var (l2, k) := FirstKey(l.(rooms := Ranked(l.rooms)), rows, cols, u0);
    FirstKeyChain(l, rows, cols, u0);
    if |l.rooms| >= 3 {
      PlaceKeysChain(l2, rows, cols, 1, keys, k, deadline, ds);
    } else if keys > 1 {
      assert RoomInGrid(l2.rooms[1], rows, cols);
      PlaceKeysStuck(l2, rows, cols, 1, keys, k, deadline, ds);
    }
  }

  /**
   * Key 0. With three rooms or more it starts the chain: exactly gate 0 has a
   * holder, whatever tile its centre held before. With two rooms the key goes
   * to the end room, with order 1 and the key tile in place of its centre's.
   */
  lemma FirstKeyChain(l: Layout, rows: int, cols: int, u0: real)
    requires GateReady(l, rows, cols) && KeyDrawFor(|l.rooms|, u0) && NoKeys(l.rooms)
    ensures var (r, k) := FirstKey(l.(rooms := Ranked(l.rooms)), rows, cols, u0);
      && (|l.rooms| >= 3 ==> KeyChain(r, 1))
      && (|l.rooms| == 2 ==>
            && k == 1 && r.rooms[1].key == Some(0) && r.rooms[1].order == 1 && r.grid[r.rooms[1].ty][r.rooms[1].tx] == KeyN(0)
            && r.rooms[0].key == None && r.rooms[0].order == 99)
  {
    var l0 := l.(rooms := Ranked(l.rooms));
    var l1 := Locked(l0, l0.rooms[1].doors, 0);
    var k := KeyIndex(|l1.rooms|, u0);
    assert RoomInGrid(l1.rooms[k], rows, cols);
    if |l.rooms| >= 3 {
      assert KeyChain(l0, 0);
      LockedKeepsChain(l0, l0.rooms[1].doors, 0, 0);
      StartChain(l1, k);
    }
  }

  /**
   * With two rooms, once the end room's centre is no plain room tile, no
   * draw is ever accepted: the key loop runs until the clock passes its
   * deadline or the draws run out, and the stage fails with nothing changed.
   */
  lemma {:induction false} PlaceKeysStuck(l: Layout, rows: int, cols: int, gate: nat, keys: nat, last: int, deadline: int, ds: seq<KeyDraw>)
    requires GateReady(l, rows, cols) && |l.rooms| == 2 && 0 <= last < 2 && KeyDrawsOk(2, ds) && gate < keys
    requires Within(l.grid, Centre(l.rooms[1])) && l.grid[l.rooms[1].ty][l.rooms[1].tx] != Room
    ensures PlaceKeys(l, rows, cols, gate, keys, last, deadline, ds) == (l, false)
    decreases |ds|
  {
    if |ds| > 0 && ds[0].now <= deadline {
      assert KeyIndex(2, ds[0].u) == 1;
      PlaceKeysStuck(l, rows, cols, gate, keys, last, deadline, ds[1..]);
    }
  }

  /** The first key handed out, to a room other than the start and end rooms, makes a chain of one gate. */
  lemma StartChain(l: Layout, k: int)
    requires KeyChain(l, 0) && 2 <= k < |l.rooms| && Within(l.grid, Centre(l.rooms[k]))
    ensures KeyChain(GiveKey(l, k, 0), 1)
  {
    var l2 := GiveKey(l, k, 0);
    forall g | 0 <= g < 1
      ensures exists m :: 0 <= m < |l2.rooms| && l2.rooms[m].key == Some(g)
    {
      assert l2.rooms[k].key == Some(0);
    }
  }

  // ---------------------------------------------------------------------------
  // The solvability check

  /** Every cell listed in `doors` is no longer an obstacle. */
  function Unlocked(wl: Walls, doors: seq<Coord>): (r: Walls)
    ensures |r| == |wl| && forall i :: 0 <= i < |wl| ==> |r[i]| == |wl[i]|
  {
    seq(|wl|, i requires 0 <= i < |wl| =>
      seq(|wl[i]|, j requires 0 <= j < |wl[i]| => Coord(j, i) !in doors && wl[i][j]))
  }

  /**
   * The check's loop from room `i` on, over rooms sorted by descending order.
   * A room with order -99 is skipped; a room without a successor sets
   * `finish`; otherwise the pathfinder is asked for a path to the next room,
   * and on failure `stop` is set, on success the doors of the room two steps
   * ahead are opened. Yields the final walls and `!stop`.
   */
  function CheckFrom(wl: Walls, rs: seq<Room>, pf: Pathfinder, i: nat, stop: bool, finish: bool): (r: (Walls, bool))
    decreases |rs| - i
  {
    if i >= |rs| then (wl, !stop)
    else if stop || finish || rs[i].order == Unordered then CheckFrom(wl, rs, pf, i + 1, stop, finish)
    else if i + 1 >= |rs| then CheckFrom(wl, rs, pf, i + 1, stop, true)
    else if |pf(wl, Centre(rs[i]), Centre(rs[i + 1]))| == 0 then CheckFrom(wl, rs, pf, i + 1, true, finish)
    else CheckFrom(if i + 2 < |rs| then Unlocked(wl, rs[i + 2].doors) else wl, rs, pf, i + 1, stop, finish)
  }

  /**
   * The walls in effect when the pair `(i, i + 1)` is tested, provided every
   * earlier pair found its path: each tested pair `(j, j + 1)` before it
   * opened the doors of room `j + 2`.
   */
  function WallsAt(wl: Walls, rs: seq<Room>, i: nat): Walls
    requires i <= |rs|
  {
    if i == 0 then wl
    else if rs[i - 1].order != Unordered && i + 1 < |rs| then Unlocked(WallsAt(wl, rs, i - 1), rs[i + 1].doors)
    else WallsAt(wl, rs, i - 1)
  }

  /** The pair `(i, i + 1)` the check tests, and the walls it tests it over, has a path. */
  predicate PairConnected(wl: Walls, rs: seq<Room>, pf: Pathfinder, i: nat)
    requires i + 1 < |rs|
  {
    |pf(WallsAt(wl, rs, i), Centre(rs[i]), Centre(rs[i + 1]))| > 0
  }

  /** Once `stop` or `finish` is set, the loop changes nothing more. */
  lemma {:induction false} CheckFromSettled(wl: Walls, rs: seq<Room>, pf: Pathfinder, i: nat, stop: bool, finish: bool)
    requires stop || finish
    ensures CheckFrom(wl, rs, pf, i, stop, finish) == (wl, !stop)
    decreases |rs| - i
  {
    if i < |rs| {
      CheckFromSettled(wl, rs, pf, i + 1, stop, finish);
    }
  }

  /**
   * The check succeeds exactly when every pair it tests has a path: every
   * room `i` with a successor and an order other than -99 (this includes the
   * end room, paired with the first unordered room after it) is connected to
   * room `i + 1` over the walls as opened so far. On success the final walls
   * are those with every scheduled door opened.
   */
  lemma {:induction false} CheckFromIff(wl: Walls, rs: seq<Room>, pf: Pathfinder, i: nat)
    requires i <= |rs|
    ensures CheckFrom(WallsAt(wl, rs, i), rs, pf, i, false, false).1 <==>
            forall j :: i <= j && j + 1 < |rs| && rs[j].order != Unordered ==> PairConnected(wl, rs, pf, j)
    ensures CheckFrom(WallsAt(wl, rs, i), rs, pf, i, false, false).1 ==>
            CheckFrom(WallsAt(wl, rs, i), rs, pf, i, false, false).0 == WallsAt(wl, rs, |rs|)
    decreases |rs| - i
  {
    var w := WallsAt(wl, rs, i);
    if i == |rs| {
    } else if rs[i].order == Unordered {
      assert WallsAt(wl, rs, i + 1) == w;
      CheckFromIff(wl, rs, pf, i + 1);
    } else if i + 1 >= |rs| {
      CheckFromSettled(w, rs, pf, i + 1, false, true);
      assert WallsAt(wl, rs, i + 1) == w;
    } else if |pf(w, Centre(rs[i]), Centre(rs[i + 1]))| == 0 {
      CheckFromSettled(w, rs, pf, i + 1, true, false);
      assert !PairConnected(wl, rs, pf, i);
    } else {
      assert WallsAt(wl, rs, i + 1) == if i + 2 < |rs| then Unlocked(w, rs[i + 2].doors) else w;
      CheckFromIff(wl, rs, pf, i + 1);
    }
  }

  /** The check only ever opens cells: a cell that is open before is open after. */
  lemma {:induction false} CheckFromOpensOnly(wl: Walls, rs: seq<Room>, pf: Pathfinder, i: nat, stop: bool, finish: bool, y: int, x: int)
    requires 0 <= y < |wl| && 0 <= x < |wl[y]|
    ensures |CheckFrom(wl, rs, pf, i, stop, finish).0| == |wl|
    ensures |CheckFrom(wl, rs, pf, i, stop, finish).0[y]| == |wl[y]|
    ensures CheckFrom(wl, rs, pf, i, stop, finish).0[y][x] ==> wl[y][x]
    decreases |rs| - i
  {
    if i < |rs| {
      if stop || finish || rs[i].order == Unordered {
        CheckFromOpensOnly(wl, rs, pf, i + 1, stop, finish, y, x);
      } else if i + 1 >= |rs| {
        CheckFromOpensOnly(wl, rs, pf, i + 1, stop, true, y, x);
      } else if |pf(wl, Centre(rs[i]), Centre(rs[i + 1]))| == 0 {
        CheckFromOpensOnly(wl, rs, pf, i + 1, true, finish, y, x);
      } else {
        var w' := if i + 2 < |rs| then Unlocked(wl, rs[i + 2].doors) else wl;
        CheckFromOpensOnly(w', rs, pf, i + 1, stop, finish, y, x);
      }
    }
  }
}
