/**
 * The room record the generator keeps for every placed room, the door
 * bookkeeping on it, and the two orders the room list is sorted into.
 */
module Rooms {
  import opened Tiles

  /**
   * A placed room. As in the source, `width` and `height` hold the right and
   * bottom edge (`x + width`, `y + height` of the placed rectangle), so the
   * box the door bookkeeping tests is `[x..width] × [y..height]`, both ends
   * included. `(tx, ty)` is the room's centre, `key` the gate whose key lies
   * in the room (none yet: the source's `''`), `order` its dependency rank
   * (-99 while unset).
   */
  datatype Room = Record(x: int, y: int, tx: int, ty: int, width: int, height: int,
                         doors: seq<Coord>, key: Option<nat>, order: int)

  const Unordered := -99

  function Centre(r: Room): Coord
  {
    Coord(r.tx, r.ty)
  }

  /** The door-bookkeeping box of `r` contains `c`. */
  predicate Contains(r: Room, c: Coord)
  {
    r.x <= c.x <= r.width && r.y <= c.y <= r.height
  }

  /** The rooms after a door at `c` is recorded against every room whose box contains it. */
  function WithDoor(rs: seq<Room>, c: Coord): (r: seq<Room>)
    ensures |r| == |rs|
  {
    seq(|rs|, k requires 0 <= k < |rs| =>
      if Contains(rs[k], c) then rs[k].(doors := rs[k].doors + [c]) else rs[k])
  }

  /**
   * Recording a door changes nothing but door lists: every room keeps its box,
   * centre, key and order; a room whose box contains `c` gains exactly `c` at
   * the end of its doors, and every other room is untouched.
   */
  lemma WithDoorEffect(rs: seq<Room>, c: Coord, k: int)
    requires 0 <= k < |rs|
    ensures WithDoor(rs, c)[k] == rs[k].(doors := WithDoor(rs, c)[k].doors)
    ensures Contains(rs[k], c) ==> WithDoor(rs, c)[k].doors == rs[k].doors + [c]
    ensures !Contains(rs[k], c) ==> WithDoor(rs, c)[k] == rs[k]
  {
  }

  // ---------------------------------------------------------------------------
  // Sorting. The source sorts the room array in place twice: by ascending door
  // count (to pick start and end) and by descending order (to check the key
  // chain). Any sorting algorithm meets the source's contract; ties are not
  // ordered by it.

  /** The two sort keys; sorting by `OrderDesc` is ascending on `-order`. */
  datatype SortKey = DoorCount | OrderDesc

  function KeyOf(r: Room, k: SortKey): int
  {
    match k
    case DoorCount => |r.doors|
    case OrderDesc => -r.order
  }

  predicate SortedBy(s: seq<Room>, k: SortKey)
  {
    forall i, j :: 0 <= i < j < |s| ==> KeyOf(s[i], k) <= KeyOf(s[j], k)
  }

  /** `r` inserted into the sorted `s` in front of the first element with a larger key. */
  function Insert(s: seq<Room>, r: Room, k: SortKey): (t: seq<Room>)
    requires SortedBy(s, k)
    ensures SortedBy(t, k)
    ensures multiset(t) == multiset(s) + multiset{r}
    decreases |s|
  {
    if |s| == 0 then [r]
    else if KeyOf(r, k) <= KeyOf(s[0], k) then
      ConsSorted(r, s, k);
      [r] + s
    else
      var rest := Insert(s[1..], r, k);
      LowerBound(s, r, k, rest);
      ConsSorted(s[0], rest, k);
      assert s == [s[0]] + s[1..];
      [s[0]] + rest
  }

  /** A room with a key no larger than any in the sorted `s` can go in front. */
  lemma ConsSorted(x: Room, s: seq<Room>, k: SortKey)
    requires SortedBy(s, k)
    requires |s| > 0 ==> KeyOf(x, k) <= KeyOf(s[0], k)
    ensures SortedBy([x] + s, k)
  {
    var t := [x] + s;
    forall i, j | 0 <= i < j < |t|
      ensures KeyOf(t[i], k) <= KeyOf(t[j], k)
    {
      if i == 0 {
        assert t[j] == s[j - 1];
        if j > 1 {
          assert KeyOf(s[0], k) <= KeyOf(s[j - 1], k);
        }
      } else {
        assert t[i] == s[i - 1] && t[j] == s[j - 1];
      }
    }
  }

  /** Every element of a permutation of the tail of `s` plus a larger `r` has a key no smaller than `s[0]`'s. */
  lemma LowerBound(s: seq<Room>, r: Room, k: SortKey, rest: seq<Room>)
    requires SortedBy(s, k) && |s| > 0 && KeyOf(s[0], k) < KeyOf(r, k)
    requires multiset(rest) == multiset(s[1..]) + multiset{r}
    ensures forall j :: 0 <= j < |rest| ==> KeyOf(s[0], k) <= KeyOf(rest[j], k)
  {
    forall j | 0 <= j < |rest|
      ensures KeyOf(s[0], k) <= KeyOf(rest[j], k)
    {
      assert rest[j] in multiset(rest);
      if rest[j] != r {
        assert rest[j] in multiset(s[1..]);
        var m :| 0 <= m < |s[1..]| && s[1..][m] == rest[j];
        assert s[m + 1] == rest[j];
      }
    }
  }

  /** Sorts `s` on the key `k`: the result is ordered and is a permutation of `s`. */
  method SortBy(s: seq<Room>, k: SortKey) returns (t: seq<Room>)
    ensures SortedBy(t, k)
    ensures multiset(t) == multiset(s)
  {
    t := [];
    for i := 0 to |s|
      invariant SortedBy(t, k)
      invariant multiset(t) == multiset(s[..i])
    {
      assert s[..i + 1] == s[..i] + [s[i]];
      t := Insert(t, s[i], k);
    }
    assert s[..|s|] == s;
  }

  /** Every room of a permutation of `s` is a room of `s`, and conversely. */
  lemma PermutationMembers(s: seq<Room>, t: seq<Room>, i: int)
    requires multiset(t) == multiset(s) && 0 <= i < |t|
    ensures t[i] in s
  {
    assert t[i] in multiset(t);
  }

  // ---------------------------------------------------------------------------
  // The generator's whole mutable state, as a value: the tile grid, the
  // obstacle grid and the room list.

  datatype Layout = Layout(grid: Grid, walls: Walls, rooms: seq<Room>)

  /** Both layers have `h` rows of `w` cells. */
  predicate Shaped(l: Layout, h: int, w: int)
  {
    IsRect(l.grid, h, w) && IsRect(l.walls, h, w)
  }

  /** A room's centre and all its recorded doors are cells of an `h` × `w` grid. */
  predicate RoomInGrid(r: Room, h: int, w: int)
  {
    InBounds(Centre(r), h, w) && forall d :: 0 <= d < |r.doors| ==> InBounds(r.doors[d], h, w)
  }

  predicate RoomsInGrid(rs: seq<Room>, h: int, w: int)
  {
    forall k :: 0 <= k < |rs| ==> RoomInGrid(rs[k], h, w)
  }

  /** Sorting keeps every room in the grid. */
  lemma PermutationInGrid(s: seq<Room>, t: seq<Room>, h: int, w: int)
    requires multiset(t) == multiset(s) && RoomsInGrid(s, h, w)
    ensures RoomsInGrid(t, h, w)
  {
    forall k | 0 <= k < |t|
      ensures RoomInGrid(t[k], h, w)
    {
      PermutationMembers(s, t, k);
    }
  }
}
