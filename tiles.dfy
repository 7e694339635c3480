/**
 * Tiles, coordinates and the two parallel layers of a dungeon: the tile grid
 * and the obstacle ("walls") grid, both indexed [row][column], i.e. [y][x].
 */
module Tiles {

  datatype Option<T> = None | Some(value: T)

  /** The tile kinds the generator writes. `DoorN(i)` and `KeyN(i)` carry a gate index. */
  datatype Tile = Empty | Room | Hall | Door | DoorN(gate: nat) | KeyN(gate: nat) | Start | End

  predicate IsDoorTile(t: Tile) { t.Door? || t.DoorN? }

  /** A cell position as the pathfinder reports it: column first, then row. */
  datatype Coord = Coord(x: int, y: int)

  type Grid = seq<seq<Tile>>
  type Walls = seq<seq<bool>>

  /** `g` has `h` rows of `w` cells each. */
  predicate IsRect<T>(g: seq<seq<T>>, h: int, w: int)
  {
    |g| == h && forall i :: 0 <= i < |g| ==> |g[i]| == w
  }

  predicate InBounds(c: Coord, h: int, w: int)
  {
    0 <= c.y < h && 0 <= c.x < w
  }

  /** `c` names an existing cell of `g`. */
  predicate Within<T>(g: seq<seq<T>>, c: Coord)
  {
    0 <= c.y < |g| && 0 <= c.x < |g[c.y]|
  }

  /**
   * The cell at row `i`, column `j` exists and holds `t`. A read outside the
   * grid yields no tile at all, so it never equals any tile.
   */
  predicate IsAt(g: Grid, i: int, j: int, t: Tile)
  {
    0 <= i < |g| && 0 <= j < |g[i]| && g[i][j] == t
  }

  /** The same layer with the single cell `c` overwritten by `v`. */
  function Set<T>(g: seq<seq<T>>, c: Coord, v: T): (r: seq<seq<T>>)
    requires Within(g, c)
    ensures |r| == |g|
    ensures forall i :: 0 <= i < |g| ==> |r[i]| == |g[i]|
    ensures forall i, j :: 0 <= i < |g| && 0 <= j < |g[i]| ==>
              r[i][j] == if i == c.y && j == c.x then v else g[i][j]
  {
    g[c.y := g[c.y][c.x := v]]
  }

  /** Two layers of the same shape that agree on every cell are equal. */
  lemma SameCells<T>(a: seq<seq<T>>, b: seq<seq<T>>)
    requires |a| == |b| && forall i :: 0 <= i < |a| ==> |a[i]| == |b[i]|
    requires forall i, j :: 0 <= i < |a| && 0 <= j < |a[i]| ==> a[i][j] == b[i][j]
    ensures a == b
  {
    forall i | 0 <= i < |a|
      ensures a[i] == b[i]
    {
      assert forall j :: 0 <= j < |a[i]| ==> a[i][j] == b[i][j];
    }
  }
}
