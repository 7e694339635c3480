/**
 * The specifications of the stages that work on the obstacle layer alone:
 * the fresh layers `createGrid` builds, the random obstacles
 * `placeRandomWalls` scatters, and the layer `fixWalls` rebuilds from the
 * tiles.
 */
module Layers {
  import opened Tiles
  import opened Random

  /**
   * The source's border test for a fresh obstacle layer: the top row, the
   * left column, the bottom row, and the column at index `cols`, which lies
   * past the last one (so the right-hand column is never walled).
   */
  predicate Border(i: int, j: int, rows: int, cols: int)
  {
    i == 0 || j == 0 || i == rows - 1 || j == cols
  }

  /** The two `Math.random()` values one obstacle draw consumes: column, then row. */
  datatype CellDraw = CellDraw(x: real, y: real)

  predicate CellDrawsOk(ds: seq<CellDraw>)
  {
    forall k :: 0 <= k < |ds| ==> IsUnit(ds[k].x) && IsUnit(ds[k].y)
  }

  /**
   * The cell a draw picks, `($rand(1, cols - 1), $rand(1, rows - 1))`: never
   * in the first row or column, and never in the last ones once there are
   * three of them.
   */
  function DrawnCell(rows: int, cols: int, d: CellDraw): (c: Coord)
    requires IsUnit(d.x) && IsUnit(d.y) && rows >= 2 && cols >= 2
    ensures InBounds(c, rows, cols) && 1 <= c.x && 1 <= c.y
    ensures cols >= 3 ==> c.x < cols - 1
    ensures rows >= 3 ==> c.y < rows - 1
  {
    Coord(Rand(1, cols - 1, d.x), Rand(1, rows - 1, d.y))
  }

  /** The obstacle layer after `count` draws from `ds`, each marking its cell. */
  function ScatterWalls(wl: Walls, rows: int, cols: int, ds: seq<CellDraw>, count: int): (r: Walls)
    requires IsRect(wl, rows, cols) && rows >= 2 && cols >= 2 && CellDrawsOk(ds) && count <= |ds|
    ensures IsRect(r, rows, cols)
    decreases count
  {
    if count <= 0 then wl
    else ScatterWalls(Set(wl, DrawnCell(rows, cols, ds[0]), true), rows, cols, ds[1..], count - 1)
  }

  /**
   * Exactly the drawn cells become obstacles: a cell is an obstacle afterwards
   * if and only if it was one before or one of the first `count` draws picked it.
   */
  lemma {:induction false} ScatterWallsCells(wl: Walls, rows: int, cols: int, ds: seq<CellDraw>, count: int, i: int, j: int)
    requires IsRect(wl, rows, cols) && rows >= 2 && cols >= 2 && CellDrawsOk(ds) && count <= |ds|
    requires 0 <= i < rows && 0 <= j < cols
    ensures ScatterWalls(wl, rows, cols, ds, count)[i][j] <==>
            wl[i][j] || exists k :: 0 <= k < count && DrawnCell(rows, cols, ds[k]) == Coord(j, i)
    decreases count
  {
    if count > 0 {
      var c := DrawnCell(rows, cols, ds[0]);
      var wl1 := Set(wl, c, true);
      ScatterWallsCells(wl1, rows, cols, ds[1..], count - 1, i, j);
      if exists k :: 0 <= k < count - 1 && DrawnCell(rows, cols, ds[1..][k]) == Coord(j, i) {
        var k :| 0 <= k < count - 1 && DrawnCell(rows, cols, ds[1..][k]) == Coord(j, i);
        assert DrawnCell(rows, cols, ds[k + 1]) == Coord(j, i);
      }
      if exists k :: 0 <= k < count && DrawnCell(rows, cols, ds[k]) == Coord(j, i) {
        var k :| 0 <= k < count && DrawnCell(rows, cols, ds[k]) == Coord(j, i);
        if k > 0 {
          assert DrawnCell(rows, cols, ds[1..][k - 1]) == Coord(j, i);
        }
      }
    }
  }
}
