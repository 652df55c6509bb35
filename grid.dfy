/** The tile map: rows of cells, 0 for empty and 1 for a wall, indexed
    as cells[y][x], with the size the renderer passes beside it. */
module Grid {

  datatype GameMap = GameMap(cells: seq<seq<int>>, width: int, height: int)
  {
    /** Every cell inside [0, width) x [0, height) can be indexed. */
    ghost predicate Shaped()
    {
      && 0 <= height <= |cells|
      && forall y :: 0 <= y < height ==> width <= |cells[y]|
    }

    predicate InBounds(x: int, y: int)
    {
      0 <= x < width && 0 <= y < height
    }

    /** A cell is solid when it lies inside the map and holds 1; a cell
        outside the map is never solid and is never indexed. */
    predicate Solid(x: int, y: int)
      requires Shaped()
    {
      InBounds(x, y) && cells[y][x] == 1
    }
  }

  /** The level the game ships with: 10 rows of 7 cells. */
  const SampleCells: seq<seq<int>> := [
    [1,1,1,1,1,1,1],
    [1,0,0,0,0,0,1],
    [1,0,0,0,0,0,1],
    [1,0,0,0,0,0,1],
    [1,0,0,0,0,0,1],
    [1,0,1,1,1,0,1],
    [1,0,0,1,0,0,1],
    [1,0,1,1,1,0,1],
    [1,0,0,0,0,0,1],
    [1,1,1,1,1,1,1]
  ]

  /** The game map with H = number of rows and W = length of the first row. */
  function SampleMap(): (m: GameMap)
    ensures m.Shaped() && m.width == 7 && m.height == 10
    ensures forall x, y :: m.InBounds(x, y) && (x == 0 || x == 6 || y == 0 || y == 9) ==> m.Solid(x, y)
  {
    GameMap(SampleCells, |SampleCells[0]|, |SampleCells|)
  }
}
