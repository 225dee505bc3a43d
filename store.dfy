/**
 * The world store of T3/execution_part3.js: the occupancy set, the block-type
 * map, the column-height map and the set of loaded chunks, owned by one
 * `World` object that every operation receives by reference.
 */
module Store {
  import opened Voxel

  /** The abstract value of the four world tables. */
  datatype Tables = Tables(
    occupied: set<Pos>,
    types: map<Pos, BlockType>,
    heights: map<Col, int>,
    loaded: set<ChunkKey>)

  /** A column height read with the source's `|| 0` default. */
  function Height(heights: map<Col, int>, x: int, z: int): int
  {
    if Col(x, z) in heights then heights[Col(x, z)] else 0
  }

  /**
   * `getTerrainHeight(x, z)`: coordinates are rounded with `Math.round`
   * and a missing column reads as 0.
   */
  function TerrainHeight(heights: map<Col, int>, x: real, z: real): (h: int)
    ensures Col(Round(x), Round(z)) !in heights ==> h == 0
    ensures Col(Round(x), Round(z)) in heights ==> h == heights[Col(Round(x), Round(z))]
    ensures forall i: int, k: int ::
      x - 0.5 < i as real <= x + 0.5 && z - 0.5 < k as real <= z + 0.5 ==> h == Height(heights, i, k)
  {
    Height(heights, Round(x), Round(z))
  }

  /**
   * The column-height invariant the program aims for: `h` is one above the
   * highest occupied cell of column (x, z), or 0 when the column is empty.
   */
  ghost predicate IsTop(occupied: set<Pos>, x: int, z: int, h: int)
  {
    (forall y :: Pos(x, y, z) in occupied ==> y < h) &&
    (Pos(x, h - 1, z) in occupied || (h == 0 && forall y :: Pos(x, y, z) !in occupied))
  }

  /** The module-level world tables, updated in place by every operation. */
  class World {
    var occupied: set<Pos>
    var types: map<Pos, BlockType>
    var heights: map<Col, int>
    var loaded: set<ChunkKey>

    function Data(): Tables
      reads this
    {
      Tables(occupied, types, heights, loaded)
    }

    constructor ()
      ensures Data() == Tables({}, map[], map[], {})
    {
      occupied, types, heights, loaded := {}, map[], map[], {};
    }
  }

  /**
   * A set of (x, z) cells updated in place: `treePositions`,
   * `buildingPositions` and the tree generator's private registry.
   */
  class CellSet {
    var cells: set<Col>

    constructor ()
      ensures cells == {}
    {
      cells := {};
    }

    /**
     * `isTreePositionOccupied`: reports whether the cell was already taken
     * and takes it in any case, so a second claim of a cell always fails.
     */
    method Claim(c: Col) returns (taken: bool)
      modifies this
      ensures taken == (c in old(cells))
      ensures cells == old(cells) + {c}
    {
      taken := c in cells;
      if !taken {
        cells := cells + {c};
      }
    }

    method Add(c: Col)
      modifies this
      ensures cells == old(cells) + {c}
    {
      cells := cells + {c};
    }
  }
}
