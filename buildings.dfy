/**
 * Building placement support of T3/scripts/buildings.js: the surface
 * minimum and maximum over a rectangle (`getMinSurfaceHeight`,
 * `getMaxSurfaceHeight`), terrain flattening under a footprint
 * (`forceTerrainFlat`) and writing a building's voxels (`addBuilding`).
 */
module Buildings {
  import opened Wrappers
  import opened Voxel
  import opened Store

  /** The number of passes of `for (v = a; v < a + n; v++)`: none when n is not positive. */
  function Count(n: int): (c: nat)
    ensures n >= 0 ==> c == n
    ensures n < 0 ==> c == 0
  {
    if n < 0 then 0 else n
  }

  /** `getTerrainHeight(x, z, map)` at integer coordinates reads the column itself. */
  lemma IntegerTerrainHeight(heights: map<Col, int>, x: int, z: int)
    ensures TerrainHeight(heights, x as real, z as real) == Height(heights, x, z)
  {
    assert Round(x as real) == x;
    assert Round(z as real) == z;
  }

  // ---------------------------------------------------------------------
  // getMinSurfaceHeight / getMaxSurfaceHeight

  /** One comparison of the minimum loop; None stands for the initial `Infinity`. */
  function Lower(m: Option<int>, h: int): Option<int>
  {
    if m.None? || h < m.value then Some(h) else m
  }

  /** The inner z loop of the minimum over column x, from z0 for n steps, starting from m. */
  function StripMin(heights: map<Col, int>, m: Option<int>, x: int, z0: int, n: nat): Option<int>
  {
    if n == 0 then m else Lower(StripMin(heights, m, x, z0, n - 1), Height(heights, x, z0 + n - 1))
  }

  /** The minimum loops over [x0, x0 + nx) × [z0, z0 + nz). */
  function RectMin(heights: map<Col, int>, x0: int, z0: int, nx: nat, nz: nat): Option<int>
  {
    if nx == 0 then None else StripMin(heights, RectMin(heights, x0, z0, nx - 1, nz), x0 + nx - 1, z0, nz)
  }

  lemma {:induction false} StripMinBounds(heights: map<Col, int>, m: Option<int>, x: int, z0: int, n: nat)
    ensures var r := StripMin(heights, m, x, z0, n);
      (r.None? <==> m.None? && n == 0) &&
      (r.Some? ==>
        (m.Some? ==> r.value <= m.value) &&
        (forall z | z0 <= z < z0 + n :: r.value <= Height(heights, x, z)) &&
        ((m.Some? && r.value == m.value) || exists z | z0 <= z < z0 + n :: Height(heights, x, z) == r.value))
  {
    if n > 0 {
      StripMinBounds(heights, m, x, z0, n - 1);
    }
  }

  /**
   * `getMinSurfaceHeight` yields no value (`Infinity`) exactly for an
   * empty rectangle, and otherwise the least column height in it, with
   * missing columns read as 0.
   */
  lemma {:induction false} RectMinIsLeast(heights: map<Col, int>, x0: int, z0: int, nx: nat, nz: nat)
    ensures var r := RectMin(heights, x0, z0, nx, nz);
      (r.None? <==> nx == 0 || nz == 0) &&
      (r.Some? ==>
        (forall x, z | x0 <= x < x0 + nx && z0 <= z < z0 + nz :: r.value <= Height(heights, x, z)) &&
        (exists x, z | x0 <= x < x0 + nx && z0 <= z < z0 + nz :: Height(heights, x, z) == r.value))
  {
    if nx > 0 {
      var prev := RectMin(heights, x0, z0, nx - 1, nz);
      RectMinIsLeast(heights, x0, z0, nx - 1, nz);
      StripMinBounds(heights, prev, x0 + nx - 1, z0, nz);
      var r := RectMin(heights, x0, z0, nx, nz);
      if r.Some? {
        forall x, z | x0 <= x < x0 + nx && z0 <= z < z0 + nz
          ensures r.value <= Height(heights, x, z)
        {
          if x < x0 + nx - 1 {
            assert prev.Some?;
          }
        }
        if prev.Some? && r.value == prev.value {
          var x, z :| x0 <= x < x0 + nx - 1 && z0 <= z < z0 + nz && Height(heights, x, z) == prev.value;
        } else {
          var z :| z0 <= z < z0 + nz && Height(heights, x0 + nx - 1, z) == r.value;
        }
      }
    }
  }

  /** `getMinSurfaceHeight(baseX, baseZ, width, depth, terrainHeightMap)`. */
  method MinSurfaceHeight(heights: map<Col, int>, baseX: int, baseZ: int, width: int, depth: int) returns (m: Option<int>)
    ensures m == RectMin(heights, baseX, baseZ, Count(width), Count(depth))
  {
    m := None;
    var x := baseX;
    while x < baseX + width
      invariant x == baseX + Count(x - baseX)
      invariant x - baseX <= Count(width)
      invariant m == RectMin(heights, baseX, baseZ, x - baseX, Count(depth))
    {
      ghost var before := m;
      var z := baseZ;
      while z < baseZ + depth
        invariant z == baseZ + Count(z - baseZ)
        invariant z - baseZ <= Count(depth)
        invariant m == StripMin(heights, before, x, baseZ, z - baseZ)
      {
        var h := if Col(x, z) in heights then heights[Col(x, z)] else 0;
        if m.None? || h < m.value {
          m := Some(h);
        }
        z := z + 1;
      }
      x := x + 1;
    }
  }

  /** One comparison of the maximum loop. */
  function Raise(m: int, h: int): int
  {
    if h > m then h else m
  }

  /** The inner z loop of the maximum over column x. */
  function StripMax(heights: map<Col, int>, m: int, x: int, z0: int, n: nat): int
  {
    if n == 0 then m else Raise(StripMax(heights, m, x, z0, n - 1), Height(heights, x, z0 + n - 1))
  }

  /** The maximum loops over [x0, x0 + nx) × [z0, z0 + nz), starting from 0. */
  function RectMax(heights: map<Col, int>, x0: int, z0: int, nx: nat, nz: nat): int
  {
    if nx == 0 then 0 else StripMax(heights, RectMax(heights, x0, z0, nx - 1, nz), x0 + nx - 1, z0, nz)
  }

  lemma {:induction false} StripMaxBounds(heights: map<Col, int>, m: int, x: int, z0: int, n: nat)
    ensures var r := StripMax(heights, m, x, z0, n);
      m <= r &&
      (forall z | z0 <= z < z0 + n :: Height(heights, x, z) <= r) &&
      (r == m || exists z | z0 <= z < z0 + n :: Height(heights, x, z) == r)
  {
    if n > 0 {
      StripMaxBounds(heights, m, x, z0, n - 1);
    }
  }

  /**
   * `getMaxSurfaceHeight` is never below 0, bounds every column height in
   * the rectangle, and is 0 or one of those heights.
   */
  lemma {:induction false} RectMaxIsGreatest(heights: map<Col, int>, x0: int, z0: int, nx: nat, nz: nat)
    ensures var r := RectMax(heights, x0, z0, nx, nz);
      0 <= r &&
      (forall x, z | x0 <= x < x0 + nx && z0 <= z < z0 + nz :: Height(heights, x, z) <= r) &&
      (r == 0 || exists x, z | x0 <= x < x0 + nx && z0 <= z < z0 + nz :: Height(heights, x, z) == r)
  {
    if nx > 0 {
      var prev := RectMax(heights, x0, z0, nx - 1, nz);
      RectMaxIsGreatest(heights, x0, z0, nx - 1, nz);
      StripMaxBounds(heights, prev, x0 + nx - 1, z0, nz);
      var r := RectMax(heights, x0, z0, nx, nz);
      if r != 0 {
        if r == prev {
          var x, z :| x0 <= x < x0 + nx - 1 && z0 <= z < z0 + nz && Height(heights, x, z) == prev;
        } else {
          var z :| z0 <= z < z0 + nz && Height(heights, x0 + nx - 1, z) == r;
        }
      }
    }
  }

  /** `getMaxSurfaceHeight(baseX, baseZ, width, depth, terrainHeightMap)`. */
  method MaxSurfaceHeight(heights: map<Col, int>, baseX: int, baseZ: int, width: int, depth: int) returns (m: int)
    ensures m == RectMax(heights, baseX, baseZ, Count(width), Count(depth))
  {
    m := 0;
    var x := baseX;
    while x < baseX + width
      invariant x == baseX + Count(x - baseX)
      invariant x - baseX <= Count(width)
      invariant m == RectMax(heights, baseX, baseZ, x - baseX, Count(depth))
    {
      ghost var before := m;
      var z := baseZ;
      while z < baseZ + depth
        invariant z == baseZ + Count(z - baseZ)
        invariant z - baseZ <= Count(depth)
        invariant m == StripMax(heights, before, x, baseZ, z - baseZ)
      {
        var h := if Col(x, z) in heights then heights[Col(x, z)] else 0;
        if h > m {
          m := h;
        }
        z := z + 1;
      }
      x := x + 1;
    }
  }

  // ---------------------------------------------------------------------
  // forceTerrainFlat

  /**
   * The state `forceTerrainFlat` threads through its steps: the world
   * tables, the saved Water cells (`waterBlocks`) and the cells queued
   * for the Dirt mesh (`positions`).
   */
  datatype Flat = Flat(t: Tables, water: set<Pos>, written: set<Pos>)

  /** The occupied cells of [x0, x1) × [z0, z1) above y = fill and at or below their column height. */
  function Doomed(t: Tables, x0: int, x1: int, z0: int, z1: int, fill: int): set<Pos>
  {
    set p | p in t.occupied && x0 <= p.x < x1 && z0 <= p.z < z1 && fill < p.y <= Height(t.heights, p.x, p.z)
  }

  /** The cells of d recorded as Water. */
  function WaterIn(types: map<Pos, BlockType>, d: set<Pos>): set<Pos>
  {
    set p | p in d && p in types && types[p] == Water
  }

  /** Step 1 on one cell: an occupied cell is deleted, and saved first when it is Water. */
  function ClearCell(s: Flat, p: Pos): Flat
  {
    if p !in s.t.occupied then s
    else
      Flat(s.t.(occupied := s.t.occupied - {p}, types := s.t.types - {p}),
           if p in s.t.types && s.t.types[p] == Water then s.water + {p} else s.water,
           s.written)
  }

  /** Step 1 on column (x, z): the cells y = fill + 1 .. fill + n. */
  function ClearColumn(s: Flat, x: int, z: int, fill: int, n: nat): Flat
  {
    if n == 0 then s else ClearCell(ClearColumn(s, x, z, fill, n - 1), Pos(x, fill + n, z))
  }

  /** Step 1 on the first n columns z = bz .. of row x, each up to its recorded height. */
  function ClearStrip(s: Flat, x: int, bz: int, fill: int, n: nat): Flat
  {
    if n == 0 then s
    else
      var s' := ClearStrip(s, x, bz, fill, n - 1);
      ClearColumn(s', x, bz + n - 1, fill, Count(Height(s'.t.heights, x, bz + n - 1) - fill))
  }

  /** Step 1 on the first n rows x = bx .. of a footprint of depth d. */
  function ClearArea(s: Flat, bx: int, bz: int, d: nat, fill: int, n: nat): Flat
  {
    if n == 0 then s else ClearStrip(ClearArea(s, bx, bz, d, fill, n - 1), bx + n - 1, bz, fill, d)
  }

  /** The effect of clearing the cells of region `d`: they are deleted, their Water cells saved, nothing else changes. */
  ghost predicate Cleared(s: Flat, u: Flat, d: set<Pos>)
  {
    u.t.occupied == s.t.occupied - d && u.t.types == s.t.types - d &&
    u.t.heights == s.t.heights && u.t.loaded == s.t.loaded &&
    u.water == s.water + WaterIn(s.t.types, d) && u.written == s.written
  }

  lemma {:induction false} ClearColumnEffect(s: Flat, x: int, z: int, fill: int, n: nat)
    ensures Cleared(s, ClearColumn(s, x, z, fill, n),
      set p | p in s.t.occupied && p.x == x && p.z == z && fill < p.y <= fill + n)
  {
    var d := set p | p in s.t.occupied && p.x == x && p.z == z && fill < p.y <= fill + n;
    if n == 0 {
      assert d == {};
      assert s.t.types - d == s.t.types;
    } else {
      var d' := set p | p in s.t.occupied && p.x == x && p.z == z && fill < p.y <= fill + n - 1;
      ClearColumnEffect(s, x, z, fill, n - 1);
      var p := Pos(x, fill + n, z);
      if p in s.t.occupied {
        assert d == d' + {p};
        assert s.t.types - d == (s.t.types - d') - {p};
        assert WaterIn(s.t.types, d) == WaterIn(s.t.types, d') + (if p in s.t.types && s.t.types[p] == Water then {p} else {});
      } else {
        assert d == d';
      }
    }
  }

  /** Clearing d1 and then, from the cleared state, a region d2 disjoint from d1 clears d1 + d2. */
  lemma ClearedTrans(s: Flat, m: Flat, u: Flat, d1: set<Pos>, d2: set<Pos>, d2': set<Pos>)
    requires Cleared(s, m, d1) && Cleared(m, u, d2')
    requires d2' == d2 * m.t.occupied && d2 <= s.t.occupied && d1 !! d2
    ensures Cleared(s, u, d1 + d2)
  {
    assert d2' == d2;
    assert u.t.types == s.t.types - (d1 + d2);
    assert WaterIn(m.t.types, d2) == WaterIn(s.t.types, d2);
    assert WaterIn(s.t.types, d1 + d2) == WaterIn(s.t.types, d1) + WaterIn(s.t.types, d2);
  }

  lemma DoomedSplitZ(t: Tables, x0: int, x1: int, z0: int, z: int, fill: int)
    requires z0 <= z
    ensures Doomed(t, x0, x1, z0, z + 1, fill) == Doomed(t, x0, x1, z0, z, fill) + Doomed(t, x0, x1, z, z + 1, fill)
  {
  }

  lemma DoomedSplitX(t: Tables, x0: int, x: int, z0: int, z1: int, fill: int)
    requires x0 <= x
    ensures Doomed(t, x0, x + 1, z0, z1, fill) == Doomed(t, x0, x, z0, z1, fill) + Doomed(t, x, x + 1, z0, z1, fill)
  {
  }

  /** With the same heights, the doomed cells of a state with fewer occupied cells are the old ones still occupied. */
  lemma DoomedRestrict(t: Tables, u: Tables, x0: int, x1: int, z0: int, z1: int, fill: int)
    requires u.heights == t.heights && u.occupied <= t.occupied
    ensures Doomed(u, x0, x1, z0, z1, fill) == Doomed(t, x0, x1, z0, z1, fill) * u.occupied
  {
  }

  /** The cells the y loop of column (x, z) visits and finds occupied are that column's doomed cells. */
  lemma ColumnDoomed(t: Tables, u: Tables, x: int, z: int, fill: int)
    requires u.heights == t.heights && u.occupied <= t.occupied
    ensures var k := Count(Height(u.heights, x, z) - fill);
      (set p | p in u.occupied && p.x == x && p.z == z && fill < p.y <= fill + k) == Doomed(t, x, x + 1, z, z + 1, fill) * u.occupied
  {
  }

  /** One column more of a strip: the column's visited cells complete the strip's doomed region. */
  lemma ClearStripStep(s: Flat, m: Flat, u: Flat, x: int, bz: int, z: int, fill: int, k: nat)
    requires bz <= z && Cleared(s, m, Doomed(s.t, x, x + 1, bz, z, fill))
    requires k == Count(Height(m.t.heights, x, z) - fill)
    requires Cleared(m, u, set p | p in m.t.occupied && p.x == x && p.z == z && fill < p.y <= fill + k)
    ensures Cleared(s, u, Doomed(s.t, x, x + 1, bz, z + 1, fill))
  {
    var col := Doomed(s.t, x, x + 1, z, z + 1, fill);
    ColumnDoomed(s.t, m.t, x, z, fill);
    DoomedSplitZ(s.t, x, x + 1, bz, z, fill);
    assert Doomed(s.t, x, x + 1, bz, z, fill) !! col;
    ClearedTrans(s, m, u, Doomed(s.t, x, x + 1, bz, z, fill), col,
      set p | p in m.t.occupied && p.x == x && p.z == z && fill < p.y <= fill + k);
  }

  lemma {:induction false} ClearStripEffect(s: Flat, x: int, bz: int, fill: int, n: nat)
    ensures Cleared(s, ClearStrip(s, x, bz, fill, n), Doomed(s.t, x, x + 1, bz, bz + n, fill))
  {
    if n == 0 {
      assert Doomed(s.t, x, x + 1, bz, bz, fill) == {};
      assert s.t.types - {} == s.t.types;
    } else {
      var m := ClearStrip(s, x, bz, fill, n - 1);
      ClearStripEffect(s, x, bz, fill, n - 1);
      var z := bz + n - 1;
      var k := Count(Height(m.t.heights, x, z) - fill);
      ClearColumnEffect(m, x, z, fill, k);
      ClearStripStep(s, m, ClearStrip(s, x, bz, fill, n), x, bz, z, fill, k);
    }
  }

  /** One row more of the footprint: the row's doomed cells complete the area's doomed region. */
  lemma ClearAreaStep(s: Flat, m: Flat, u: Flat, bx: int, x: int, z0: int, z1: int, fill: int)
    requires bx <= x && Cleared(s, m, Doomed(s.t, bx, x, z0, z1, fill))
    requires Cleared(m, u, Doomed(m.t, x, x + 1, z0, z1, fill))
    ensures Cleared(s, u, Doomed(s.t, bx, x + 1, z0, z1, fill))
  {
    var row := Doomed(s.t, x, x + 1, z0, z1, fill);
    DoomedRestrict(s.t, m.t, x, x + 1, z0, z1, fill);
    DoomedSplitX(s.t, bx, x, z0, z1, fill);
    assert Doomed(s.t, bx, x, z0, z1, fill) !! row;
    ClearedTrans(s, m, u, Doomed(s.t, bx, x, z0, z1, fill), row, Doomed(m.t, x, x + 1, z0, z1, fill));
  }

  /**
   * Step 1 of `forceTerrainFlat`: exactly the occupied footprint cells
   * above y = fill and at or below their column height are deleted with
   * their types, the Water ones among them are saved, and heights and
   * loaded chunks stay.
   */
  lemma {:induction false} ClearAreaEffect(s: Flat, bx: int, bz: int, d: nat, fill: int, n: nat)
    ensures Cleared(s, ClearArea(s, bx, bz, d, fill, n), Doomed(s.t, bx, bx + n, bz, bz + d, fill))
  {
    if n == 0 {
      assert Doomed(s.t, bx, bx, bz, bz + d, fill) == {};
      assert s.t.types - {} == s.t.types;
    } else {
      var m := ClearArea(s, bx, bz, d, fill, n - 1);
      ClearAreaEffect(s, bx, bz, d, fill, n - 1);
      var x := bx + n - 1;
      ClearStripEffect(m, x, bz, fill, d);
      ClearAreaStep(s, m, ClearArea(s, bx, bz, d, fill, n), bx, x, bz, bz + d, fill);
    }
  }

  /** Step 1, the y loop of one column. */
  method ClearColumnCells(w: World, x: int, z: int, fill: int, top: int, water: set<Pos>) returns (water': set<Pos>)
    modifies w
    ensures Flat(w.Data(), water', {}) == ClearColumn(Flat(old(w.Data()), water, {}), x, z, fill, Count(top - fill))
  {
    water' := water;
    var y := fill + 1;
    while y <= top
      invariant fill + 1 <= y <= fill + 1 + Count(top - fill)
      invariant Flat(w.Data(), water', {}) == ClearColumn(Flat(old(w.Data()), water, {}), x, z, fill, y - fill - 1)
    {
      var p := Pos(x, y, z);
      if p in w.occupied {
        if p in w.types && w.types[p] == Water {
          water' := water' + {p};
        }
        w.occupied := w.occupied - {p};
        w.types := w.types - {p};
      }
      y := y + 1;
    }
  }

  /** Step 1, the z loop of one row. */
  method ClearStripCells(w: World, x: int, bz: int, depth: int, fill: int, water: set<Pos>) returns (water': set<Pos>)
    modifies w
    ensures Flat(w.Data(), water', {}) == ClearStrip(Flat(old(w.Data()), water, {}), x, bz, fill, Count(depth))
  {
    water' := water;
    var z := bz;
    while z < bz + depth
      invariant z == bz + Count(z - bz) && z - bz <= Count(depth)
      invariant Flat(w.Data(), water', {}) == ClearStrip(Flat(old(w.Data()), water, {}), x, bz, fill, z - bz)
    {
      var top := if Col(x, z) in w.heights then w.heights[Col(x, z)] else 0;
      water' := ClearColumnCells(w, x, z, fill, top, water');
      z := z + 1;
    }
  }

  /** Step 1 of `forceTerrainFlat`: the x loop over the footprint. */
  method ClearFootprint(w: World, bx: int, bz: int, width: int, depth: int, fill: int) returns (water: set<Pos>)
    modifies w
    ensures Flat(w.Data(), water, {}) == ClearArea(Flat(old(w.Data()), {}, {}), bx, bz, Count(depth), fill, Count(width))
  {
    water := {};
    var x := bx;
    while x < bx + width
      invariant x == bx + Count(x - bx) && x - bx <= Count(width)
      invariant Flat(w.Data(), water, {}) == ClearArea(Flat(old(w.Data()), {}, {}), bx, bz, Count(depth), fill, x - bx)
    {
      water := ClearStripCells(w, x, bz, depth, fill, water);
      x := x + 1;
    }
  }

  /** Whether (x, z) lies in the footprint [bx, bx + w) × [bz, bz + d). */
  predicate InFootprint(x: int, z: int, bx: int, bz: int, w: int, d: int)
  {
    bx <= x < bx + w && bz <= z < bz + d
  }

  /**
   * Step 2 on column (x, z): the cell at y = fill is written as Dirt unless
   * it is occupied, the cell above it is occupied and the column height is
   * at least fill; the column height becomes at least fill + 1.
   */
  function FillCell(s: Flat, x: int, z: int, fill: int): Flat
  {
    var p := Pos(x, fill, z);
    var s1 := if Pos(x, fill + 1, z) !in s.t.occupied || p !in s.t.occupied || Height(s.t.heights, x, z) < fill
      then Flat(s.t.(occupied := s.t.occupied + {p}, types := s.t.types[p := Dirt]), s.water, s.written + {p})
      else s;
    s1.(t := s1.t.(heights := s1.t.heights[Col(x, z) := Max(Height(s1.t.heights, x, z), fill + 1)]))
  }

  /** Step 2 on the first n columns z = bz .. of row x. */
  function FillStrip(s: Flat, x: int, bz: int, fill: int, n: nat): Flat
  {
    if n == 0 then s else FillCell(FillStrip(s, x, bz, fill, n - 1), x, bz + n - 1, fill)
  }

  /** Step 2 on the first n rows x = bx .. of a footprint of depth d. */
  function FillArea(s: Flat, bx: int, bz: int, d: nat, fill: int, n: nat): Flat
  {
    if n == 0 then s else FillStrip(FillArea(s, bx, bz, d, fill, n - 1), bx + n - 1, bz, fill, d)
  }

  /** The footprint cells at y = fill. */
  function Level(bx: int, bz: int, w: int, d: int, fill: int): set<Pos>
  {
    set x, z | bx <= x < bx + w && bz <= z < bz + d :: Pos(x, fill, z)
  }

  /**
   * Only cells of `level` become occupied or queued, every cell that
   * becomes occupied is queued, each queued cell is recorded as Dirt, and
   * no type outside `level` changes.
   */
  ghost predicate WritesWithin(s: Flat, u: Flat, level: set<Pos>)
  {
    s.t.occupied <= u.t.occupied <= s.t.occupied + level &&
    u.t.types - level == s.t.types - level &&
    s.written <= u.written <= s.written + level &&
    u.t.occupied - s.t.occupied <= u.written &&
    (forall p | p in u.written - s.written :: p in u.t.types && u.t.types[p] == Dirt)
  }

  lemma WritesWithinTrans(s: Flat, m: Flat, u: Flat, l1: set<Pos>, l2: set<Pos>)
    requires WritesWithin(s, m, l1) && WritesWithin(m, u, l2) && l1 !! l2
    ensures WritesWithin(s, u, l1 + l2)
  {
    assert u.t.types - (l1 + l2) == (u.t.types - l2) - l1;
    assert s.t.types - (l1 + l2) == (s.t.types - l1) - l2;
    assert (m.t.types - l1) - l2 == (m.t.types - l2) - l1;
    forall p | p in u.written - s.written
      ensures p in u.t.types && u.t.types[p] == Dirt
    {
      if p in m.written {
        assert p in l1 && p !in l2;
        assert p in m.t.types - l2;
      }
    }
  }

  /**
   * The effect of filling the footprint of width w and depth d: every
   * footprint cell at y = fill is occupied and every footprint column is
   * raised to at least fill + 1 and never lowered; other columns keep
   * their heights; only footprint cells at y = fill become occupied or
   * are queued, each queued cell is Dirt, and no other type changes.
   */
  ghost predicate Filled(s: Flat, u: Flat, bx: int, bz: int, w: int, d: int, fill: int)
  {
    (forall x, z | InFootprint(x, z, bx, bz, w, d) ::
      Pos(x, fill, z) in u.t.occupied && Height(u.t.heights, x, z) == Max(Height(s.t.heights, x, z), fill + 1)) &&
    (forall c: Col | !InFootprint(c.x, c.z, bx, bz, w, d) ::
      (c in u.t.heights <==> c in s.t.heights) && (c in s.t.heights ==> u.t.heights[c] == s.t.heights[c])) &&
    WritesWithin(s, u, Level(bx, bz, w, d, fill)) &&
    u.t.loaded == s.t.loaded && u.water == s.water
  }

  /** Filling rows bx .. bx+n-2 and then row bx+n-1 fills rows bx .. bx+n-1. */
  lemma FilledTrans(s: Flat, m: Flat, u: Flat, bx: int, bz: int, n: nat, d: int, fill: int)
    requires 0 < n && Filled(s, m, bx, bz, n - 1, d, fill) && Filled(m, u, bx + n - 1, bz, 1, d, fill)
    ensures Filled(s, u, bx, bz, n, d, fill)
  {
    forall x, z | InFootprint(x, z, bx, bz, n, d)
      ensures Pos(x, fill, z) in u.t.occupied && Height(u.t.heights, x, z) == Max(Height(s.t.heights, x, z), fill + 1)
    {
      if x < bx + n - 1 {
        assert InFootprint(x, z, bx, bz, n - 1, d);
        assert !InFootprint(Col(x, z).x, Col(x, z).z, bx + n - 1, bz, 1, d);
      } else {
        assert InFootprint(x, z, bx + n - 1, bz, 1, d);
        assert !InFootprint(Col(x, z).x, Col(x, z).z, bx, bz, n - 1, d);
      }
    }
    assert Level(bx, bz, n, d, fill) == Level(bx, bz, n - 1, d, fill) + Level(bx + n - 1, bz, 1, d, fill);
    WritesWithinTrans(s, m, u, Level(bx, bz, n - 1, d, fill), Level(bx + n - 1, bz, 1, d, fill));
  }

  /** Filling columns bz .. bz+n-2 of row x and then column bz+n-1 fills columns bz .. bz+n-1. */
  lemma FilledTransZ(s: Flat, m: Flat, u: Flat, x: int, bz: int, n: nat, fill: int)
    requires 0 < n && Filled(s, m, x, bz, 1, n - 1, fill) && Filled(m, u, x, bz + n - 1, 1, 1, fill)
    ensures Filled(s, u, x, bz, 1, n, fill)
  {
    forall x', z | InFootprint(x', z, x, bz, 1, n)
      ensures Pos(x', fill, z) in u.t.occupied && Height(u.t.heights, x', z) == Max(Height(s.t.heights, x', z), fill + 1)
    {
      if z < bz + n - 1 {
        assert InFootprint(x', z, x, bz, 1, n - 1);
        assert !InFootprint(Col(x', z).x, Col(x', z).z, x, bz + n - 1, 1, 1);
      } else {
        assert InFootprint(x', z, x, bz + n - 1, 1, 1);
        assert !InFootprint(Col(x', z).x, Col(x', z).z, x, bz, 1, n - 1);
      }
    }
    assert Level(x, bz, 1, n, fill) == Level(x, bz, 1, n - 1, fill) + Level(x, bz + n - 1, 1, 1, fill);
    WritesWithinTrans(s, m, u, Level(x, bz, 1, n - 1, fill), Level(x, bz + n - 1, 1, 1, fill));
  }

  /** Filling an empty footprint changes nothing. */
  lemma FilledNothing(s: Flat, bx: int, bz: int, w: int, d: int, fill: int)
    requires w <= 0 || d <= 0
    ensures Filled(s, s, bx, bz, w, d, fill)
  {
    assert Level(bx, bz, w, d, fill) == {};
    assert s.written - s.written == {};
  }

  lemma FillCellEffect(s: Flat, u: Flat, x: int, z: int, fill: int)
    requires u == FillCell(s, x, z, fill)
    ensures Filled(s, u, x, z, 1, 1, fill)
  {
    assert Level(x, z, 1, 1, fill) == {Pos(x, fill, z)};
  }

  /** Filling one more column of a row extends the filled strip by that column. */
  lemma FillStripStep(s: Flat, m: Flat, x: int, bz: int, fill: int, n: nat)
    requires n > 0 && Filled(s, m, x, bz, 1, n - 1, fill)
    ensures Filled(s, FillCell(m, x, bz + n - 1, fill), x, bz, 1, n, fill)
  {
    var u := FillCell(m, x, bz + n - 1, fill);
    FillCellEffect(m, u, x, bz + n - 1, fill);
    FilledTransZ(s, m, u, x, bz, n, fill);
  }

  lemma {:induction false} FillStripEffect(s: Flat, x: int, bz: int, fill: int, n: nat)
    ensures Filled(s, FillStrip(s, x, bz, fill, n), x, bz, 1, n, fill)
  {
    if n > 0 {
      FillStripEffect(s, x, bz, fill, n - 1);
      FillStripStep(s, FillStrip(s, x, bz, fill, n - 1), x, bz, fill, n);
    } else {
      FilledNothing(s, x, bz, 1, 0, fill);
    }
  }

  /** Filling one more row of the footprint extends the filled area by that row. */
  lemma FillAreaStep(s: Flat, m: Flat, bx: int, bz: int, d: nat, fill: int, n: nat)
    requires n > 0 && Filled(s, m, bx, bz, n - 1, d, fill)
    ensures Filled(s, FillStrip(m, bx + n - 1, bz, fill, d), bx, bz, n, d, fill)
  {
    var u := FillStrip(m, bx + n - 1, bz, fill, d);
    FillStripEffect(m, bx + n - 1, bz, fill, d);
    FilledTrans(s, m, u, bx, bz, n, d, fill);
  }

  /** Step 2 of `forceTerrainFlat` over the footprint. */
  lemma {:induction false} FillAreaEffect(s: Flat, bx: int, bz: int, d: nat, fill: int, n: nat)
    ensures Filled(s, FillArea(s, bx, bz, d, fill, n), bx, bz, n, d, fill)
  {
    if n > 0 {
      FillAreaEffect(s, bx, bz, d, fill, n - 1);
      FillAreaStep(s, FillArea(s, bx, bz, d, fill, n - 1), bx, bz, d, fill, n);
    } else {
      FilledNothing(s, bx, bz, 0, d, fill);
    }
  }

  /** Step 2, the z loop of one row. */
  method FillStripCells(w: World, x: int, bz: int, depth: int, fill: int, ghost water: set<Pos>, written: set<Pos>)
    returns (written': set<Pos>)
    modifies w
    ensures Flat(w.Data(), water, written') == FillStrip(Flat(old(w.Data()), water, written), x, bz, fill, Count(depth))
  {
    written' := written;
    var z := bz;
    while z < bz + depth
      invariant z == bz + Count(z - bz) && z - bz <= Count(depth)
      invariant Flat(w.Data(), water, written') == FillStrip(Flat(old(w.Data()), water, written), x, bz, fill, z - bz)
    {
      var p := Pos(x, fill, z);
      var hasAbove := Pos(x, fill + 1, z) in w.occupied;
      var h := if Col(x, z) in w.heights then w.heights[Col(x, z)] else 0;
      if !hasAbove || p !in w.occupied || h < fill {
        written' := written' + {p};
        w.occupied := w.occupied + {p};
        w.types := w.types[p := Dirt];
      }
      var c := Col(x, z);
      w.heights := w.heights[c := Max(if c in w.heights then w.heights[c] else 0, fill + 1)];
      z := z + 1;
    }
  }

  /** Step 2 of `forceTerrainFlat`: the x loop over the footprint. */
  method FillFootprint(w: World, bx: int, bz: int, width: int, depth: int, fill: int, ghost water: set<Pos>)
    returns (written: set<Pos>)
    modifies w
    ensures Flat(w.Data(), water, written) == FillArea(Flat(old(w.Data()), water, {}), bx, bz, Count(depth), fill, Count(width))
  {
    written := {};
    var x := bx;
    while x < bx + width
      invariant x == bx + Count(x - bx) && x - bx <= Count(width)
      invariant Flat(w.Data(), water, written) == FillArea(Flat(old(w.Data()), water, {}), bx, bz, Count(depth), fill, x - bx)
    {
      written := FillStripCells(w, x, bz, depth, fill, water, written);
      x := x + 1;
    }
  }

  /** Whether a staircase cell at height y passes `currentHeight >= (minTerrainHeightAround || 0)`; `Infinity` never does. */
  predicate Admitted(minAround: Option<int>, y: int)
  {
    minAround.Some? && y >= minAround.value
  }

  /** Step 3 on one cell: an empty admitted cell is written as Dirt and queued. */
  function WriteStair(s: Flat, p: Pos, minAround: Option<int>): Flat
  {
    if p !in s.t.occupied && Admitted(minAround, p.y) then
      Flat(s.t.(occupied := s.t.occupied + {p}, types := s.t.types[p := Dirt]), s.water, s.written + {p})
    else s
  }

  /** The first n passes of the x loop of ring `step` at height y: the north and south sides. */
  function XSide(s: Flat, bx: int, bz: int, w: int, d: int, step: int, y: int, minAround: Option<int>, n: nat): Flat
  {
    if n == 0 then s
    else
      var m := XSide(s, bx, bz, w, d, step, y, minAround, n - 1);
      var x := bx - step + n - 1;
      if bx <= x < bx + w then
        WriteStair(WriteStair(m, Pos(x, y, bz - step), minAround), Pos(x, y, bz + d + step - 1), minAround)
      else m
  }

  /** The first n passes of the z loop of ring `step` at height y: the west and east sides. */
  function ZSide(s: Flat, bx: int, bz: int, w: int, d: int, step: int, y: int, minAround: Option<int>, n: nat): Flat
  {
    if n == 0 then s
    else
      var m := ZSide(s, bx, bz, w, d, step, y, minAround, n - 1);
      var z := bz - step + n - 1;
      if bz <= z < bz + d then
        WriteStair(WriteStair(m, Pos(bx - step, y, z), minAround), Pos(bx + w + step - 1, y, z), minAround)
      else m
  }

  /** Ring `step` of the staircase, at height fill - step + 1. */
  function Ring(s: Flat, bx: int, bz: int, w: int, d: int, fill: int, minAround: Option<int>, step: int): Flat
  {
    var y := fill - step + 1;
    ZSide(XSide(s, bx, bz, w, d, step, y, minAround, Count(w + 2 * step)), bx, bz, w, d, step, y, minAround, Count(d + 2 * step))
  }

  /** Rings 1 .. n of the staircase. */
  function Stairs(s: Flat, bx: int, bz: int, w: int, d: int, fill: int, minAround: Option<int>, n: nat): Flat
  {
    if n == 0 then s else Ring(Stairs(s, bx, bz, w, d, fill, minAround, n - 1), bx, bz, w, d, fill, minAround, n)
  }

  /** `maxSteps`: with an `Infinity` minimum it is 1. */
  function MaxSteps(fill: int, minAround: Option<int>): int
  {
    if minAround.None? then 1 else Max(1, fill - (if minAround.value > 0 then minAround.value else 0))
  }

  /** The rings the step loop completes before `maxSteps` or the break at a negative height. */
  function StepsRun(fill: int, minAround: Option<int>): nat
  {
    Count(Min(MaxSteps(fill, minAround), fill + 1))
  }

  /** Every cell of c mapped to `kind`. */
  function Paint(c: set<Pos>, kind: BlockType): map<Pos, BlockType>
  {
    map p | p in c :: kind
  }

  /** The cells of `visited` that were empty and are admitted. */
  function Fresh(s: Flat, visited: set<Pos>, minAround: Option<int>): set<Pos>
  {
    set p | p in visited && p !in s.t.occupied && Admitted(minAround, p.y)
  }

  /**
   * The effect of visiting the cells of `visited`: exactly the empty
   * admitted ones become occupied, Dirt and queued; nothing else changes.
   */
  ghost predicate Stamped(s: Flat, u: Flat, visited: set<Pos>, minAround: Option<int>)
  {
    var added := Fresh(s, visited, minAround);
    u.t.occupied == s.t.occupied + added &&
    u.written == s.written + added &&
    u.t.types == s.t.types + Paint(added, Dirt) &&
    u.t.heights == s.t.heights && u.t.loaded == s.t.loaded && u.water == s.water
  }

  lemma StampedNothing(s: Flat, minAround: Option<int>)
    ensures Stamped(s, s, {}, minAround)
  {
    assert Fresh(s, {}, minAround) == {};
    assert s.t.types + Paint({}, Dirt) == s.t.types;
  }

  lemma StampedTrans(s: Flat, m: Flat, u: Flat, v1: set<Pos>, v2: set<Pos>, minAround: Option<int>)
    requires Stamped(s, m, v1, minAround) && Stamped(m, u, v2, minAround)
    ensures Stamped(s, u, v1 + v2, minAround)
  {
    var f1, f2 := Fresh(s, v1, minAround), Fresh(m, v2, minAround);
    assert Fresh(s, v1 + v2, minAround) == f1 + f2;
    assert (s.t.types + Paint(f1, Dirt)) + Paint(f2, Dirt) == s.t.types + Paint(f1 + f2, Dirt);
  }

  lemma WriteStairEffect(s: Flat, p: Pos, minAround: Option<int>)
    ensures Stamped(s, WriteStair(s, p, minAround), {p}, minAround)
  {
    if p !in s.t.occupied && Admitted(minAround, p.y) {
      assert Fresh(s, {p}, minAround) == {p};
      assert s.t.types[p := Dirt] == s.t.types + Paint({p}, Dirt);
    } else {
      assert Fresh(s, {p}, minAround) == {};
      assert s.t.types + Paint({}, Dirt) == s.t.types;
    }
  }

  /** The cells Pos(x, y, z) with lo <= x < hi. */
  function XRun(lo: int, hi: int, y: int, z: int): set<Pos>
    decreases hi - lo
  {
    if hi <= lo then {} else XRun(lo, hi - 1, y, z) + {Pos(hi - 1, y, z)}
  }

  /** The cells Pos(x, y, z) with lo <= z < hi. */
  function ZRun(x: int, y: int, lo: int, hi: int): set<Pos>
    decreases hi - lo
  {
    if hi <= lo then {} else ZRun(x, y, lo, hi - 1) + {Pos(x, y, hi - 1)}
  }

  lemma {:induction false} XRunMembers(lo: int, hi: int, y: int, z: int, p: Pos)
    ensures p in XRun(lo, hi, y, z) <==> p.y == y && p.z == z && lo <= p.x < hi
    decreases hi - lo
  {
    if hi > lo {
      XRunMembers(lo, hi - 1, y, z, p);
    }
  }

  lemma {:induction false} ZRunMembers(x: int, y: int, lo: int, hi: int, p: Pos)
    ensures p in ZRun(x, y, lo, hi) <==> p.x == x && p.y == y && lo <= p.z < hi
    decreases hi - lo
  {
    if hi > lo {
      ZRunMembers(x, y, lo, hi - 1, p);
    }
  }

  /** The cells the first n passes of the x loop visit. */
  function XVisited(bx: int, bz: int, w: int, d: int, step: int, y: int, n: nat): set<Pos>
  {
    var lo, hi := Max(bx - step, bx), Min(bx - step + n, bx + w);
    XRun(lo, hi, y, bz - step) + XRun(lo, hi, y, bz + d + step - 1)
  }

  /** The cells the first n passes of the z loop visit. */
  function ZVisited(bx: int, bz: int, w: int, d: int, step: int, y: int, n: nat): set<Pos>
  {
    var lo, hi := Max(bz - step, bz), Min(bz - step + n, bz + d);
    ZRun(bx - step, y, lo, hi) + ZRun(bx + w + step - 1, y, lo, hi)
  }

  lemma XSideStep(s: Flat, m: Flat, u: Flat, bx: int, bz: int, w: int, d: int, step: int, y: int, minAround: Option<int>, n: nat)
    requires n > 0 && Stamped(s, m, XVisited(bx, bz, w, d, step, y, n - 1), minAround)
    requires var x := bx - step + n - 1;
      u == if bx <= x < bx + w then
        WriteStair(WriteStair(m, Pos(x, y, bz - step), minAround), Pos(x, y, bz + d + step - 1), minAround)
      else m
    ensures Stamped(s, u, XVisited(bx, bz, w, d, step, y, n), minAround)
  {
    var x := bx - step + n - 1;
    var prev := XVisited(bx, bz, w, d, step, y, n - 1);
    if bx <= x < bx + w {
      var a, b := Pos(x, y, bz - step), Pos(x, y, bz + d + step - 1);
      var m1 := WriteStair(m, a, minAround);
      WriteStairEffect(m, a, minAround);
      WriteStairEffect(m1, b, minAround);
      StampedTrans(m, m1, u, {a}, {b}, minAround);
      StampedTrans(s, m, u, prev, {a} + {b}, minAround);
      assert XVisited(bx, bz, w, d, step, y, n) == prev + ({a} + {b});
    } else {
      assert XVisited(bx, bz, w, d, step, y, n) == prev;
    }
  }

  lemma {:induction false} XSideEffect(s: Flat, bx: int, bz: int, w: int, d: int, step: int, y: int, minAround: Option<int>, n: nat)
    ensures Stamped(s, XSide(s, bx, bz, w, d, step, y, minAround, n), XVisited(bx, bz, w, d, step, y, n), minAround)
  {
    if n > 0 {
      XSideEffect(s, bx, bz, w, d, step, y, minAround, n - 1);
      XSideStep(s, XSide(s, bx, bz, w, d, step, y, minAround, n - 1), XSide(s, bx, bz, w, d, step, y, minAround, n),
        bx, bz, w, d, step, y, minAround, n);
    } else {
      assert XVisited(bx, bz, w, d, step, y, 0) == {};
      StampedNothing(s, minAround);
    }
  }

  lemma ZSideStep(s: Flat, m: Flat, u: Flat, bx: int, bz: int, w: int, d: int, step: int, y: int, minAround: Option<int>, n: nat)
    requires n > 0 && Stamped(s, m, ZVisited(bx, bz, w, d, step, y, n - 1), minAround)
    requires var z := bz - step + n - 1;
      u == if bz <= z < bz + d then
        WriteStair(WriteStair(m, Pos(bx - step, y, z), minAround), Pos(bx + w + step - 1, y, z), minAround)
      else m
    ensures Stamped(s, u, ZVisited(bx, bz, w, d, step, y, n), minAround)
  {
    var z := bz - step + n - 1;
    var prev := ZVisited(bx, bz, w, d, step, y, n - 1);
    if bz <= z < bz + d {
      var a, b := Pos(bx - step, y, z), Pos(bx + w + step - 1, y, z);
      var m1 := WriteStair(m, a, minAround);
      WriteStairEffect(m, a, minAround);
      WriteStairEffect(m1, b, minAround);
      StampedTrans(m, m1, u, {a}, {b}, minAround);
      StampedTrans(s, m, u, prev, {a} + {b}, minAround);
      assert ZVisited(bx, bz, w, d, step, y, n) == prev + ({a} + {b});
    } else {
      assert ZVisited(bx, bz, w, d, step, y, n) == prev;
    }
  }

  lemma {:induction false} ZSideEffect(s: Flat, bx: int, bz: int, w: int, d: int, step: int, y: int, minAround: Option<int>, n: nat)
    ensures Stamped(s, ZSide(s, bx, bz, w, d, step, y, minAround, n), ZVisited(bx, bz, w, d, step, y, n), minAround)
  {
    if n > 0 {
      ZSideEffect(s, bx, bz, w, d, step, y, minAround, n - 1);
      ZSideStep(s, ZSide(s, bx, bz, w, d, step, y, minAround, n - 1), ZSide(s, bx, bz, w, d, step, y, minAround, n),
        bx, bz, w, d, step, y, minAround, n);
    } else {
      assert ZVisited(bx, bz, w, d, step, y, 0) == {};
      StampedNothing(s, minAround);
    }
  }

  /**
   * Whether p lies on ring `step` around the footprint: on the north or
   * south side above a footprint column, or on the west or east side
   * beside one, `step` cells out; corners are not part of a ring.
   */
  predicate OnRing(p: Pos, bx: int, bz: int, w: int, d: int, step: int)
  {
    (bx <= p.x < bx + w && (p.z == bz - step || p.z == bz + d + step - 1)) ||
    (bz <= p.z < bz + d && (p.x == bx - step || p.x == bx + w + step - 1))
  }

  /** The cells ring `step` visits. */
  function RingCells(bx: int, bz: int, w: int, d: int, fill: int, step: int): set<Pos>
  {
    var y := fill - step + 1;
    XVisited(bx, bz, w, d, step, y, Count(w + 2 * step)) + ZVisited(bx, bz, w, d, step, y, Count(d + 2 * step))
  }

  /** A ring visits exactly the cells of the ring at its height. */
  lemma RingCellsMembers(bx: int, bz: int, w: int, d: int, fill: int, step: int, p: Pos)
    requires step >= 0
    ensures p in RingCells(bx, bz, w, d, fill, step) <==> p.y == fill - step + 1 && OnRing(p, bx, bz, w, d, step)
  {
    XVisitedMembers(bx, bz, w, d, step, fill - step + 1, p);
    ZVisitedMembers(bx, bz, w, d, step, fill - step + 1, p);
  }

  /** The full x loop of a ring visits the north and south sides above the footprint columns. */
  lemma XVisitedMembers(bx: int, bz: int, w: int, d: int, step: int, y: int, p: Pos)
    requires step >= 0
    ensures p in XVisited(bx, bz, w, d, step, y, Count(w + 2 * step)) <==>
      p.y == y && bx <= p.x < bx + w && (p.z == bz - step || p.z == bz + d + step - 1)
  {
    var xl, xh := Max(bx - step, bx), Min(bx - step + Count(w + 2 * step), bx + w);
    assert xl == bx;
    assert xh <= bx ==> w <= 0;
    assert xh > bx ==> xh == bx + w;
    XRunMembers(xl, xh, y, bz - step, p);
    XRunMembers(xl, xh, y, bz + d + step - 1, p);
  }

  /** The full z loop of a ring visits the west and east sides beside the footprint rows. */
  lemma ZVisitedMembers(bx: int, bz: int, w: int, d: int, step: int, y: int, p: Pos)
    requires step >= 0
    ensures p in ZVisited(bx, bz, w, d, step, y, Count(d + 2 * step)) <==>
      p.y == y && bz <= p.z < bz + d && (p.x == bx - step || p.x == bx + w + step - 1)
  {
    var zl, zh := Max(bz - step, bz), Min(bz - step + Count(d + 2 * step), bz + d);
    assert zl == bz;
    assert zh <= bz ==> d <= 0;
    assert zh > bz ==> zh == bz + d;
    ZRunMembers(bx - step, y, zl, zh, p);
    ZRunMembers(bx + w + step - 1, y, zl, zh, p);
  }

  lemma RingEffect(s: Flat, bx: int, bz: int, w: int, d: int, fill: int, minAround: Option<int>, step: int)
    ensures Stamped(s, Ring(s, bx, bz, w, d, fill, minAround, step), RingCells(bx, bz, w, d, fill, step), minAround)
  {
    var y := fill - step + 1;
    var m := XSide(s, bx, bz, w, d, step, y, minAround, Count(w + 2 * step));
    XSideEffect(s, bx, bz, w, d, step, y, minAround, Count(w + 2 * step));
    ZSideEffect(m, bx, bz, w, d, step, y, minAround, Count(d + 2 * step));
    StampedTrans(s, m, Ring(s, bx, bz, w, d, fill, minAround, step),
      XVisited(bx, bz, w, d, step, y, Count(w + 2 * step)), ZVisited(bx, bz, w, d, step, y, Count(d + 2 * step)), minAround);
  }

  /** The cells rings 1 .. n visit. */
  function StairCells(bx: int, bz: int, w: int, d: int, fill: int, n: nat): set<Pos>
  {
    if n == 0 then {} else StairCells(bx, bz, w, d, fill, n - 1) + RingCells(bx, bz, w, d, fill, n)
  }

  /**
   * The staircase visits exactly the ring cells of steps 1 .. n, each at
   * height fill - step + 1, so the step of a cell is read off its height.
   */
  lemma {:induction false} StairCellsMembers(bx: int, bz: int, w: int, d: int, fill: int, n: nat, p: Pos)
    ensures p in StairCells(bx, bz, w, d, fill, n) <==>
      1 <= fill + 1 - p.y <= n && OnRing(p, bx, bz, w, d, fill + 1 - p.y)
  {
    if n > 0 {
      StairCellsMembers(bx, bz, w, d, fill, n - 1, p);
      RingCellsMembers(bx, bz, w, d, fill, n, p);
    }
  }

  /** No staircase cell lies above or below a footprint column. */
  lemma StairsOutsideFootprint(bx: int, bz: int, w: int, d: int, fill: int, n: nat, p: Pos)
    requires p in StairCells(bx, bz, w, d, fill, n)
    ensures !InFootprint(p.x, p.z, bx, bz, w, d)
  {
    StairCellsMembers(bx, bz, w, d, fill, n, p);
  }

  lemma StairsStep(s: Flat, m: Flat, u: Flat, bx: int, bz: int, w: int, d: int, fill: int, minAround: Option<int>, n: nat)
    requires n > 0 && Stamped(s, m, StairCells(bx, bz, w, d, fill, n - 1), minAround)
    requires u == Ring(m, bx, bz, w, d, fill, minAround, n)
    ensures Stamped(s, u, StairCells(bx, bz, w, d, fill, n), minAround)
  {
    RingEffect(m, bx, bz, w, d, fill, minAround, n);
    StampedTrans(s, m, u, StairCells(bx, bz, w, d, fill, n - 1), RingCells(bx, bz, w, d, fill, n), minAround);
  }

  /**
   * Step 3 of `forceTerrainFlat`: the rings write exactly the empty
   * admitted staircase cells as Dirt and queue them; no height changes.
   */
  lemma {:induction false} StairsEffect(s: Flat, bx: int, bz: int, w: int, d: int, fill: int, minAround: Option<int>, n: nat)
    ensures Stamped(s, Stairs(s, bx, bz, w, d, fill, minAround, n), StairCells(bx, bz, w, d, fill, n), minAround)
  {
    if n > 0 {
      StairsEffect(s, bx, bz, w, d, fill, minAround, n - 1);
      StairsStep(s, Stairs(s, bx, bz, w, d, fill, minAround, n - 1), Stairs(s, bx, bz, w, d, fill, minAround, n),
        bx, bz, w, d, fill, minAround, n);
    } else {
      StampedNothing(s, minAround);
    }
  }

  /** No staircase cell is below y = 0: the step loop stops at the first negative height. */
  lemma StairsNotBelowZero(bx: int, bz: int, w: int, d: int, fill: int, minAround: Option<int>, p: Pos)
    requires p in StairCells(bx, bz, w, d, fill, StepsRun(fill, minAround))
    ensures 0 <= p.y <= fill
    ensures fill + 1 - p.y <= MaxSteps(fill, minAround)
  {
    StairCellsMembers(bx, bz, w, d, fill, StepsRun(fill, minAround), p);
  }

  /** Step 3 on one cell, in place. */
  method StairCell(w: World, p: Pos, minAround: Option<int>, ghost water: set<Pos>, written: set<Pos>)
    returns (written': set<Pos>)
    modifies w
    ensures Flat(w.Data(), water, written') == WriteStair(Flat(old(w.Data()), water, written), p, minAround)
  {
    written' := written;
    if p !in w.occupied && minAround.Some? && p.y >= minAround.value {
      written' := written' + {p};
      w.occupied := w.occupied + {p};
      w.types := w.types[p := Dirt];
    }
  }

  /** Step 3, the x loop of ring `step`: the north and south sides. */
  method StairXSideCells(w: World, bx: int, bz: int, width: int, depth: int, step: int, y: int, minAround: Option<int>,
                         ghost water: set<Pos>, written: set<Pos>)
    returns (written': set<Pos>)
    modifies w
    ensures Flat(w.Data(), water, written') ==
      XSide(Flat(old(w.Data()), water, written), bx, bz, width, depth, step, y, minAround, Count(width + 2 * step))
  {
    written' := written;
    var x := bx - step;
    while x < bx + width + step
      invariant x == bx - step + Count(x - (bx - step)) && x - (bx - step) <= Count(width + 2 * step)
      invariant Flat(w.Data(), water, written') ==
        XSide(Flat(old(w.Data()), water, written), bx, bz, width, depth, step, y, minAround, x - (bx - step))
    {
      if bx <= x < bx + width {
        written' := StairCell(w, Pos(x, y, bz - step), minAround, water, written');
        written' := StairCell(w, Pos(x, y, bz + depth + step - 1), minAround, water, written');
      }
      x := x + 1;
    }
  }

  /** Step 3, the z loop of ring `step`: the west and east sides. */
  method StairZSideCells(w: World, bx: int, bz: int, width: int, depth: int, step: int, y: int, minAround: Option<int>,
                         ghost water: set<Pos>, written: set<Pos>)
    returns (written': set<Pos>)
    modifies w
    ensures Flat(w.Data(), water, written') ==
      ZSide(Flat(old(w.Data()), water, written), bx, bz, width, depth, step, y, minAround, Count(depth + 2 * step))
  {
    written' := written;
    var z := bz - step;
    while z < bz + depth + step
      invariant z == bz - step + Count(z - (bz - step)) && z - (bz - step) <= Count(depth + 2 * step)
      invariant Flat(w.Data(), water, written') ==
        ZSide(Flat(old(w.Data()), water, written), bx, bz, width, depth, step, y, minAround, z - (bz - step))
    {
      if bz <= z < bz + depth {
        written' := StairCell(w, Pos(bx - step, y, z), minAround, water, written');
        written' := StairCell(w, Pos(bx + width + step - 1, y, z), minAround, water, written');
      }
      z := z + 1;
    }
  }

  /** Step 3 of `forceTerrainFlat`: rings 1, 2, .. until `maxSteps` or a negative height. */
  method BuildStairs(w: World, bx: int, bz: int, width: int, depth: int, fill: int, minAround: Option<int>,
                     ghost water: set<Pos>, written: set<Pos>)
    returns (written': set<Pos>)
    modifies w
    ensures Flat(w.Data(), water, written') ==
      Stairs(Flat(old(w.Data()), water, written), bx, bz, width, depth, fill, minAround, StepsRun(fill, minAround))
  {
    written' := written;
    var maxSteps := MaxSteps(fill, minAround);
    var step := 1;
    while step <= maxSteps
      invariant 1 <= step && step - 1 <= StepsRun(fill, minAround)
      invariant Flat(w.Data(), water, written') ==
        Stairs(Flat(old(w.Data()), water, written), bx, bz, width, depth, fill, minAround, step - 1)
    {
      var y := fill - step + 1;
      if y < 0 {
        break;
      }
      written' := StairXSideCells(w, bx, bz, width, depth, step, y, minAround, water, written');
      written' := StairZSideCells(w, bx, bz, width, depth, step, y, minAround, water, written');
      step := step + 1;
    }
  }

  // ---------------------------------------------------------------------
  // forceTerrainFlat as a whole

  /** The state after steps 1 and 2 on the footprint [bx, bx + width) × [bz, bz + depth). */
  function AfterFill(t: Tables, bx: int, bz: int, width: int, depth: int, fill: int): Flat
  {
    FillArea(ClearArea(Flat(t, {}, {}), bx, bz, Count(depth), fill, Count(width)), bx, bz, Count(depth), fill, Count(width))
  }

  /** `minTerrainHeightAround`: the lowest column of the footprint grown by 2, read after step 2. */
  function MinAround(t: Tables, bx: int, bz: int, width: int, depth: int, fill: int): Option<int>
  {
    RectMin(AfterFill(t, bx, bz, width, depth, fill).t.heights, bx - 2, bz - 2, Count(width + 4), Count(depth + 4))
  }

  /** The state after step 3. */
  function AfterStairs(t: Tables, bx: int, bz: int, width: int, depth: int, fill: int): Flat
  {
    var minAround := MinAround(t, bx, bz, width, depth, fill);
    Stairs(AfterFill(t, bx, bz, width, depth, fill), bx, bz, width, depth, fill, minAround, StepsRun(fill, minAround))
  }

  /** The staircase cells of a flatten. */
  function FlattenStairCells(t: Tables, bx: int, bz: int, width: int, depth: int, fill: int): set<Pos>
  {
    StairCells(bx, bz, width, depth, fill, StepsRun(fill, MinAround(t, bx, bz, width, depth, fill)))
  }

  /** The tables after `forceTerrainFlat` and what it returned. */
  datatype Flattened = Flattened(t: Tables, ok: bool)

  /**
   * `forceTerrainFlat(bx, bz, width, depth, fill)`. `meshMade` and
   * `waterMade` stand for whether `createInstancedMesh` returned a Dirt
   * and a Water mesh. Success needs a queued cell and the Dirt mesh; it
   * restores the saved Water cells when there are some and their mesh was
   * made, and marks the chunk of (bx, bz) loaded. On failure the tables
   * keep every change of the three steps.
   */
  function Flatten(t: Tables, bx: int, bz: int, width: int, depth: int, fill: int, meshMade: bool, waterMade: bool): Flattened
  {
    Finish(AfterStairs(t, bx, bz, width, depth, fill), bx, bz, meshMade, waterMade)
  }

  /** The end of `forceTerrainFlat`, after the three steps left `st`. */
  function Finish(st: Flat, bx: int, bz: int, meshMade: bool, waterMade: bool): Flattened
  {
    if st.written != {} && meshMade then
      var r := if st.water != {} && waterMade
        then st.t.(occupied := st.t.occupied + st.water, types := st.t.types + Paint(st.water, Water))
        else st.t;
      Flattened(r.(loaded := r.loaded + {ChunkOf(bx, bz, CHUNK_SIZE)}), true)
    else
      Flattened(st.t, false)
  }

  /** The end of `forceTerrainFlat` on one cell: only saved Water cells come back, and only on success. */
  lemma FinishAt(st: Flat, bx: int, bz: int, meshMade: bool, waterMade: bool, p: Pos)
    ensures var r := Finish(st, bx, bz, meshMade, waterMade);
      var back := r.ok && waterMade && p in st.water;
      r.ok == (st.written != {} && meshMade) &&
      r.t.heights == st.t.heights &&
      (p in r.t.occupied <==> p in st.t.occupied || back) &&
      (p in r.t.types <==> p in st.t.types || back) &&
      (p in r.t.types ==> r.t.types[p] == if back then Water else st.t.types[p])
  {
  }

  /** The facts every stage contributes, gathered once for the lemmas below. */
  lemma FlattenStages(t: Tables, bx: int, bz: int, width: int, depth: int, fill: int)
    ensures var c := ClearArea(Flat(t, {}, {}), bx, bz, Count(depth), fill, Count(width));
      var f := AfterFill(t, bx, bz, width, depth, fill);
      var d := Doomed(t, bx, bx + Count(width), bz, bz + Count(depth), fill);
      Cleared(Flat(t, {}, {}), c, d) &&
      Filled(c, f, bx, bz, Count(width), Count(depth), fill) &&
      Stamped(f, AfterStairs(t, bx, bz, width, depth, fill), FlattenStairCells(t, bx, bz, width, depth, fill),
        MinAround(t, bx, bz, width, depth, fill))
  {
    var c := ClearArea(Flat(t, {}, {}), bx, bz, Count(depth), fill, Count(width));
    var f := AfterFill(t, bx, bz, width, depth, fill);
    var minAround := MinAround(t, bx, bz, width, depth, fill);
    ClearAreaEffect(Flat(t, {}, {}), bx, bz, Count(depth), fill, Count(width));
    assert f == FillArea(c, bx, bz, Count(depth), fill, Count(width));
    FillAreaEffect(c, bx, bz, Count(depth), fill, Count(width));
    assert AfterStairs(t, bx, bz, width, depth, fill) == Stairs(f, bx, bz, width, depth, fill, minAround, StepsRun(fill, minAround));
    StairsEffect(f, bx, bz, width, depth, fill, minAround, StepsRun(fill, minAround));
  }

  /** `forceTerrainFlat` in place, on the world tables. */
  method ForceTerrainFlat(w: World, bx: int, bz: int, width: int, depth: int, fill: int, meshMade: bool, waterMade: bool)
    returns (ok: bool)
    modifies w
    ensures Flattened(w.Data(), ok) == Flatten(old(w.Data()), bx, bz, width, depth, fill, meshMade, waterMade)
  {
    var water := ClearFootprint(w, bx, bz, width, depth, fill);
    var written := FillFootprint(w, bx, bz, width, depth, fill, water);
    var minAround := MinSurfaceHeight(w.heights, bx - 2, bz - 2, width + 4, depth + 4);
    written := BuildStairs(w, bx, bz, width, depth, fill, minAround, water, written);
    if written != {} && meshMade {
      if water != {} && waterMade {
        w.occupied := w.occupied + water;
        w.types := w.types + Paint(water, Water);
      }
      w.loaded := w.loaded + {ChunkOf(bx, bz, CHUNK_SIZE)};
      ok := true;
    } else {
      ok := false;
    }
  }

  /** A footprint that is empty in both directions has no staircase. */
  lemma {:induction false} StairCellsEmpty(bx: int, bz: int, w: int, d: int, fill: int, n: nat)
    requires w <= 0 && d <= 0
    ensures StairCells(bx, bz, w, d, fill, n) == {}
  {
    if n > 0 {
      StairCellsEmpty(bx, bz, w, d, fill, n - 1);
      assert XVisited(bx, bz, w, d, n, fill - n + 1, Count(w + 2 * n)) == {};
      assert ZVisited(bx, bz, w, d, n, fill - n + 1, Count(d + 2 * n)) == {};
    }
  }

  /**
   * Every footprint column ends at height max(old, fill + 1) with its cell
   * at y = fill occupied; every other column keeps its height. So no
   * column height is ever lowered.
   */
  lemma FlattenColumn(t: Tables, bx: int, bz: int, width: int, depth: int, fill: int, meshMade: bool, waterMade: bool,
                      x: int, z: int)
    ensures var r := Flatten(t, bx, bz, width, depth, fill, meshMade, waterMade).t;
      if InFootprint(x, z, bx, bz, width, depth) then
        Height(r.heights, x, z) == Max(Height(t.heights, x, z), fill + 1) && Pos(x, fill, z) in r.occupied
      else
        Height(r.heights, x, z) == Height(t.heights, x, z)
  {
    FlattenStages(t, bx, bz, width, depth, fill);
    if InFootprint(x, z, bx, bz, width, depth) {
      assert InFootprint(x, z, bx, bz, Count(width), Count(depth));
    } else {
      assert !InFootprint(Col(x, z).x, Col(x, z).z, bx, bz, Count(width), Count(depth));
    }
  }

  /**
   * A cell step 1 deletes (occupied, in the footprint, above `fill` and at
   * or below its column height) is absent afterwards, unless it was Water
   * and the Water was restored on success.
   */
  lemma FlattenDoomed(t: Tables, bx: int, bz: int, width: int, depth: int, fill: int, meshMade: bool, waterMade: bool, p: Pos)
    requires p in t.occupied && InFootprint(p.x, p.z, bx, bz, width, depth) && fill < p.y <= Height(t.heights, p.x, p.z)
    ensures var r := Flatten(t, bx, bz, width, depth, fill, meshMade, waterMade);
      (p in r.t.occupied <==> r.ok && waterMade && p in t.types && t.types[p] == Water) &&
      (p in r.t.types <==> p in r.t.occupied) &&
      (p in r.t.occupied ==> r.t.types[p] == Water)
  {
    FlattenStages(t, bx, bz, width, depth, fill);
    var f := AfterFill(t, bx, bz, width, depth, fill);
    var st := AfterStairs(t, bx, bz, width, depth, fill);
    var level := Level(bx, bz, Count(width), Count(depth), fill);
    assert p in Doomed(t, bx, bx + Count(width), bz, bz + Count(depth), fill);
    assert p !in level;
    assert p !in f.t.types by {
      assert p !in f.t.types - level;
    }
    if p in FlattenStairCells(t, bx, bz, width, depth, fill) {
      StairsOutsideFootprint(bx, bz, width, depth, fill, StepsRun(fill, MinAround(t, bx, bz, width, depth, fill)), p);
    }
    assert p !in st.t.occupied && p !in st.t.types;
    assert p in t.types && t.types[p] == Water <==> p in st.water;
    FinishAt(st, bx, bz, meshMade, waterMade, p);
  }

  /**
   * A cell outside the columns steps 1 and 2 touch, below the fill level,
   * or above both the fill level and its column height, and not on the
   * staircase, keeps its occupancy and its type.
   */
  lemma FlattenKeeps(t: Tables, bx: int, bz: int, width: int, depth: int, fill: int, meshMade: bool, waterMade: bool, p: Pos)
    requires !InFootprint(p.x, p.z, bx, bz, width, depth) || p.y < fill || p.y > Max(fill, Height(t.heights, p.x, p.z))
    requires p !in FlattenStairCells(t, bx, bz, width, depth, fill)
    ensures var r := Flatten(t, bx, bz, width, depth, fill, meshMade, waterMade).t;
      (p in r.occupied <==> p in t.occupied) && (p in r.types <==> p in t.types) &&
      (p in t.types ==> r.types[p] == t.types[p])
  {
    FlattenStages(t, bx, bz, width, depth, fill);
    var c := ClearArea(Flat(t, {}, {}), bx, bz, Count(depth), fill, Count(width));
    var f := AfterFill(t, bx, bz, width, depth, fill);
    var level := Level(bx, bz, Count(width), Count(depth), fill);
    var d := Doomed(t, bx, bx + Count(width), bz, bz + Count(depth), fill);
    assert p !in d;
    assert p !in level;
    assert p in c.t.occupied <==> p in t.occupied;
    assert p in c.t.types <==> p in t.types;
    assert p in c.t.types ==> c.t.types[p] == t.types[p];
    assert (p in f.t.types - level <==> p in c.t.types - level) && (p in f.t.types ==> (f.t.types - level)[p] == f.t.types[p]);
    var st := AfterStairs(t, bx, bz, width, depth, fill);
    assert p !in st.water;
    FinishAt(st, bx, bz, meshMade, waterMade, p);
  }

  /** The success branch only restores saved Water cells: any other cell is as step 3 left it. */
  lemma FlattenFinal(t: Tables, bx: int, bz: int, width: int, depth: int, fill: int, meshMade: bool, waterMade: bool, p: Pos)
    requires p !in AfterStairs(t, bx, bz, width, depth, fill).water
    ensures var r := Flatten(t, bx, bz, width, depth, fill, meshMade, waterMade).t;
      var st := AfterStairs(t, bx, bz, width, depth, fill).t;
      (p in r.occupied <==> p in st.occupied) && (p in r.types <==> p in st.types) &&
      (p in st.types ==> r.types[p] == st.types[p])
  {
    FinishAt(AfterStairs(t, bx, bz, width, depth, fill), bx, bz, meshMade, waterMade, p);
  }

  /** Step 3 on a staircase cell, before the success branch. */
  lemma StairsAt(t: Tables, bx: int, bz: int, width: int, depth: int, fill: int, p: Pos)
    requires p in FlattenStairCells(t, bx, bz, width, depth, fill)
    ensures var st := AfterStairs(t, bx, bz, width, depth, fill);
      var minAround := MinAround(t, bx, bz, width, depth, fill);
      p !in st.water &&
      (p in st.t.occupied <==> p in t.occupied || Admitted(minAround, p.y)) &&
      (p !in t.occupied && Admitted(minAround, p.y) ==> p in st.t.types && st.t.types[p] == Dirt) &&
      (p in t.occupied || !Admitted(minAround, p.y) ==>
        (p in st.t.types <==> p in t.types) && (p in t.types ==> st.t.types[p] == t.types[p]))
  {
    StairsOutsideFootprint(bx, bz, width, depth, fill, StepsRun(fill, MinAround(t, bx, bz, width, depth, fill)), p);
    FlattenStages(t, bx, bz, width, depth, fill);
    var c := ClearArea(Flat(t, {}, {}), bx, bz, Count(depth), fill, Count(width));
    var f := AfterFill(t, bx, bz, width, depth, fill);
    var minAround := MinAround(t, bx, bz, width, depth, fill);
    var added := Fresh(f, FlattenStairCells(t, bx, bz, width, depth, fill), minAround);
    var level := Level(bx, bz, Count(width), Count(depth), fill);
    var d := Doomed(t, bx, bx + Count(width), bz, bz + Count(depth), fill);
    assert p !in d;
    assert p !in level;
    assert p in f.t.occupied <==> p in t.occupied;
    assert (p in f.t.types - level <==> p in c.t.types - level) && (p in f.t.types ==> (f.t.types - level)[p] == f.t.types[p]);
    assert p in added <==> p !in t.occupied && Admitted(minAround, p.y);
  }

  /**
   * A staircase cell is occupied afterwards when it was before or when its
   * height passes the `minTerrainHeightAround` test; an empty admitted
   * cell becomes Dirt, and any other keeps its type.
   */
  lemma FlattenStairs(t: Tables, bx: int, bz: int, width: int, depth: int, fill: int, meshMade: bool, waterMade: bool, p: Pos)
    requires p in FlattenStairCells(t, bx, bz, width, depth, fill)
    ensures var r := Flatten(t, bx, bz, width, depth, fill, meshMade, waterMade).t;
      var minAround := MinAround(t, bx, bz, width, depth, fill);
      (p in r.occupied <==> p in t.occupied || Admitted(minAround, p.y)) &&
      (p !in t.occupied && Admitted(minAround, p.y) ==> p in r.types && r.types[p] == Dirt) &&
      (p in t.occupied || !Admitted(minAround, p.y) ==>
        (p in r.types <==> p in t.types) && (p in t.types ==> r.types[p] == t.types[p]))
  {
    StairsAt(t, bx, bz, width, depth, fill, p);
    FlattenFinal(t, bx, bz, width, depth, fill, meshMade, waterMade, p);
  }

  /**
   * With the Dirt mesh made, flattening succeeds as soon as one footprint
   * cell at the fill level was empty.
   */
  lemma FlattenSucceeds(t: Tables, bx: int, bz: int, width: int, depth: int, fill: int, waterMade: bool, x: int, z: int)
    requires InFootprint(x, z, bx, bz, width, depth) && Pos(x, fill, z) !in t.occupied
    ensures Flatten(t, bx, bz, width, depth, fill, true, waterMade).ok
  {
    FlattenStages(t, bx, bz, width, depth, fill);
    assert InFootprint(x, z, bx, bz, Count(width), Count(depth));
    assert Pos(x, fill, z) in AfterStairs(t, bx, bz, width, depth, fill).written;
  }

  /**
   * Success needs the Dirt mesh and adds exactly the chunk of (bx, bz) to
   * the loaded chunks; failure loads nothing; with no footprint at all
   * nothing is queued and flattening fails.
   */
  lemma FlattenOutcome(t: Tables, bx: int, bz: int, width: int, depth: int, fill: int, meshMade: bool, waterMade: bool)
    ensures var r := Flatten(t, bx, bz, width, depth, fill, meshMade, waterMade);
      (r.ok ==> meshMade && r.t.loaded == t.loaded + {ChunkOf(bx, bz, CHUNK_SIZE)}) &&
      (!r.ok ==> r.t.loaded == t.loaded) &&
      (width <= 0 && depth <= 0 ==> !r.ok)
  {
    FlattenStages(t, bx, bz, width, depth, fill);
    if width <= 0 && depth <= 0 {
      StairCellsEmpty(bx, bz, width, depth, fill, StepsRun(fill, MinAround(t, bx, bz, width, depth, fill)));
      assert Level(bx, bz, Count(width), Count(depth), fill) == {};
    }
  }

  // ---------------------------------------------------------------------
  // addBuilding

  /** One voxel of a building file: its position in the file's own frame and its block type. */
  datatype BuildingVoxel = BuildingVoxel(x: int, y: int, z: int, kind: BlockType)

  /** The componentwise minimum of the first n voxels (the `minX`, `minY`, `minZ` loop). */
  function CornerOf(vs: seq<BuildingVoxel>, n: nat): Pos
    requires 1 <= n <= |vs|
  {
    if n == 1 then Pos(vs[0].x, vs[0].y, vs[0].z)
    else
      var c := CornerOf(vs, n - 1);
      Pos(Min(c.x, vs[n - 1].x), Min(c.y, vs[n - 1].y), Min(c.z, vs[n - 1].z))
  }

  /** The componentwise minimum is a lower bound of every voxel and each of its coordinates is attained. */
  lemma {:induction false} CornerOfIsLeast(vs: seq<BuildingVoxel>, n: nat)
    requires 1 <= n <= |vs|
    ensures var c := CornerOf(vs, n);
      (forall i | 0 <= i < n :: c.x <= vs[i].x && c.y <= vs[i].y && c.z <= vs[i].z) &&
      (exists i | 0 <= i < n :: c.x == vs[i].x) &&
      (exists i | 0 <= i < n :: c.y == vs[i].y) &&
      (exists i | 0 <= i < n :: c.z == vs[i].z)
  {
    if n > 1 {
      CornerOfIsLeast(vs, n - 1);
      var c := CornerOf(vs, n - 1);
      var v := vs[n - 1];
      if v.x < c.x {
        assert CornerOf(vs, n).x == vs[n - 1].x;
      }
      if v.y < c.y {
        assert CornerOf(vs, n).y == vs[n - 1].y;
      }
      if v.z < c.z {
        assert CornerOf(vs, n).z == vs[n - 1].z;
      }
    } else {
      assert CornerOf(vs, 1).x == vs[0].x;
    }
  }

  /** The loop computing `minX`, `minY`, `minZ` over a non-empty building. */
  method MinCorner(vs: seq<BuildingVoxel>) returns (c: Pos)
    requires |vs| > 0
    ensures c == CornerOf(vs, |vs|)
  {
    c := Pos(vs[0].x, vs[0].y, vs[0].z);
    var i := 1;
    while i < |vs|
      invariant 1 <= i <= |vs| && c == CornerOf(vs, i)
    {
      var v := vs[i];
      var minX, minY, minZ := c.x, c.y, c.z;
      if v.x < minX { minX := v.x; }
      if v.y < minY { minY := v.y; }
      if v.z < minZ { minZ := v.z; }
      c := Pos(minX, minY, minZ);
      i := i + 1;
    }
  }

  /** The world cell of voxel v once the building's corner is moved baseY `offset` (base minus corner). */
  function Key(v: BuildingVoxel, offset: Pos): Pos
  {
    Pos(v.x + offset.x, v.y + offset.y, v.z + offset.z)
  }

  /** The offset that moves the corner of a non-empty building to (baseX, baseY, baseZ). */
  function Offset(vs: seq<BuildingVoxel>, baseX: int, baseY: int, baseZ: int): Pos
    requires |vs| > 0
  {
    var c := CornerOf(vs, |vs|);
    Pos(baseX - c.x, baseY - c.y, baseZ - c.z)
  }

  /**
   * Every voxel lands at or beyond the base in each axis, and in each axis
   * some voxel lands exactly on the base: the building's bounding box
   * starts at (baseX, baseY, baseZ).
   */
  lemma BuildingNormalised(vs: seq<BuildingVoxel>, baseX: int, baseY: int, baseZ: int)
    requires |vs| > 0
    ensures var o := Offset(vs, baseX, baseY, baseZ);
      (forall i | 0 <= i < |vs| :: Key(vs[i], o).x >= baseX && Key(vs[i], o).y >= baseY && Key(vs[i], o).z >= baseZ) &&
      (exists i | 0 <= i < |vs| :: Key(vs[i], o).x == baseX) &&
      (exists i | 0 <= i < |vs| :: Key(vs[i], o).y == baseY) &&
      (exists i | 0 <= i < |vs| :: Key(vs[i], o).z == baseZ)
  {
    CornerOfIsLeast(vs, |vs|);
  }

  /** The cells the first n voxels are written to. */
  function BuildingCells(vs: seq<BuildingVoxel>, offset: Pos, n: nat): set<Pos>
    requires n <= |vs|
  {
    if n == 0 then {} else BuildingCells(vs, offset, n - 1) + {Key(vs[n - 1], offset)}
  }

  /** The block-type map after the first n voxels are written in order. */
  function BuildingTypes(types: map<Pos, BlockType>, vs: seq<BuildingVoxel>, offset: Pos, n: nat): map<Pos, BlockType>
    requires n <= |vs|
  {
    if n == 0 then types else BuildingTypes(types, vs, offset, n - 1)[Key(vs[n - 1], offset) := vs[n - 1].kind]
  }

  /** The chunks of the voxels among the first n that are torches (`torches`) or are not. */
  function BuildingChunks(vs: seq<BuildingVoxel>, offset: Pos, n: nat, torches: bool): set<ChunkKey>
    requires n <= |vs|
  {
    if n == 0 then {}
    else
      var k := Key(vs[n - 1], offset);
      BuildingChunks(vs, offset, n - 1, torches) + (if (vs[n - 1].kind == Torch) == torches then {ChunkOf(k.x, k.z, CHUNK_SIZE)} else {})
  }

  /** The index of the last of the first n voxels written to p, or -1 when none is. */
  function LastWriter(vs: seq<BuildingVoxel>, offset: Pos, n: nat, p: Pos): (i: int)
    requires n <= |vs|
    ensures -1 <= i < n
  {
    if n == 0 then -1
    else if Key(vs[n - 1], offset) == p then n - 1
    else LastWriter(vs, offset, n - 1, p)
  }

  /** The last writer of p is written to p and no later voxel is; -1 means no voxel is. */
  lemma {:induction false} LastWriterIsLast(vs: seq<BuildingVoxel>, offset: Pos, n: nat, p: Pos)
    requires n <= |vs|
    ensures var i := LastWriter(vs, offset, n, p);
      (i >= 0 ==> Key(vs[i], offset) == p) &&
      (forall j | i < j < n :: Key(vs[j], offset) != p)
  {
    if n > 0 && Key(vs[n - 1], offset) != p {
      LastWriterIsLast(vs, offset, n - 1, p);
    }
  }

  /** A cell is written exactly when it has a last writer, and then it holds that voxel's type; others keep theirs. */
  lemma {:induction false} BuildingTypesAt(types: map<Pos, BlockType>, vs: seq<BuildingVoxel>, offset: Pos, n: nat, p: Pos)
    requires n <= |vs|
    ensures var i := LastWriter(vs, offset, n, p);
      var u := BuildingTypes(types, vs, offset, n);
      (p in BuildingCells(vs, offset, n) <==> i >= 0) &&
      (i >= 0 ==> p in u && u[p] == vs[i].kind) &&
      (i < 0 ==> (p in u <==> p in types) && (p in types ==> u[p] == types[p]))
  {
    if n > 0 {
      BuildingTypesAt(types, vs, offset, n - 1, p);
    }
  }

  /** A chunk is loaded for a voxel exactly when one of the first n voxels of that kind lies in it. */
  lemma {:induction false} BuildingChunksMembers(vs: seq<BuildingVoxel>, offset: Pos, n: nat, torches: bool, k: ChunkKey)
    requires n <= |vs|
    ensures k in BuildingChunks(vs, offset, n, torches) <==>
      exists i | 0 <= i < n :: (vs[i].kind == Torch) == torches && ChunkOf(Key(vs[i], offset).x, Key(vs[i], offset).z, CHUNK_SIZE) == k
  {
    if n > 0 {
      BuildingChunksMembers(vs, offset, n - 1, torches, k);
    }
  }

  /**
   * `addBuilding(voxels, baseX, baseY, baseZ)`: None for an empty building, which
   * returns false and changes nothing. Otherwise every voxel is written at
   * its normalised cell, later voxels overwriting earlier ones; the chunks
   * of non-torch voxels are loaded, and those of torches when the torch
   * model is ready (`torchReady`); column heights are not touched.
   */
  function AddBuildingResult(t: Tables, vs: seq<BuildingVoxel>, baseX: int, baseY: int, baseZ: int, torchReady: bool): Option<Tables>
  {
    if |vs| == 0 then None
    else
      var o := Offset(vs, baseX, baseY, baseZ);
      Some(t.(occupied := t.occupied + BuildingCells(vs, o, |vs|),
              types := BuildingTypes(t.types, vs, o, |vs|),
              loaded := t.loaded + BuildingChunks(vs, o, |vs|, false) +
                        (if torchReady then BuildingChunks(vs, o, |vs|, true) else {})))
  }

  /**
   * What `addBuilding` does to one cell: it is occupied afterwards when it
   * was or when a voxel lands on it, then holding the type of the last such
   * voxel; cells no voxel lands on keep their type; heights never change.
   */
  lemma AddBuildingAt(t: Tables, vs: seq<BuildingVoxel>, baseX: int, baseY: int, baseZ: int, torchReady: bool, p: Pos)
    requires |vs| > 0
    ensures var u := AddBuildingResult(t, vs, baseX, baseY, baseZ, torchReady).value;
      var i := LastWriter(vs, Offset(vs, baseX, baseY, baseZ), |vs|, p);
      u.heights == t.heights &&
      (p in u.occupied <==> p in t.occupied || i >= 0) &&
      (i >= 0 ==> Key(vs[i], Offset(vs, baseX, baseY, baseZ)) == p && p in u.types && u.types[p] == vs[i].kind) &&
      (i < 0 ==> (p in u.types <==> p in t.types) && (p in t.types ==> u.types[p] == t.types[p]))
  {
    var o := Offset(vs, baseX, baseY, baseZ);
    BuildingTypesAt(t.types, vs, o, |vs|, p);
    LastWriterIsLast(vs, o, |vs|, p);
  }

  /** The main voxel loop of `addBuilding`: writes the cells and gathers the non-torch chunks and the torches. */
  method WriteBuildingVoxels(w: World, vs: seq<BuildingVoxel>, offset: Pos) returns (chunks: set<ChunkKey>, torches: seq<Pos>)
    modifies w
    ensures w.Data() == old(w.Data()).(occupied := old(w.occupied) + BuildingCells(vs, offset, |vs|),
                                      types := BuildingTypes(old(w.types), vs, offset, |vs|))
    ensures chunks == BuildingChunks(vs, offset, |vs|, false)
    ensures TorchChunks(torches) == BuildingChunks(vs, offset, |vs|, true)
  {
    chunks, torches := {}, [];
    var i := 0;
    while i < |vs|
      invariant 0 <= i <= |vs|
      invariant w.Data() == old(w.Data()).(occupied := old(w.occupied) + BuildingCells(vs, offset, i),
                                          types := BuildingTypes(old(w.types), vs, offset, i))
      invariant chunks == BuildingChunks(vs, offset, i, false)
      invariant TorchChunks(torches) == BuildingChunks(vs, offset, i, true)
    {
      var v := vs[i];
      var key := Pos(v.x + offset.x, v.y + offset.y, v.z + offset.z);
      assert key == Key(vs[i], offset);
      ghost var t := w.Data();
      w.occupied := w.occupied + {key};
      w.types := w.types[key := v.kind];
      assert w.Data() == t.(occupied := t.occupied + {key}, types := t.types[key := v.kind]);
      ghost var before := torches;
      if v.kind == Torch {
        torches := torches + [key];
        assert torches[..|torches| - 1] == before;
      } else {
        chunks := chunks + {ChunkOf(key.x, key.z, CHUNK_SIZE)};
      }
      i := i + 1;
    }
  }

  /** The chunks of the torch positions `ps`. */
  function TorchChunks(ps: seq<Pos>): set<ChunkKey>
  {
    if ps == [] then {} else TorchChunks(ps[..|ps| - 1]) + {ChunkOf(ps[|ps| - 1].x, ps[|ps| - 1].z, CHUNK_SIZE)}
  }

  /** The torch loop: `createTorch` loads each torch's chunk when the torch model is ready. */
  method LoadTorchChunks(w: World, torches: seq<Pos>, torchReady: bool)
    modifies w
    ensures w.Data() == old(w.Data()).(loaded := old(w.loaded) + (if torchReady then TorchChunks(torches) else {}))
  {
    var i := 0;
    while i < |torches|
      invariant 0 <= i <= |torches|
      invariant w.Data() == old(w.Data()).(loaded := old(w.loaded) + (if torchReady then TorchChunks(torches[..i]) else {}))
    {
      if torchReady {
        assert torches[..i + 1][..i] == torches[..i];
        w.loaded := w.loaded + {ChunkOf(torches[i].x, torches[i].z, CHUNK_SIZE)};
      }
      i := i + 1;
    }
    assert torches[..|torches|] == torches;
  }

  /** `addBuilding` in place, on the world tables. */
  method AddBuilding(w: World, vs: seq<BuildingVoxel>, baseX: int, baseY: int, baseZ: int, torchReady: bool) returns (ok: bool)
    modifies w
    ensures ok == (|vs| > 0)
    ensures ok ==> Some(w.Data()) == AddBuildingResult(old(w.Data()), vs, baseX, baseY, baseZ, torchReady)
    ensures !ok ==> w.Data() == old(w.Data())
  {
    if |vs| == 0 {
      return false;
    }
    var c := MinCorner(vs);
    var offset := Pos(baseX - c.x, baseY - c.y, baseZ - c.z);
    assert offset == Offset(vs, baseX, baseY, baseZ);
    var chunks, torches := WriteBuildingVoxels(w, vs, offset);
    LoadTorchChunks(w, torches, torchReady);
    ghost var torchChunks := if torchReady then BuildingChunks(vs, offset, |vs|, true) else {};
    assert w.loaded == old(w.loaded) + torchChunks;
    w.loaded := w.loaded + chunks;
    assert w.loaded == old(w.loaded) + chunks + torchChunks;
    ok := true;
  }
}
