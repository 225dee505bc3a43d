/**
 * Terrain generation of T3/execution_part3.js (`generateChunk`): every
 * column of a chunk is built from one integer surface height.
 */
module Terrain {
  import opened Wrappers
  import opened Voxel
  import opened Store

  const AMPLITUDE: real := 30.0
  const BASE_HEIGHT: int := 1
  const HEIGHT_CAP: int := 30
  const SNOW_LINE: int := 25
  /** typeHeightMap[DIRT]: the number of Dirt layers under the cap. */
  const DIRT_LAYERS: int := 3

  /** Noise is an uninterpreted input: a value per world column. */
  type Noise = (int, int) -> real

  /** `min(floor(noise * amplitude) + 1, 30)`. */
  function SurfaceHeight(n: real, amplitude: real): (h: int)
    ensures h <= HEIGHT_CAP
    ensures h == HEIGHT_CAP || h == (n * amplitude).Floor + BASE_HEIGHT
    ensures h <= (n * amplitude).Floor + BASE_HEIGHT
  {
    Min((n * amplitude).Floor + BASE_HEIGHT, HEIGHT_CAP)
  }

  /** The surface height of column c in this generator. */
  function ColumnSurface(noise: Noise, c: Col): int
  {
    SurfaceHeight(noise(c.x, c.z), AMPLITUDE)
  }

  /** The cap of a dry column of height h (h >= sea level). */
  function TopBlock(h: int): (b: BlockType)
    ensures b == Grass || b == Sand || b == Snow
    ensures b == Sand <==> h == SEA_LEVEL + 1
    ensures b == Snow <==> h != SEA_LEVEL + 1 && h > SEA_LEVEL && h >= SNOW_LINE
  {
    if h <= SEA_LEVEL then Grass
    else if h == SEA_LEVEL + 1 then Sand
    else if h >= SNOW_LINE then Snow
    else Grass
  }

  /** Lowest cell a column of surface height h occupies. */
  function ColumnFloor(h: int): int
  {
    if h < SEA_LEVEL then Min(h, 0) else 0
  }

  /** Height recorded for a generated column of surface height h. */
  function ColumnHeight(h: int): (r: int)
    ensures r >= SEA_LEVEL && r >= h
    ensures r == SEA_LEVEL || r == h
  {
    if h < SEA_LEVEL then SEA_LEVEL else h
  }

  /**
   * The type a generated column of surface height h leaves at height y,
   * after all the writes of the generator (later writes win).
   */
  function ColumnType(h: int, y: int): (r: Option<BlockType>)
    ensures r.Some? <==> ColumnFloor(h) <= y < ColumnHeight(h)
  {
    if h < SEA_LEVEL then
      if h <= y < SEA_LEVEL then Some(Water)
      else if y == 0 then Some(Bedrock)
      else if 1 <= y < h then Some(Dirt)
      else None
    else
      if y == 0 then Some(Bedrock)
      else if y == h - 1 then Some(TopBlock(h))
      else if 1 <= y < h - 1 then Some(if y >= h - 1 - DIRT_LAYERS then Dirt else Stone)
      else None
  }

  /** The generator's layering rules, as the program states them. */
  lemma ColumnLayers(h: int, y: int)
    ensures h >= 1 ==> ColumnType(h, 0) == Some(Bedrock)
    ensures h <= 0 ==> ColumnType(h, 0) == Some(Water)
    ensures h < SEA_LEVEL ==>
      (1 <= y < h ==> ColumnType(h, y) == Some(Dirt)) &&
      (h <= y < SEA_LEVEL ==> ColumnType(h, y) == Some(Water)) &&
      ColumnHeight(h) == SEA_LEVEL
    ensures SEA_LEVEL <= h ==>
      (ColumnType(h, h - 1) == Some(if h == SEA_LEVEL + 1 then Sand else if h >= SNOW_LINE then Snow else Grass)) &&
      (h - 4 <= y < h - 1 ==> ColumnType(h, y) == Some(Dirt)) &&
      (1 <= y < h - 4 ==> ColumnType(h, y) == Some(Stone)) &&
      (y >= h ==> ColumnType(h, y) == None) &&
      ColumnHeight(h) == h
  {
  }

  /** The cells a generated column occupies. */
  function ColumnCells(c: Col, h: int): set<Pos>
  {
    set y | ColumnFloor(h) <= y < ColumnHeight(h) :: Pos(c.x, y, c.z)
  }

  function ColumnTypes(c: Col, h: int): map<Pos, BlockType>
  {
    map y | ColumnFloor(h) <= y < ColumnHeight(h) :: Pos(c.x, y, c.z) := ColumnType(h, y).value
  }

  /** The tables after generating column c: its cells are added and overwritten, its height reset. */
  function ApplyColumn(t: Tables, c: Col, h: int): Tables
  {
    t.(occupied := t.occupied + ColumnCells(c, h),
       types := t.types + ColumnTypes(c, h),
       heights := t.heights[c := ColumnHeight(h)])
  }

  /** The 36 columns of a chunk in the generator's order (x outer, z inner). */
  function ChunkColumns(k: ChunkKey): (cols: seq<Col>)
    ensures |cols| == CHUNK_SIZE * CHUNK_SIZE
  {
    seq(CHUNK_SIZE * CHUNK_SIZE, i requires 0 <= i => Col(k.cx * CHUNK_SIZE + i / CHUNK_SIZE, k.cz * CHUNK_SIZE + i % CHUNK_SIZE))
  }

  /** Generates the columns of `cols` in order. */
  function ApplyColumns(t: Tables, cols: seq<Col>, noise: Noise): Tables
  {
    if cols == [] then t
    else
      var last := cols[|cols| - 1];
      ApplyColumn(ApplyColumns(t, cols[..|cols| - 1], noise), last, ColumnSurface(noise, last))
  }

  /** `generateChunk(k)`: nothing when k is loaded, else all 36 columns and the key. */
  function ApplyChunk(t: Tables, k: ChunkKey, noise: Noise): Tables
  {
    if k in t.loaded then t
    else ApplyColumns(t, ChunkColumns(k), noise).(loaded := t.loaded + {k})
  }

  /** Builds one column exactly as the generator's loop body does. */
  method GenerateColumn(w: World, c: Col, h: int)
    modifies w
    ensures w.Data() == ApplyColumn(old(w.Data()), c, h)
  {
    var base := Pos(c.x, 0, c.z);
    w.types := w.types[base := Bedrock];
    w.occupied := w.occupied + {base};
    w.heights := w.heights[c := 1];
    if h < SEA_LEVEL {
      SubmergedLayers(w, c, h);
      ColumnSets(old(w.Data()), w.Data(), c, h);
    } else {
      DryLayers(w, c, h);
      DryColumn(old(w.Data()), w.Data(), c, h);
    }
  }

  /** A dry column's layer loop, run after the Bedrock, builds the whole column. */
  lemma DryColumn(t: Tables, u: Tables, c: Col, h: int)
    requires SEA_LEVEL <= h
    requires u.occupied == Layered(t.occupied + {Pos(c.x, 0, c.z)}, c, h)
    requires u.types == DryPainted(t.types[Pos(c.x, 0, c.z) := Bedrock], c, h, h)
    requires u.heights == t.heights[c := h]
    requires u.loaded == t.loaded
    ensures u == ApplyColumn(t, c, h)
  {
    DryOccupied(t.occupied, c, h);
    DryTypes(t.types, c, h);
  }

  /** The layer loop of a dry column adds exactly the column's cells to the Bedrock. */
  lemma DryOccupied(occ: set<Pos>, c: Col, h: int)
    requires SEA_LEVEL <= h
    ensures Layered(occ + {Pos(c.x, 0, c.z)}, c, h) == occ + ColumnCells(c, h)
  {
    forall p ensures p in Layered(occ + {Pos(c.x, 0, c.z)}, c, h) <==> p in occ + ColumnCells(c, h) {
      LayeredAt(occ + {Pos(c.x, 0, c.z)}, c, h, p);
      DryColumnAt(h, p.y);
      ColumnCellAt(c, h, p);
    }
  }

  /** The layer loop of a dry column writes exactly the column's types over the Bedrock. */
  lemma DryTypes(types: map<Pos, BlockType>, c: Col, h: int)
    requires SEA_LEVEL <= h
    ensures DryPainted(types[Pos(c.x, 0, c.z) := Bedrock], c, h, h) == types + ColumnTypes(c, h)
  {
    var r := DryPainted(types[Pos(c.x, 0, c.z) := Bedrock], c, h, h);
    var a := types + ColumnTypes(c, h);
    forall p ensures (p in r <==> p in a) && (p in r ==> r[p] == a[p]) {
      DryPaintedAt(types[Pos(c.x, 0, c.z) := Bedrock], c, h, h, p);
      DryColumnAt(h, p.y);
      ColumnCellAt(c, h, p);
    }
  }

  /** Dirt at 1..h-1, then Water from h up to sea level; column height 10. */
  method SubmergedLayers(w: World, c: Col, h: int)
    requires h < SEA_LEVEL
    requires Pos(c.x, 0, c.z) in w.occupied && Pos(c.x, 0, c.z) in w.types
    requires w.types[Pos(c.x, 0, c.z)] == Bedrock
    requires Height(w.heights, c.x, c.z) == 1
    modifies w
    ensures forall p :: p in w.occupied <==>
      p in old(w.occupied) || (p.x == c.x && p.z == c.z && ColumnType(h, p.y).Some?)
    ensures forall p :: p in w.types <==>
      p in old(w.types) || (p.x == c.x && p.z == c.z && ColumnType(h, p.y).Some?)
    ensures forall p | p in w.types ::
      w.types[p] == if p.x == c.x && p.z == c.z && ColumnType(h, p.y).Some?
                    then ColumnType(h, p.y).value else old(w.types)[p]
    ensures w.heights == old(w.heights)[c := SEA_LEVEL]
    ensures w.loaded == old(w.loaded)
  {
    DirtFill(w, c, h);
    WaterFill(w, c, h);
    w.heights := w.heights[c := Max(Height(w.heights, c.x, c.z), SEA_LEVEL)];
  }

  /** The Dirt loop of a submerged column: y = 1 .. h-1, raising the height as it goes. */
  method DirtFill(w: World, c: Col, h: int)
    requires Height(w.heights, c.x, c.z) == 1
    modifies w
    ensures forall p :: p in w.occupied <==>
      p in old(w.occupied) || (p.x == c.x && p.z == c.z && 1 <= p.y < h)
    ensures forall p :: p in w.types <==>
      p in old(w.types) || (p.x == c.x && p.z == c.z && 1 <= p.y < h)
    ensures forall p | p in w.types ::
      w.types[p] == if p.x == c.x && p.z == c.z && 1 <= p.y < h then Dirt else old(w.types)[p]
    ensures w.heights == old(w.heights)[c := Max(h, 1)]
    ensures w.loaded == old(w.loaded)
  {
    var i := 1;
    while i < h
      invariant 1 <= i && (i == 1 || i <= h)
      invariant forall p :: p in w.occupied <==>
        p in old(w.occupied) || (p.x == c.x && p.z == c.z && 1 <= p.y < i)
      invariant forall p :: p in w.types <==>
        p in old(w.types) || (p.x == c.x && p.z == c.z && 1 <= p.y < i)
      invariant forall p | p in w.types ::
        w.types[p] == if p.x == c.x && p.z == c.z && 1 <= p.y < i then Dirt else old(w.types)[p]
      invariant w.heights == old(w.heights)[c := i]
      invariant w.loaded == old(w.loaded)
    {
      var p := Pos(c.x, i, c.z);
      w.types := w.types[p := Dirt];
      var cur := Height(w.heights, c.x, c.z);
      if cur == 0 || i + 1 > cur {
        w.heights := w.heights[c := i + 1];
      }
      w.occupied := w.occupied + {p};
      i := i + 1;
    }
  }

  /** The Water loop of a submerged column: y = h .. sea level - 1. */
  method WaterFill(w: World, c: Col, h: int)
    modifies w
    ensures forall p :: p in w.occupied <==>
      p in old(w.occupied) || (p.x == c.x && p.z == c.z && h <= p.y < SEA_LEVEL)
    ensures forall p :: p in w.types <==>
      p in old(w.types) || (p.x == c.x && p.z == c.z && h <= p.y < SEA_LEVEL)
    ensures forall p | p in w.types ::
      w.types[p] == if p.x == c.x && p.z == c.z && h <= p.y < SEA_LEVEL then Water else old(w.types)[p]
    ensures w.heights == old(w.heights)
    ensures w.loaded == old(w.loaded)
  {
    var wy := h;
    while wy < SEA_LEVEL
      invariant wy == h || h <= wy <= SEA_LEVEL
      invariant forall p :: p in w.occupied <==>
        p in old(w.occupied) || (p.x == c.x && p.z == c.z && h <= p.y < wy)
      invariant forall p :: p in w.types <==>
        p in old(w.types) || (p.x == c.x && p.z == c.z && h <= p.y < wy)
      invariant forall p | p in w.types ::
        w.types[p] == if p.x == c.x && p.z == c.z && h <= p.y < wy then Water else old(w.types)[p]
      invariant w.heights == old(w.heights)
      invariant w.loaded == old(w.loaded)
    {
      var p := Pos(c.x, wy, c.z);
      w.types := w.types[p := Water];
      w.occupied := w.occupied + {p};
      wy := wy + 1;
    }
  }

  /** Stone, then Dirt, then the cap at h-1; column height h. */
  method DryLayers(w: World, c: Col, h: int)
    requires SEA_LEVEL <= h
    requires Pos(c.x, 0, c.z) in w.occupied && Pos(c.x, 0, c.z) in w.types
    requires w.types[Pos(c.x, 0, c.z)] == Bedrock
    requires Height(w.heights, c.x, c.z) == 1
    modifies w
    ensures w.occupied == Layered(old(w.occupied), c, h)
    ensures w.types == DryPainted(old(w.types), c, h, h)
    ensures w.heights == old(w.heights)[c := h]
    ensures w.loaded == old(w.loaded)
  {
    var i := 1;
    while i < h
      invariant 1 <= i <= h
      invariant w.occupied == Layered(old(w.occupied), c, i)
      invariant w.types == DryPainted(old(w.types), c, h, i)
      invariant w.heights == old(w.heights)[c := i]
      invariant w.loaded == old(w.loaded)
    {
      var b := if i == h - 1 then TopBlock(h) else if i >= h - 1 - DIRT_LAYERS then Dirt else Stone;
      assert b == ColumnType(h, i).value;
      var p := Pos(c.x, i, c.z);
      w.types := w.types[p := b];
      var cur := Height(w.heights, c.x, c.z);
      if cur == 0 || i + 1 > cur {
        w.heights := w.heights[c := i + 1];
      }
      w.occupied := w.occupied + {p};
      i := i + 1;
    }
  }

  /** The cells y = 1 .. i-1 of column c added to occ, in loop order. */
  function Layered(occ: set<Pos>, c: Col, i: int): set<Pos>
    decreases i
  {
    if i <= 1 then occ else Layered(occ, c, i - 1) + {Pos(c.x, i - 1, c.z)}
  }

  lemma {:induction false} LayeredAt(occ: set<Pos>, c: Col, i: int, p: Pos)
    decreases i
    ensures p in Layered(occ, c, i) <==> p in occ || (p.x == c.x && p.z == c.z && 1 <= p.y < i)
  {
    if i > 1 {
      LayeredAt(occ, c, i - 1, p);
    }
  }

  /** The layer types of the cells y = 1 .. i-1 of a dry column of height h written over types, in loop order. */
  function DryPainted(types: map<Pos, BlockType>, c: Col, h: int, i: int): map<Pos, BlockType>
    requires SEA_LEVEL <= h && i <= h
    decreases i
  {
    if i <= 1 then types else DryPainted(types, c, h, i - 1)[Pos(c.x, i - 1, c.z) := ColumnType(h, i - 1).value]
  }

  lemma {:induction false} DryPaintedAt(types: map<Pos, BlockType>, c: Col, h: int, i: int, p: Pos)
    requires SEA_LEVEL <= h && i <= h
    decreases i
    ensures var r := DryPainted(types, c, h, i);
      var layer := p.x == c.x && p.z == c.z && 1 <= p.y < i;
      (p in r <==> p in types || layer) &&
      (p in r ==> r[p] == if layer then ColumnType(h, p.y).value else types[p])
  {
    if i > 1 {
      DryPaintedAt(types, c, h, i - 1, p);
    }
  }

  /** A dry column has cells exactly at 0 .. h-1, Bedrock at the bottom. */
  lemma DryColumnAt(h: int, y: int)
    requires SEA_LEVEL <= h
    ensures ColumnType(h, y).Some? <==> 0 <= y < h
    ensures y == 0 ==> ColumnType(h, y) == Some(Bedrock)
  {
  }

  /** Every column has a cell at y = 0, so the Bedrock written first is always overwritten or kept by the column. */
  lemma BaseInColumn(c: Col, h: int, p: Pos)
    ensures p == Pos(c.x, 0, c.z) ==> p.x == c.x && p.z == c.z && ColumnType(h, p.y).Some?
  {
  }

  /** Membership in a column's cells and types, one cell at a time. */
  lemma ColumnCellAt(c: Col, h: int, p: Pos)
    ensures p in ColumnCells(c, h) <==> p.x == c.x && p.z == c.z && ColumnType(h, p.y).Some?
    ensures p in ColumnTypes(c, h) <==> p.x == c.x && p.z == c.z && ColumnType(h, p.y).Some?
    ensures p in ColumnTypes(c, h) ==> ColumnTypes(c, h)[p] == ColumnType(h, p.y).value
  {
    if p.x == c.x && p.z == c.z && ColumnType(h, p.y).Some? {
      assert p == Pos(c.x, p.y, c.z);
    }
  }

  /** Pointwise description of a column's writes equals ApplyColumn. */
  lemma ColumnSets(t: Tables, u: Tables, c: Col, h: int)
    requires forall p :: p in u.occupied <==>
      p in t.occupied + {Pos(c.x, 0, c.z)} || (p.x == c.x && p.z == c.z && ColumnType(h, p.y).Some?)
    requires forall p :: p in u.types <==>
      p in t.types[Pos(c.x, 0, c.z) := Bedrock] || (p.x == c.x && p.z == c.z && ColumnType(h, p.y).Some?)
    requires forall p | p in u.types ::
      u.types[p] == if p.x == c.x && p.z == c.z && ColumnType(h, p.y).Some? then ColumnType(h, p.y).value
                    else t.types[Pos(c.x, 0, c.z) := Bedrock][p]
    requires u.heights == t.heights[c := ColumnHeight(h)]
    requires u.loaded == t.loaded
    ensures u == ApplyColumn(t, c, h)
  {
    ColumnOccupied(t.occupied, u.occupied, c, h);
    ColumnTypesSet(t.types, u.types, c, h);
  }

  /** The occupied set of a column, from its pointwise description after the Bedrock. */
  lemma ColumnOccupied(occ: set<Pos>, r: set<Pos>, c: Col, h: int)
    requires forall p :: p in r <==>
      p in occ + {Pos(c.x, 0, c.z)} || (p.x == c.x && p.z == c.z && ColumnType(h, p.y).Some?)
    ensures r == occ + ColumnCells(c, h)
  {
    forall p ensures p in r <==> p in occ + ColumnCells(c, h) {
      ColumnCellAt(c, h, p);
      BaseInColumn(c, h, p);
    }
  }

  /** The type table of a column, from its pointwise description after the Bedrock. */
  lemma ColumnTypesSet(types: map<Pos, BlockType>, r: map<Pos, BlockType>, c: Col, h: int)
    requires forall p :: p in r <==>
      p in types[Pos(c.x, 0, c.z) := Bedrock] || (p.x == c.x && p.z == c.z && ColumnType(h, p.y).Some?)
    requires forall p | p in r ::
      r[p] == if p.x == c.x && p.z == c.z && ColumnType(h, p.y).Some? then ColumnType(h, p.y).value
              else types[Pos(c.x, 0, c.z) := Bedrock][p]
    ensures r == types + ColumnTypes(c, h)
  {
    var a := types + ColumnTypes(c, h);
    forall p ensures (p in r <==> p in a) && (p in r ==> r[p] == a[p]) {
      ColumnCellAt(c, h, p);
      BaseInColumn(c, h, p);
    }
  }
}

module Chunks {
  import opened Wrappers
  import opened Voxel
  import opened Store
  import opened Terrain

  /** `generateChunk(cx, cz)`: the two nested column loops, then the key is marked loaded. */
  method GenerateChunk(w: World, k: ChunkKey, noise: Noise)
    modifies w
    ensures w.Data() == ApplyChunk(old(w.Data()), k, noise)
  {
    if k in w.loaded {
      return;
    }
    ghost var cols := ChunkColumns(k);
    var x := 0;
    while x < CHUNK_SIZE
      invariant 0 <= x <= CHUNK_SIZE
      invariant w.Data() == ApplyColumns(old(w.Data()), cols[..x * CHUNK_SIZE], noise)
      invariant w.loaded == old(w.loaded)
    {
      GenerateChunkRow(w, k, x, noise, old(w.Data()));
      x := x + 1;
    }
    assert cols[..CHUNK_SIZE * CHUNK_SIZE] == cols;
    w.loaded := w.loaded + {k};
  }

  /** The inner loop of `generateChunk`: the six columns of one x offset. */
  method GenerateChunkRow(w: World, k: ChunkKey, x: int, noise: Noise, ghost t0: Tables)
    requires 0 <= x < CHUNK_SIZE
    requires w.Data() == ApplyColumns(t0, ChunkColumns(k)[..x * CHUNK_SIZE], noise)
    requires w.loaded == t0.loaded
    modifies w
    ensures w.Data() == ApplyColumns(t0, ChunkColumns(k)[..x * CHUNK_SIZE + CHUNK_SIZE], noise)
    ensures w.loaded == t0.loaded
  {
    ghost var cols := ChunkColumns(k);
    var z := 0;
    while z < CHUNK_SIZE
      invariant 0 <= z <= CHUNK_SIZE
      invariant w.Data() == ApplyColumns(t0, cols[..x * CHUNK_SIZE + z], noise)
      invariant w.loaded == t0.loaded
    {
      var c := Col(k.cx * CHUNK_SIZE + x, k.cz * CHUNK_SIZE + z);
      var h := SurfaceHeight(noise(c.x, c.z), AMPLITUDE);
      ChunkColumnAt(k, x, z);
      ApplyColumnsSnoc(t0, cols, x * CHUNK_SIZE + z, noise);
      GenerateColumn(w, c, h);
      z := z + 1;
    }
  }

  lemma ChunkColumnAt(k: ChunkKey, x: int, z: int)
    requires 0 <= x < CHUNK_SIZE && 0 <= z < CHUNK_SIZE
    ensures ChunkColumns(k)[x * CHUNK_SIZE + z] == Col(k.cx * CHUNK_SIZE + x, k.cz * CHUNK_SIZE + z)
  {
  }

  lemma ApplyColumnsSnoc(t: Tables, cols: seq<Col>, n: nat, noise: Noise)
    requires n < |cols|
    ensures ApplyColumns(t, cols[..n + 1], noise)
         == ApplyColumn(ApplyColumns(t, cols[..n], noise), cols[n], ColumnSurface(noise, cols[n]))
  {
    assert cols[..n + 1][..n] == cols[..n];
  }

  /** A column belongs to a chunk's column list exactly when it lies in that chunk. */
  lemma ChunkColumnsMembers(k: ChunkKey, c: Col)
    ensures c in ChunkColumns(k) <==> ChunkOf(c.x, c.z, CHUNK_SIZE) == k
  {
    var cols := ChunkColumns(k);
    if ChunkOf(c.x, c.z, CHUNK_SIZE) == k {
      var i := (c.x - k.cx * CHUNK_SIZE) * CHUNK_SIZE + (c.z - k.cz * CHUNK_SIZE);
      assert cols[i] == c;
    }
  }

  /**
   * What generating a list of columns does, cell by cell: every listed
   * column's layers are added with their generated types and its height is
   * reset, everything else is left as it was.
   */
  lemma {:induction false} ApplyColumnsEffect(t: Tables, cols: seq<Col>, noise: Noise)
    ensures ApplyColumns(t, cols, noise).loaded == t.loaded
    ensures forall p :: p in ApplyColumns(t, cols, noise).occupied <==>
      p in t.occupied || (Col(p.x, p.z) in cols && ColumnType(ColumnSurface(noise, Col(p.x, p.z)), p.y).Some?)
    ensures forall p :: p in ApplyColumns(t, cols, noise).types <==>
      p in t.types || (Col(p.x, p.z) in cols && ColumnType(ColumnSurface(noise, Col(p.x, p.z)), p.y).Some?)
    ensures forall p | p in ApplyColumns(t, cols, noise).types ::
      ApplyColumns(t, cols, noise).types[p] ==
        if Col(p.x, p.z) in cols && ColumnType(ColumnSurface(noise, Col(p.x, p.z)), p.y).Some?
        then ColumnType(ColumnSurface(noise, Col(p.x, p.z)), p.y).value
        else t.types[p]
    ensures forall c :: c in ApplyColumns(t, cols, noise).heights <==> c in t.heights || c in cols
    ensures forall c | c in ApplyColumns(t, cols, noise).heights ::
      ApplyColumns(t, cols, noise).heights[c] ==
        if c in cols then ColumnHeight(ColumnSurface(noise, c)) else t.heights[c]
  {
    if cols != [] {
      var init := cols[..|cols| - 1];
      var last := cols[|cols| - 1];
      ApplyColumnsEffect(t, init, noise);
      assert forall c :: c in cols <==> c in init || c == last;
      var h := ColumnSurface(noise, last);
      forall p: Pos | p.x == last.x && p.z == last.z && ColumnType(h, p.y).Some?
        ensures p in ColumnCells(last, h) && p in ColumnTypes(last, h)
        ensures ColumnTypes(last, h)[p] == ColumnType(h, p.y).value
      {
        assert p == Pos(last.x, p.y, last.z);
      }
    }
  }

  /** Cell p is one of the cells generating chunk k lays down. */
  predicate InChunkLayers(noise: Noise, k: ChunkKey, p: Pos)
  {
    ChunkOf(p.x, p.z, CHUNK_SIZE) == k && ColumnType(ColumnSurface(noise, Col(p.x, p.z)), p.y).Some?
  }

  /**
   * `generateChunk` on a key not yet loaded: every column of the chunk gets
   * its layers (Bedrock at y = 0 unless Water overwrote it), its height is
   * reset to the generated height whatever it was before, the key becomes
   * loaded, and no cell or column outside the chunk changes. On a loaded key
   * nothing changes at all.
   */
  lemma GenerateChunkEffect(t: Tables, k: ChunkKey, noise: Noise)
    ensures k in t.loaded ==> ApplyChunk(t, k, noise) == t
    ensures k !in t.loaded ==>
      var u := ApplyChunk(t, k, noise);
      u.loaded == t.loaded + {k} &&
      (forall p :: p in u.occupied <==> p in t.occupied || InChunkLayers(noise, k, p)) &&
      (forall p :: p in u.types <==> p in t.types || InChunkLayers(noise, k, p)) &&
      (forall p | InChunkLayers(noise, k, p) ::
        u.types[p] == ColumnType(ColumnSurface(noise, Col(p.x, p.z)), p.y).value) &&
      (forall p | p in t.types && !InChunkLayers(noise, k, p) :: u.types[p] == t.types[p]) &&
      (forall c: Col | ChunkOf(c.x, c.z, CHUNK_SIZE) == k ::
        c in u.heights && u.heights[c] == ColumnHeight(ColumnSurface(noise, c))) &&
      (forall c: Col | ChunkOf(c.x, c.z, CHUNK_SIZE) != k ::
        (c in u.heights <==> c in t.heights) && (c in t.heights ==> u.heights[c] == t.heights[c]))
  {
    if k !in t.loaded {
      ApplyColumnsEffect(t, ChunkColumns(k), noise);
      forall c ensures c in ChunkColumns(k) <==> ChunkOf(c.x, c.z, CHUNK_SIZE) == k {
        ChunkColumnsMembers(k, c);
      }
    }
  }

  /** Generating a chunk twice is the same as generating it once. */
  lemma GenerateChunkIdempotent(t: Tables, k: ChunkKey, noise: Noise)
    ensures ApplyChunk(ApplyChunk(t, k, noise), k, noise) == ApplyChunk(t, k, noise)
    ensures k in ApplyChunk(t, k, noise).loaded
  {
  }
}
