/**
 * Terrain generation of the second version (T2/execution_part2.js
 * `generateChunk`): 16×16 chunks, columns outside the 200×200 plane left
 * empty, a water column without soil or bedrock below sea level, and column
 * heights that only ever grow.
 */
module Classic {
  import opened Wrappers
  import opened Voxel
  import opened Store
  import opened Terrain

  const CLASSIC_CHUNK: int := 16
  const CLASSIC_AMPLITUDE: real := 40.0
  /** `planeSize / 2` of this version: columns at this distance or more are skipped. */
  const CLASSIC_HALF_PLANE: int := 100

  /** The column lies in the generated plane: |x| < 100 and |z| < 100. */
  predicate InPlane(c: Col)
  {
    -CLASSIC_HALF_PLANE < c.x < CLASSIC_HALF_PLANE && -CLASSIC_HALF_PLANE < c.z < CLASSIC_HALF_PLANE
  }

  /** The surface height of column c in this generator. */
  function ClassicSurface(noise: Noise, c: Col): int
  {
    SurfaceHeight(noise(c.x, c.z), CLASSIC_AMPLITUDE)
  }

  /** The type a column of surface height h gets at height y in this version. */
  function ClassicType(h: int, y: int): (r: Option<BlockType>)
    ensures r.Some? <==> 0 <= y < ColumnHeight(h)
  {
    if h < SEA_LEVEL then
      if 0 <= y < SEA_LEVEL then Some(Water) else None
    else if y == h - 1 then Some(TopBlock(h))
    else if 0 <= y < h - 1 then Some(if y >= h - 1 - DIRT_LAYERS then Dirt else Stone)
    else None
  }

  /**
   * The layering rules of this version: a below-sea column is Water from
   * y = 0 to sea level with nothing under it (no Bedrock, no soil); any other
   * column is filled from y = 0 to h - 1 with the cap, three Dirt layers and
   * Stone.
   */
  lemma ClassicLayers(h: int, y: int)
    ensures h < SEA_LEVEL ==>
      (0 <= y < SEA_LEVEL <==> ClassicType(h, y) == Some(Water)) &&
      (forall y' :: ClassicType(h, y') != Some(Bedrock) && ClassicType(h, y') != Some(Dirt))
    ensures SEA_LEVEL <= h ==>
      ClassicType(h, h - 1) == Some(if h == SEA_LEVEL + 1 then Sand else if h >= SNOW_LINE then Snow else Grass) &&
      (h - 4 <= y < h - 1 ==> ClassicType(h, y) == Some(Dirt)) &&
      (0 <= y < h - 4 ==> ClassicType(h, y) == Some(Stone)) &&
      (ClassicType(h, y).Some? <==> 0 <= y < h)
  {
  }

  /**
   * The tables after this version generates column c: nothing outside the
   * plane; otherwise its cells are added and overwritten and its height is
   * raised to at least the column's height, never lowered.
   */
  function ApplyClassicColumn(t: Tables, c: Col, h: int): Tables
  {
    if !InPlane(c) then t
    else
      t.(occupied := t.occupied + ClassicCells(c, ColumnHeight(h)),
         types := t.types + ClassicTypes(c, h, ColumnHeight(h)),
         heights := t.heights[c := Max(Height(t.heights, c.x, c.z), ColumnHeight(h))])
  }

  /** The cells y = 0 .. n-1 of column c. */
  function ClassicCells(c: Col, n: int): set<Pos>
  {
    set y | 0 <= y < n :: Pos(c.x, y, c.z)
  }

  /** The types this version gives the cells y = 0 .. n-1 of a column of surface height h. */
  function ClassicTypes(c: Col, h: int, n: int): map<Pos, BlockType>
    requires n <= ColumnHeight(h)
  {
    map y | 0 <= y < n :: Pos(c.x, y, c.z) := ClassicType(h, y).value
  }

  lemma ClassicCellsSnoc(c: Col, n: int)
    requires 0 <= n
    ensures ClassicCells(c, n + 1) == ClassicCells(c, n) + {Pos(c.x, n, c.z)}
  {
    forall p | p in ClassicCells(c, n + 1) ensures p in ClassicCells(c, n) + {Pos(c.x, n, c.z)} {
      if p.y < n {
        assert p in ClassicCells(c, n);
      }
    }
  }

  lemma ClassicTypesSnoc(m: map<Pos, BlockType>, c: Col, h: int, n: int)
    requires 0 <= n < ColumnHeight(h)
    ensures (m + ClassicTypes(c, h, n))[Pos(c.x, n, c.z) := ClassicType(h, n).value] == m + ClassicTypes(c, h, n + 1)
  {
    var lhs := (m + ClassicTypes(c, h, n))[Pos(c.x, n, c.z) := ClassicType(h, n).value];
    var rhs := m + ClassicTypes(c, h, n + 1);
    forall p ensures (p in lhs <==> p in rhs) && (p in lhs ==> lhs[p] == rhs[p]) {
      ClassicTypesAt(c, h, n, p);
      ClassicTypesAt(c, h, n + 1, p);
    }
  }

  /** Membership in and values of a column's type map, one cell at a time. */
  lemma ClassicTypesAt(c: Col, h: int, n: int, p: Pos)
    requires n <= ColumnHeight(h)
    ensures p in ClassicTypes(c, h, n) <==> p.x == c.x && p.z == c.z && 0 <= p.y < n
    ensures p in ClassicTypes(c, h, n) ==> ClassicTypes(c, h, n)[p] == ClassicType(h, p.y).value
  {
    if p.x == c.x && p.z == c.z && 0 <= p.y < n {
      assert p == Pos(c.x, p.y, c.z);
    }
  }

  /** The 256 columns of a 16×16 chunk in the generator's order (x outer, z inner). */
  function ClassicColumns(k: ChunkKey): (cols: seq<Col>)
    ensures |cols| == CLASSIC_CHUNK * CLASSIC_CHUNK
  {
    seq(CLASSIC_CHUNK * CLASSIC_CHUNK, i requires 0 <= i =>
      Col(k.cx * CLASSIC_CHUNK + i / CLASSIC_CHUNK, k.cz * CLASSIC_CHUNK + i % CLASSIC_CHUNK))
  }

  function ApplyClassicColumns(t: Tables, cols: seq<Col>, noise: Noise): Tables
  {
    if cols == [] then t
    else
      var last := cols[|cols| - 1];
      ApplyClassicColumn(ApplyClassicColumns(t, cols[..|cols| - 1], noise), last, ClassicSurface(noise, last))
  }

  /** `generateChunk(k)` of this version. */
  function ApplyClassicChunk(t: Tables, k: ChunkKey, noise: Noise): Tables
  {
    if k in t.loaded then t
    else ApplyClassicColumns(t, ClassicColumns(k), noise).(loaded := t.loaded + {k})
  }

  /** `generateChunk(cx, cz)` of this version: two nested column loops, then the key. */
  method GenerateClassicChunk(w: World, k: ChunkKey, noise: Noise)
    modifies w
    ensures w.Data() == ApplyClassicChunk(old(w.Data()), k, noise)
  {
    if k in w.loaded {
      return;
    }
    ghost var cols := ClassicColumns(k);
    var x := 0;
    while x < CLASSIC_CHUNK
      invariant 0 <= x <= CLASSIC_CHUNK
      invariant w.Data() == ApplyClassicColumns(old(w.Data()), cols[..x * CLASSIC_CHUNK], noise)
      invariant w.loaded == old(w.loaded)
    {
      GenerateClassicRow(w, k, x, noise, old(w.Data()));
      x := x + 1;
    }
    assert cols[..CLASSIC_CHUNK * CLASSIC_CHUNK] == cols;
    w.loaded := w.loaded + {k};
  }

  /** The inner loop of this version's `generateChunk`: the 16 columns of one x offset. */
  method GenerateClassicRow(w: World, k: ChunkKey, x: int, noise: Noise, ghost t0: Tables)
    requires 0 <= x < CLASSIC_CHUNK
    requires w.Data() == ApplyClassicColumns(t0, ClassicColumns(k)[..x * CLASSIC_CHUNK], noise)
    requires w.loaded == t0.loaded
    modifies w
    ensures w.Data() == ApplyClassicColumns(t0, ClassicColumns(k)[..x * CLASSIC_CHUNK + CLASSIC_CHUNK], noise)
    ensures w.loaded == t0.loaded
  {
    ghost var cols := ClassicColumns(k);
    var z := 0;
    while z < CLASSIC_CHUNK
      invariant 0 <= z <= CLASSIC_CHUNK
      invariant w.Data() == ApplyClassicColumns(t0, cols[..x * CLASSIC_CHUNK + z], noise)
      invariant w.loaded == t0.loaded
    {
      var c := Col(k.cx * CLASSIC_CHUNK + x, k.cz * CLASSIC_CHUNK + z);
      ghost var before := w.Data();
      if InPlane(c) {
        var h := SurfaceHeight(noise(c.x, c.z), CLASSIC_AMPLITUDE);
        GenerateClassicColumn(w, c, h);
      }
      ClassicRowStep(t0, k, x, z, noise, before, w.Data());
      z := z + 1;
    }
  }

  /** One pass of the z loop: column (x, z) of the chunk is generated next. */
  lemma ClassicRowStep(t0: Tables, k: ChunkKey, x: int, z: int, noise: Noise, before: Tables, after: Tables)
    requires 0 <= x < CLASSIC_CHUNK && 0 <= z < CLASSIC_CHUNK
    requires before == ApplyClassicColumns(t0, ClassicColumns(k)[..x * CLASSIC_CHUNK + z], noise)
    requires var c := Col(k.cx * CLASSIC_CHUNK + x, k.cz * CLASSIC_CHUNK + z);
      after == if InPlane(c) then ApplyClassicColumn(before, c, ClassicSurface(noise, c)) else before
    ensures after == ApplyClassicColumns(t0, ClassicColumns(k)[..x * CLASSIC_CHUNK + z + 1], noise)
    ensures after.loaded == before.loaded
  {
    ClassicColumnAt(k, x, z);
    ClassicColumnsSnoc(t0, ClassicColumns(k), x * CLASSIC_CHUNK + z, noise);
  }

  lemma ClassicColumnAt(k: ChunkKey, x: int, z: int)
    requires 0 <= x < CLASSIC_CHUNK && 0 <= z < CLASSIC_CHUNK
    ensures ClassicColumns(k)[x * CLASSIC_CHUNK + z] == Col(k.cx * CLASSIC_CHUNK + x, k.cz * CLASSIC_CHUNK + z)
  {
  }

  lemma ClassicColumnsSnoc(t: Tables, cols: seq<Col>, n: nat, noise: Noise)
    requires n < |cols|
    ensures ApplyClassicColumns(t, cols[..n + 1], noise)
         == ApplyClassicColumn(ApplyClassicColumns(t, cols[..n], noise), cols[n], ClassicSurface(noise, cols[n]))
  {
    assert cols[..n + 1][..n] == cols[..n];
  }

  /** One in-plane column: the Water loop below sea level, the soil loop otherwise. */
  method GenerateClassicColumn(w: World, c: Col, h: int)
    requires InPlane(c)
    modifies w
    ensures w.Data() == ApplyClassicColumn(old(w.Data()), c, h)
  {
    var n := if h < SEA_LEVEL then SEA_LEVEL else h;
    var i := 0;
    while i < n
      invariant 0 <= i <= n
      invariant w.Data() == ClassicPrefix(old(w.Data()), c, h, i)
    {
      var b := if h < SEA_LEVEL then Water
        else if i == h - 1 then TopBlock(h)
        else if i >= h - 1 - DIRT_LAYERS then Dirt
        else Stone;
      assert b == ClassicType(h, i).value;
      ghost var before := w.Data();
      var p := Pos(c.x, i, c.z);
      w.types := w.types[p := b];
      var cur := Height(w.heights, c.x, c.z);
      if cur == 0 || i + 1 > cur {
        w.heights := w.heights[c := i + 1];
      }
      w.occupied := w.occupied + {p};
      assert w.Data() == ClassicWrite(before, c, h, i);
      i := i + 1;
    }
    ClassicPrefixApply(old(w.Data()), c, h);
  }

  /**
   * One pass of the column loop at height y: the cell is added and typed,
   * and the column height becomes y + 1 when it was unset or lower.
   */
  function ClassicWrite(t: Tables, c: Col, h: int, y: int): Tables
    requires 0 <= y < ColumnHeight(h)
  {
    var p := Pos(c.x, y, c.z);
    var cur := Height(t.heights, c.x, c.z);
    t.(occupied := t.occupied + {p},
       types := t.types[p := ClassicType(h, y).value],
       heights := if cur == 0 || y + 1 > cur then t.heights[c := y + 1] else t.heights)
  }

  /** The tables after the first i passes of the column loop. */
  function ClassicPrefix(t: Tables, c: Col, h: int, i: int): Tables
    requires 0 <= i <= ColumnHeight(h)
    decreases i
  {
    if i == 0 then t else ClassicWrite(ClassicPrefix(t, c, h, i - 1), c, h, i - 1)
  }

  /** After i passes the column holds its first i cells, typed in order, and its height is raised to at least i. */
  lemma {:induction false} ClassicPrefixShape(t: Tables, c: Col, h: int, i: int)
    requires 0 <= i <= ColumnHeight(h)
    decreases i
    ensures ClassicPrefix(t, c, h, i)
         == t.(occupied := t.occupied + ClassicCells(c, i), types := Typed(t.types, c, h, i), heights := Raised(t.heights, c, i))
  {
    if i == 0 {
      assert ClassicCells(c, 0) == {};
    } else {
      ClassicPrefixShape(t, c, h, i - 1);
      ClassicCellsSnoc(c, i - 1);
      RaisedStep(t.heights, c, i - 1);
    }
  }

  /** The whole column loop is `ApplyClassicColumn` for an in-plane column. */
  lemma ClassicPrefixApply(t: Tables, c: Col, h: int)
    requires InPlane(c)
    ensures ClassicPrefix(t, c, h, ColumnHeight(h)) == ApplyClassicColumn(t, c, h)
  {
    ClassicPrefixShape(t, c, h, ColumnHeight(h));
    TypedMerge(t.types, c, h, ColumnHeight(h));
  }

  /** The types after the first n cells of the column are written in order over m. */
  function Typed(m: map<Pos, BlockType>, c: Col, h: int, n: int): map<Pos, BlockType>
    requires n <= ColumnHeight(h)
    decreases n
  {
    if n <= 0 then m else Typed(m, c, h, n - 1)[Pos(c.x, n - 1, c.z) := ClassicType(h, n - 1).value]
  }

  /** Writing the cells one by one in order has the effect of merging the column's type map. */
  lemma {:induction false} TypedMerge(m: map<Pos, BlockType>, c: Col, h: int, n: int)
    requires 0 <= n <= ColumnHeight(h)
    decreases n
    ensures Typed(m, c, h, n) == m + ClassicTypes(c, h, n)
  {
    if n == 0 {
      assert ClassicTypes(c, h, 0) == map[];
    } else {
      TypedMerge(m, c, h, n - 1);
      ClassicTypesSnoc(m, c, h, n - 1);
    }
  }

  /** The heights after the first i cells of column c are written: the column's height is raised to at least i. */
  function Raised(heights: map<Col, int>, c: Col, i: int): map<Col, int>
  {
    if i <= 0 then heights else heights[c := Max(Height(heights, c.x, c.z), i)]
  }

  /** Writing cell i of the column and raising its height to i + 1 when lower takes `Raised` from i to i + 1. */
  lemma RaisedStep(heights: map<Col, int>, c: Col, i: int)
    requires 0 <= i
    ensures var r := Raised(heights, c, i);
      var cur := Height(r, c.x, c.z);
      (if cur == 0 || i + 1 > cur then r[c := i + 1] else r) == Raised(heights, c, i + 1)
  {
    var r := Raised(heights, c, i);
    if i > 0 {
      assert Height(r, c.x, c.z) == Max(Height(heights, c.x, c.z), i);
    }
  }

  /**
   * Generating a list of columns in this version never lowers a column
   * height, never removes a cell, leaves the loaded set alone, and changes
   * nothing in a column that is not listed or lies outside the plane.
   */
  lemma {:induction false} ClassicColumnsEffect(t: Tables, cols: seq<Col>, noise: Noise)
    ensures ApplyClassicColumns(t, cols, noise).loaded == t.loaded
    ensures t.occupied <= ApplyClassicColumns(t, cols, noise).occupied
    ensures forall c | c in t.heights ::
      c in ApplyClassicColumns(t, cols, noise).heights && ApplyClassicColumns(t, cols, noise).heights[c] >= t.heights[c]
    ensures forall p: Pos | Col(p.x, p.z) !in cols || !InPlane(Col(p.x, p.z)) ::
      (p in ApplyClassicColumns(t, cols, noise).occupied <==> p in t.occupied) &&
      (p in ApplyClassicColumns(t, cols, noise).types <==> p in t.types) &&
      (p in t.types ==> ApplyClassicColumns(t, cols, noise).types[p] == t.types[p])
    ensures forall c | c !in cols || !InPlane(c) ::
      (c in ApplyClassicColumns(t, cols, noise).heights <==> c in t.heights) &&
      (c in t.heights ==> ApplyClassicColumns(t, cols, noise).heights[c] == t.heights[c])
  {
    if cols != [] {
      var init := cols[..|cols| - 1];
      var last := cols[|cols| - 1];
      ClassicColumnsEffect(t, init, noise);
      assert forall c :: c in cols <==> c in init || c == last;
    }
  }

  /** The type this version gives cell p, if its column reaches that high. */
  function ClassicCell(noise: Noise, p: Pos): Option<BlockType>
  {
    ClassicType(ClassicSurface(noise, Col(p.x, p.z)), p.y)
  }

  lemma ClassicCellsAt(c: Col, n: int, p: Pos)
    ensures p in ClassicCells(c, n) <==> p.x == c.x && p.z == c.z && 0 <= p.y < n
  {
    if p.x == c.x && p.z == c.z && 0 <= p.y < n {
      assert p == Pos(c.x, p.y, c.z);
    }
  }

  /**
   * Cell p after a list of columns is generated: it is occupied and typed
   * when it was before or when its column is listed, lies in the plane and
   * reaches height p.y; its type is then the generated one, and otherwise
   * it keeps the type it had.
   */
  lemma {:induction false} ClassicColumnsAt(t: Tables, cols: seq<Col>, noise: Noise, p: Pos)
    ensures var u := ApplyClassicColumns(t, cols, noise);
      var gen := Col(p.x, p.z) in cols && InPlane(Col(p.x, p.z)) && ClassicCell(noise, p).Some?;
      (p in u.occupied <==> p in t.occupied || gen) &&
      (p in u.types <==> p in t.types || gen) &&
      (p in u.types ==> u.types[p] == if gen then ClassicCell(noise, p).value else t.types[p])
  {
    if cols != [] {
      var init := cols[..|cols| - 1];
      var last := cols[|cols| - 1];
      ClassicColumnsAt(t, init, noise, p);
      assert Col(p.x, p.z) in cols <==> Col(p.x, p.z) in init || Col(p.x, p.z) == last;
      var h := ClassicSurface(noise, last);
      if InPlane(last) {
        ClassicCellsAt(last, ColumnHeight(h), p);
        ClassicTypesAt(last, h, ColumnHeight(h), p);
      }
    }
  }

  /**
   * Column c's recorded height after a list of columns is generated: a
   * listed in-plane column has the larger of its old height and its
   * generated height; any other column keeps what it had.
   */
  lemma {:induction false} ClassicColumnsHeightAt(t: Tables, cols: seq<Col>, noise: Noise, c: Col)
    ensures var u := ApplyClassicColumns(t, cols, noise);
      var gen := c in cols && InPlane(c);
      (c in u.heights <==> c in t.heights || gen) &&
      (gen ==> u.heights[c] == Max(Height(t.heights, c.x, c.z), ColumnHeight(ClassicSurface(noise, c)))) &&
      (!gen && c in t.heights ==> u.heights[c] == t.heights[c])
  {
    if cols != [] {
      var init := cols[..|cols| - 1];
      ClassicColumnsHeightAt(t, init, noise, c);
      assert c in cols <==> c in init || c == cols[|cols| - 1];
    }
  }

  /**
   * What this version's `generateChunk` guarantees: a loaded key changes
   * nothing; otherwise the key becomes loaded, every in-plane column of the
   * chunk holds its generated cells with their types and has the larger of
   * its old and its generated height, no cell is removed, and nothing
   * outside the chunk or outside the plane changes.
   */
  lemma ClassicChunkEffect(t: Tables, k: ChunkKey, noise: Noise)
    ensures k in t.loaded ==> ApplyClassicChunk(t, k, noise) == t
    ensures ApplyClassicChunk(ApplyClassicChunk(t, k, noise), k, noise) == ApplyClassicChunk(t, k, noise)
    ensures k !in t.loaded ==>
      var u := ApplyClassicChunk(t, k, noise);
      u.loaded == t.loaded + {k} &&
      t.occupied <= u.occupied &&
      (forall c | c in t.heights :: c in u.heights && u.heights[c] >= t.heights[c]) &&
      (forall p: Pos | ChunkOf(p.x, p.z, CLASSIC_CHUNK) == k && InPlane(Col(p.x, p.z)) && ClassicCell(noise, p).Some? ::
        p in u.occupied && p in u.types && u.types[p] == ClassicCell(noise, p).value) &&
      (forall c: Col | ChunkOf(c.x, c.z, CLASSIC_CHUNK) == k && InPlane(c) ::
        c in u.heights && u.heights[c] == Max(Height(t.heights, c.x, c.z), ColumnHeight(ClassicSurface(noise, c)))) &&
      (forall p: Pos | ChunkOf(p.x, p.z, CLASSIC_CHUNK) != k || !InPlane(Col(p.x, p.z)) ::
        (p in u.occupied <==> p in t.occupied) && (p in u.types <==> p in t.types) &&
        (p in t.types ==> u.types[p] == t.types[p])) &&
      (forall c: Col | ChunkOf(c.x, c.z, CLASSIC_CHUNK) != k || !InPlane(c) ::
        (c in u.heights <==> c in t.heights) && (c in t.heights ==> u.heights[c] == t.heights[c]))
  {
    if k !in t.loaded {
      var cols := ClassicColumns(k);
      ClassicColumnsEffect(t, cols, noise);
      forall c: Col
        ensures c in cols <==> ChunkOf(c.x, c.z, CLASSIC_CHUNK) == k
      {
        ClassicColumnsMembers(k, c);
      }
      forall p: Pos | ChunkOf(p.x, p.z, CLASSIC_CHUNK) == k && InPlane(Col(p.x, p.z)) && ClassicCell(noise, p).Some?
        ensures var u := ApplyClassicColumns(t, cols, noise);
          p in u.occupied && p in u.types && u.types[p] == ClassicCell(noise, p).value
      {
        ClassicColumnsAt(t, cols, noise, p);
      }
      forall c: Col | ChunkOf(c.x, c.z, CLASSIC_CHUNK) == k && InPlane(c)
        ensures var u := ApplyClassicColumns(t, cols, noise);
          c in u.heights && u.heights[c] == Max(Height(t.heights, c.x, c.z), ColumnHeight(ClassicSurface(noise, c)))
      {
        ClassicColumnsHeightAt(t, cols, noise, c);
      }
    }
  }

  /** A column is listed for chunk k exactly when it lies in that 16×16 chunk. */
  lemma ClassicColumnsMembers(k: ChunkKey, c: Col)
    ensures c in ClassicColumns(k) <==> ChunkOf(c.x, c.z, CLASSIC_CHUNK) == k
  {
    var cols := ClassicColumns(k);
    if ChunkOf(c.x, c.z, CLASSIC_CHUNK) == k {
      var i := (c.x - k.cx * CLASSIC_CHUNK) * CLASSIC_CHUNK + (c.z - k.cz * CLASSIC_CHUNK);
      assert cols[i] == c;
    }
  }
}
