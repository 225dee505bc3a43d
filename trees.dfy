/**
 * Tree placement: T3/scripts/trees.js (`isTreePositionOccupied`,
 * `canPlaceTree`, `addTree`, the attempt loop of
 * `loadAllTreesWithProgress`) and the T2/execution_part2.js variants
 * (`addTree`, the `loadAllTrees` loop), which share `canPlaceTree`.
 */
module Trees {
  import opened Wrappers
  import opened Voxel
  import opened Store
  import opened Terrain
  import opened Physics
  import opened Streaming

  /** One voxel of a tree file: its offsets and its type code. */
  datatype TreeVoxel = TreeVoxel(x: int, y: int, z: int, kind: BlockType)

  /** The type T3 `addTree` records: code 5 is drawn as Leaves, every other code is kept. */
  function TreeBlock(k: BlockType): (b: BlockType)
    ensures b == Leaves <==> k == Leaves || k == Snow
    ensures k != Snow ==> b == k
  {
    if k == Trunk then Trunk
    else if k == Leaves || k == Snow then Leaves
    else k
  }

  // ---------------------------------------------------------------------
  // canPlaceTree

  /** Some cell of the 3 × 3 square at y = baseY - 1 around (baseX, baseZ) is occupied. */
  predicate GroundContact(occupied: set<Pos>, baseX: int, baseY: int, baseZ: int)
  {
    exists c | c in occupied :: c.y == baseY - 1 && baseX - 1 <= c.x <= baseX + 1 && baseZ - 1 <= c.z <= baseZ + 1
  }

  /** The lowest y of a tree's voxels (`Math.min(...treeData.map(v => v.y))`). */
  function MinY(tree: seq<TreeVoxel>): (m: int)
    requires |tree| > 0
    ensures forall j | 0 <= j < |tree| :: m <= tree[j].y
    ensures exists j | 0 <= j < |tree| :: tree[j].y == m
  {
    if |tree| == 1 then tree[0].y
    else
      var rest := MinY(tree[1..]);
      assert forall j | 1 <= j < |tree| :: tree[j] == tree[1..][j - 1];
      Min(tree[0].y, rest)
  }

  /** The highest y of a tree's voxels. */
  function MaxY(tree: seq<TreeVoxel>): (m: int)
    requires |tree| > 0
    ensures forall j | 0 <= j < |tree| :: tree[j].y <= m
    ensures exists j | 0 <= j < |tree| :: tree[j].y == m
  {
    if |tree| == 1 then tree[0].y
    else
      var rest := MaxY(tree[1..]);
      assert forall j | 1 <= j < |tree| :: tree[j] == tree[1..][j - 1];
      Max(tree[0].y, rest)
  }

  /** The cell `canPlaceTree` checks for voxel v: raw x and z offsets, y lifted so the lowest voxel sits at baseY. */
  function CheckedCell(v: TreeVoxel, baseX: int, baseY: int, baseZ: int, minY: int): Pos
  {
    Pos(baseX + v.x, baseY + (v.y - minY), baseZ + v.z)
  }

  /** What `canPlaceTree` decides. */
  predicate CanPlace(tree: seq<TreeVoxel>, occupied: set<Pos>, baseX: int, baseY: int, baseZ: int)
  {
    GroundContact(occupied, baseX, baseY, baseZ) &&
    (|tree| == 0 || forall i | 0 <= i < |tree| :: CheckedCell(tree[i], baseX, baseY, baseZ, MinY(tree)) !in occupied)
  }

  /** The 3 × 3 ground-contact loops. */
  method HasGroundContact(occupied: set<Pos>, baseX: int, baseY: int, baseZ: int) returns (contact: bool)
    ensures contact == GroundContact(occupied, baseX, baseY, baseZ)
  {
    contact := false;
    var dx := -1;
    while dx <= 1
      invariant -1 <= dx <= 2
      invariant contact <==> exists c | c in occupied :: c.y == baseY - 1 && baseX - 1 <= c.x < baseX + dx && baseZ - 1 <= c.z <= baseZ + 1
    {
      var dz := -1;
      while dz <= 1
        invariant -1 <= dz <= 2
        invariant contact <==>
          (exists c | c in occupied :: c.y == baseY - 1 && baseX - 1 <= c.x < baseX + dx && baseZ - 1 <= c.z <= baseZ + 1) ||
          (exists c | c in occupied :: c.y == baseY - 1 && c.x == baseX + dx && baseZ - 1 <= c.z < baseZ + dz)
      {
        if Pos(baseX + dx, baseY - 1, baseZ + dz) in occupied {
          contact := true;
        }
        dz := dz + 1;
      }
      dx := dx + 1;
    }
  }

  /** `canPlaceTree(treeData, baseX, baseY, baseZ, occupiedBlocks)`. */
  method CanPlaceTree(tree: seq<TreeVoxel>, occupied: set<Pos>, baseX: int, baseY: int, baseZ: int) returns (ok: bool)
    ensures ok == CanPlace(tree, occupied, baseX, baseY, baseZ)
  {
    var contact := HasGroundContact(occupied, baseX, baseY, baseZ);
    if !contact {
      return false;
    }
    if |tree| == 0 {
      return true;
    }
    var minY := MinY(tree);
    var i := 0;
    while i < |tree|
      invariant 0 <= i <= |tree|
      invariant forall j | 0 <= j < i :: CheckedCell(tree[j], baseX, baseY, baseZ, minY) !in occupied
    {
      if CheckedCell(tree[i], baseX, baseY, baseZ, minY) in occupied {
        return false;
      }
      i := i + 1;
    }
    return true;
  }

  // ---------------------------------------------------------------------
  // addTree (T3)

  /**
   * The index of the first lowest Trunk voxel among the first n voxels,
   * or -1 when there is none: the anchor `addTree` puts on the ground.
   */
  function LowestTrunk(tree: seq<TreeVoxel>, n: nat): (i: int)
    requires n <= |tree|
    ensures -1 <= i < n
    ensures i >= 0 ==> tree[i].kind == Trunk
  {
    if n == 0 then -1
    else
      var i := LowestTrunk(tree, n - 1);
      if tree[n - 1].kind == Trunk && (i < 0 || tree[n - 1].y < tree[i].y) then n - 1 else i
  }

  /**
   * The anchor is the first of the lowest Trunk voxels, and there is none
   * exactly when no voxel is a Trunk.
   */
  lemma {:induction false} LowestTrunkIsFirstLowest(tree: seq<TreeVoxel>, n: nat)
    requires n <= |tree|
    ensures var i := LowestTrunk(tree, n);
      (i == -1 <==> forall j | 0 <= j < n :: tree[j].kind != Trunk) &&
      (i >= 0 ==>
        (forall j | 0 <= j < n && tree[j].kind == Trunk :: tree[i].y <= tree[j].y) &&
        (forall j | 0 <= j < i && tree[j].kind == Trunk :: tree[i].y < tree[j].y))
  {
    if n > 0 {
      LowestTrunkIsFirstLowest(tree, n - 1);
    }
  }

  /** The anchor search: the first Trunk voxel, replaced by any later one that is strictly lower. */
  method FindBaseTrunk(tree: seq<TreeVoxel>) returns (i: int)
    ensures i == LowestTrunk(tree, |tree|)
  {
    i := -1;
    var j := 0;
    while j < |tree|
      invariant 0 <= j <= |tree|
      invariant i == LowestTrunk(tree, j)
    {
      if tree[j].kind == Trunk && (i < 0 || tree[j].y < tree[i].y) {
        i := j;
      }
      j := j + 1;
    }
  }

  /** Where `addTree` puts voxel v, shifted by (ox, oy, oz). */
  function Target(v: TreeVoxel, ox: int, oy: int, oz: int): Pos
  {
    Pos(v.x + ox, v.y + oy, v.z + oz)
  }

  /** The cells the first n voxels land on. */
  function Targets(tree: seq<TreeVoxel>, n: nat, ox: int, oy: int, oz: int): set<Pos>
    requires n <= |tree|
  {
    set j | 0 <= j < n :: Target(tree[j], ox, oy, oz)
  }

  /** The first n voxels written in order: occupied, with their recorded type. */
  function PlaceVoxels(t: Tables, tree: seq<TreeVoxel>, n: nat, ox: int, oy: int, oz: int): Tables
    requires n <= |tree|
  {
    if n == 0 then t
    else
      var u := PlaceVoxels(t, tree, n - 1, ox, oy, oz);
      var p := Target(tree[n - 1], ox, oy, oz);
      u.(occupied := u.occupied + {p}, types := u.types[p := TreeBlock(tree[n - 1].kind)])
  }

  lemma TargetsSnoc(tree: seq<TreeVoxel>, n: nat, ox: int, oy: int, oz: int)
    requires n < |tree|
    ensures Targets(tree, n + 1, ox, oy, oz) == Targets(tree, n, ox, oy, oz) + {Target(tree[n], ox, oy, oz)}
  {
  }

  /** Writing the voxels occupies exactly their targets and changes no type outside them, no height and no loaded chunk. */
  lemma {:induction false} PlaceVoxelsCells(t: Tables, tree: seq<TreeVoxel>, n: nat, ox: int, oy: int, oz: int)
    requires n <= |tree|
    ensures var u := PlaceVoxels(t, tree, n, ox, oy, oz);
      u.occupied == t.occupied + Targets(tree, n, ox, oy, oz) &&
      u.heights == t.heights && u.loaded == t.loaded &&
      (forall p | p !in Targets(tree, n, ox, oy, oz) ::
        (p in u.types <==> p in t.types) && (p in t.types ==> u.types[p] == t.types[p]))
  {
    if n > 0 {
      PlaceVoxelsCells(t, tree, n - 1, ox, oy, oz);
      TargetsSnoc(tree, n - 1, ox, oy, oz);
    }
  }

  /** No voxel after the j-th among the first n lands on the j-th voxel's target. */
  predicate LastAt(tree: seq<TreeVoxel>, j: nat, n: nat, ox: int, oy: int, oz: int)
    requires j < n <= |tree|
  {
    forall k | j < k < n :: Target(tree[k], ox, oy, oz) != Target(tree[j], ox, oy, oz)
  }

  /** A target carries the recorded type of the last voxel landing on it. */
  lemma {:induction false} PlaceVoxelsLastWriter(t: Tables, tree: seq<TreeVoxel>, n: nat, ox: int, oy: int, oz: int)
    requires n <= |tree|
    ensures var u := PlaceVoxels(t, tree, n, ox, oy, oz);
      forall j | 0 <= j < n && LastAt(tree, j, n, ox, oy, oz) ::
        Target(tree[j], ox, oy, oz) in u.types && u.types[Target(tree[j], ox, oy, oz)] == TreeBlock(tree[j].kind)
  {
    if n > 0 {
      PlaceVoxelsLastWriter(t, tree, n - 1, ox, oy, oz);
      forall j | 0 <= j < n - 1 && LastAt(tree, j, n, ox, oy, oz)
        ensures LastAt(tree, j, n - 1, ox, oy, oz)
      {
      }
    }
  }

  /** The column height T3 `addTree` leaves at the anchor column for a tree top at y = top. */
  function RaisedHeight(heights: map<Col, int>, c: Col, top: int): map<Col, int>
  {
    if c !in heights || heights[c] == 0 || top + 1 > heights[c] then heights[c := top + 1] else heights
  }

  /**
   * T3 `addTree(treeData, baseX, baseY, baseZ)`: None when the tree has no
   * Trunk voxel; `meshMade` says whether some instanced mesh was created,
   * which marks the base chunk loaded.
   */
  function AddTreeResult(t: Tables, tree: seq<TreeVoxel>, baseX: int, baseY: int, baseZ: int, meshMade: bool): Option<Tables>
  {
    var i := LowestTrunk(tree, |tree|);
    if i < 0 then None
    else
      var a := tree[i];
      var u := PlaceVoxels(t, tree, |tree|, baseX - a.x, baseY - a.y, baseZ - a.z);
      Some(u.(loaded := if meshMade then u.loaded + {ChunkOf(baseX, baseZ, CHUNK_SIZE)} else u.loaded,
              heights := RaisedHeight(u.heights, Col(baseX, baseZ), MaxY(tree) + (baseY - a.y))))
  }

  /** The voxel loop of T3 `addTree`: each voxel's target is occupied and takes the voxel's recorded type. */
  method WriteTreeVoxels(w: World, tree: seq<TreeVoxel>, ox: int, oy: int, oz: int)
    modifies w
    ensures w.Data() == PlaceVoxels(old(w.Data()), tree, |tree|, ox, oy, oz)
  {
    var j := 0;
    while j < |tree|
      invariant 0 <= j <= |tree|
      invariant w.Data() == PlaceVoxels(old(w.Data()), tree, j, ox, oy, oz)
    {
      var p := Target(tree[j], ox, oy, oz);
      w.occupied := w.occupied + {p};
      w.types := w.types[p := TreeBlock(tree[j].kind)];
      j := j + 1;
    }
  }

  /** T3 `addTree`. */
  method AddTree(w: World, tree: seq<TreeVoxel>, baseX: int, baseY: int, baseZ: int, meshMade: bool) returns (ok: bool)
    modifies w
    ensures ok == AddTreeResult(old(w.Data()), tree, baseX, baseY, baseZ, meshMade).Some?
    ensures w.Data() == if ok then AddTreeResult(old(w.Data()), tree, baseX, baseY, baseZ, meshMade).value else old(w.Data())
  {
    var i := FindBaseTrunk(tree);
    if i < 0 {
      return false;
    }
    var a := tree[i];
    var ox, oy, oz := baseX - a.x, baseY - a.y, baseZ - a.z;
    ghost var t0 := w.Data();
    WriteTreeVoxels(w, tree, ox, oy, oz);
    ghost var u := w.Data();
    if meshMade {
      w.loaded := w.loaded + {ChunkOf(baseX, baseZ, CHUNK_SIZE)};
    }
    var top := MaxY(tree) + oy;
    var c := Col(baseX, baseZ);
    if c !in w.heights || w.heights[c] == 0 || top + 1 > w.heights[c] {
      w.heights := w.heights[c := top + 1];
    }
    assert w.Data() == u.(loaded := if meshMade then u.loaded + {ChunkOf(baseX, baseZ, CHUNK_SIZE)} else u.loaded,
                          heights := RaisedHeight(u.heights, c, top));
    AddTreeShape(t0, tree, baseX, baseY, baseZ, meshMade);
    ok := true;
  }

  /** T3 `addTree` fails, writing nothing, exactly when the tree has no Trunk voxel. */
  lemma AddTreeFails(t: Tables, tree: seq<TreeVoxel>, baseX: int, baseY: int, baseZ: int, meshMade: bool)
    ensures AddTreeResult(t, tree, baseX, baseY, baseZ, meshMade).None? <==> forall v | v in tree :: v.kind != Trunk
  {
    LowestTrunkIsFirstLowest(tree, |tree|);
    if LowestTrunk(tree, |tree|) < 0 {
      forall v | v in tree ensures v.kind != Trunk {
        var j :| 0 <= j < |tree| && tree[j] == v;
      }
    } else {
      assert tree[LowestTrunk(tree, |tree|)] in tree;
    }
  }

  /** A successful T3 `addTree` is the voxel writes followed by the chunk and height updates. */
  lemma AddTreeShape(t: Tables, tree: seq<TreeVoxel>, baseX: int, baseY: int, baseZ: int, meshMade: bool)
    requires 0 <= LowestTrunk(tree, |tree|)
    ensures var a := tree[LowestTrunk(tree, |tree|)];
      var u0 := PlaceVoxels(t, tree, |tree|, baseX - a.x, baseY - a.y, baseZ - a.z);
      AddTreeResult(t, tree, baseX, baseY, baseZ, meshMade) ==
        Some(u0.(loaded := if meshMade then u0.loaded + {ChunkOf(baseX, baseZ, CHUNK_SIZE)} else u0.loaded,
                 heights := RaisedHeight(u0.heights, Col(baseX, baseZ), MaxY(tree) + (baseY - a.y))))
  {
  }

  /** Raising the anchor column touches no other column and gives it the larger of its height and top + 1, 0 counting as missing. */
  lemma RaisedHeightAt(heights: map<Col, int>, baseX: int, baseZ: int, top: int)
    ensures var r := RaisedHeight(heights, Col(baseX, baseZ), top);
      var h := Height(heights, baseX, baseZ);
      (forall c | c != Col(baseX, baseZ) :: (c in r <==> c in heights) && (c in heights ==> r[c] == heights[c])) &&
      Height(r, baseX, baseZ) == (if h == 0 then top + 1 else Max(h, top + 1))
  {
  }

  /**
   * What a successful T3 `addTree` does to cells: the anchor lands on
   * (baseX, baseY, baseZ); exactly the voxels' targets become occupied;
   * cells that are not targets keep their type.
   */
  lemma AddTreeCells(t: Tables, tree: seq<TreeVoxel>, baseX: int, baseY: int, baseZ: int, meshMade: bool, u: Tables)
    requires AddTreeResult(t, tree, baseX, baseY, baseZ, meshMade) == Some(u)
    ensures var a := tree[LowestTrunk(tree, |tree|)];
      var ox := baseX - a.x; var oy := baseY - a.y; var oz := baseZ - a.z;
      Target(a, ox, oy, oz) == Pos(baseX, baseY, baseZ) &&
      u.occupied == t.occupied + Targets(tree, |tree|, ox, oy, oz) &&
      (forall p | p !in Targets(tree, |tree|, ox, oy, oz) ::
        (p in u.types <==> p in t.types) && (p in t.types ==> u.types[p] == t.types[p]))
  {
    AddTreePlaces(t, tree, baseX, baseY, baseZ, meshMade);
    AddTreeCellsOf(t, tree, baseX, baseY, baseZ, u);
  }

  /** The cell facts of `AddTreeCells`, from the voxel writes alone. */
  lemma AddTreeCellsOf(t: Tables, tree: seq<TreeVoxel>, baseX: int, baseY: int, baseZ: int, u: Tables)
    requires 0 <= LowestTrunk(tree, |tree|)
    requires var a := tree[LowestTrunk(tree, |tree|)];
      u.occupied == PlaceVoxels(t, tree, |tree|, baseX - a.x, baseY - a.y, baseZ - a.z).occupied &&
      u.types == PlaceVoxels(t, tree, |tree|, baseX - a.x, baseY - a.y, baseZ - a.z).types
    ensures var a := tree[LowestTrunk(tree, |tree|)];
      var ox := baseX - a.x; var oy := baseY - a.y; var oz := baseZ - a.z;
      Target(a, ox, oy, oz) == Pos(baseX, baseY, baseZ) &&
      u.occupied == t.occupied + Targets(tree, |tree|, ox, oy, oz) &&
      (forall p | p !in Targets(tree, |tree|, ox, oy, oz) ::
        (p in u.types <==> p in t.types) && (p in t.types ==> u.types[p] == t.types[p]))
  {
    var a := tree[LowestTrunk(tree, |tree|)];
    PlaceVoxelsCells(t, tree, |tree|, baseX - a.x, baseY - a.y, baseZ - a.z);
  }

  /** Cells and types after a successful T3 `addTree` are those the voxel writes leave. */
  lemma AddTreePlaces(t: Tables, tree: seq<TreeVoxel>, baseX: int, baseY: int, baseZ: int, meshMade: bool)
    requires AddTreeResult(t, tree, baseX, baseY, baseZ, meshMade).Some?
    ensures var u := AddTreeResult(t, tree, baseX, baseY, baseZ, meshMade).value;
      var a := tree[LowestTrunk(tree, |tree|)];
      var u0 := PlaceVoxels(t, tree, |tree|, baseX - a.x, baseY - a.y, baseZ - a.z);
      u.occupied == u0.occupied && u.types == u0.types
  {
    assert LowestTrunk(tree, |tree|) >= 0;
    AddTreeShape(t, tree, baseX, baseY, baseZ, meshMade);
  }

  /**
   * What a successful T3 `addTree` does to columns and chunks: only the
   * anchor column's height changes, to one above the tree's top unless it
   * was already higher (a height of 0 counts as missing), and every voxel
   * lies at or below that top; only the base chunk may become loaded.
   */
  lemma AddTreeColumn(t: Tables, tree: seq<TreeVoxel>, baseX: int, baseY: int, baseZ: int, meshMade: bool)
    requires AddTreeResult(t, tree, baseX, baseY, baseZ, meshMade).Some?
    ensures var u := AddTreeResult(t, tree, baseX, baseY, baseZ, meshMade).value;
      var a := tree[LowestTrunk(tree, |tree|)];
      var oy := baseY - a.y;
      var top := MaxY(tree) + oy;
      var h := Height(t.heights, baseX, baseZ);
      (forall c | c != Col(baseX, baseZ) :: (c in u.heights <==> c in t.heights) && (c in t.heights ==> u.heights[c] == t.heights[c])) &&
      Height(u.heights, baseX, baseZ) == (if h == 0 then top + 1 else Max(h, top + 1)) &&
      (forall j | 0 <= j < |tree| :: tree[j].y + oy <= top) &&
      u.loaded <= t.loaded + {ChunkOf(baseX, baseZ, CHUNK_SIZE)}
  {
    assert LowestTrunk(tree, |tree|) >= 0;
    AddTreeShape(t, tree, baseX, baseY, baseZ, meshMade);
    AddTreeColumnOf(t, tree, baseX, baseY, baseZ, meshMade, AddTreeResult(t, tree, baseX, baseY, baseZ, meshMade).value);
  }

  /** The column facts of `AddTreeColumn`, from the shape of the result. */
  lemma AddTreeColumnOf(t: Tables, tree: seq<TreeVoxel>, baseX: int, baseY: int, baseZ: int, meshMade: bool, u: Tables)
    requires 0 <= LowestTrunk(tree, |tree|)
    requires var a := tree[LowestTrunk(tree, |tree|)];
      var u0 := PlaceVoxels(t, tree, |tree|, baseX - a.x, baseY - a.y, baseZ - a.z);
      u == u0.(loaded := if meshMade then u0.loaded + {ChunkOf(baseX, baseZ, CHUNK_SIZE)} else u0.loaded,
               heights := RaisedHeight(u0.heights, Col(baseX, baseZ), MaxY(tree) + (baseY - a.y)))
    ensures var a := tree[LowestTrunk(tree, |tree|)];
      var oy := baseY - a.y;
      var top := MaxY(tree) + oy;
      var h := Height(t.heights, baseX, baseZ);
      (forall c | c != Col(baseX, baseZ) :: (c in u.heights <==> c in t.heights) && (c in t.heights ==> u.heights[c] == t.heights[c])) &&
      Height(u.heights, baseX, baseZ) == (if h == 0 then top + 1 else Max(h, top + 1)) &&
      (forall j | 0 <= j < |tree| :: tree[j].y + oy <= top) &&
      u.loaded <= t.loaded + {ChunkOf(baseX, baseZ, CHUNK_SIZE)}
  {
    var a := tree[LowestTrunk(tree, |tree|)];
    PlaceVoxelsCells(t, tree, |tree|, baseX - a.x, baseY - a.y, baseZ - a.z);
    RaisedHeightAt(t.heights, baseX, baseZ, MaxY(tree) + (baseY - a.y));
  }

  // ---------------------------------------------------------------------
  // addTree (T2)

  /** T2 `addTree` registers only Trunk, Leaves and PurpleLeaves voxels. */
  predicate Registered(k: BlockType)
  {
    k == Trunk || k == Leaves || k == PurpleLeaves
  }

  /** The registered cells among the first n voxels. */
  function RegisteredCells(tree: seq<TreeVoxel>, n: nat, ox: int, oy: int, oz: int): set<Pos>
    requires n <= |tree|
  {
    set j | 0 <= j < n && Registered(tree[j].kind) :: Target(tree[j], ox, oy, oz)
  }

  /**
   * T2 `addTree(treeData, baseX, baseY, baseZ)`: the anchor goes on the
   * column's own recorded height; only occupancy changes.
   */
  function ClassicAddTreeResult(t: Tables, tree: seq<TreeVoxel>, baseX: int, baseZ: int): Option<Tables>
  {
    var i := LowestTrunk(tree, |tree|);
    if i < 0 then None
    else
      var a := tree[i];
      var baseY := Height(t.heights, baseX, baseZ);
      Some(t.(occupied := t.occupied + RegisteredCells(tree, |tree|, baseX - a.x, baseY - a.y, baseZ - a.z)))
  }

  lemma RegisteredCellsSnoc(tree: seq<TreeVoxel>, n: nat, ox: int, oy: int, oz: int)
    requires n < |tree|
    ensures RegisteredCells(tree, n + 1, ox, oy, oz) ==
      RegisteredCells(tree, n, ox, oy, oz) + (if Registered(tree[n].kind) then {Target(tree[n], ox, oy, oz)} else {})
  {
  }

  /** T2 `addTree`. */
  method AddClassicTree(w: World, tree: seq<TreeVoxel>, baseX: int, baseZ: int) returns (ok: bool)
    modifies w
    ensures ok == ClassicAddTreeResult(old(w.Data()), tree, baseX, baseZ).Some?
    ensures w.Data() == if ok then ClassicAddTreeResult(old(w.Data()), tree, baseX, baseZ).value else old(w.Data())
  {
    var i := FindBaseTrunk(tree);
    if i < 0 {
      return false;
    }
    var a := tree[i];
    var c := Col(baseX, baseZ);
    var terrainBaseY := if c in w.heights then w.heights[c] else 0;
    var ox, oy, oz := baseX - a.x, terrainBaseY - a.y, baseZ - a.z;
    ghost var occupied0 := w.occupied;
    var j := 0;
    while j < |tree|
      invariant 0 <= j <= |tree|
      invariant w.occupied == occupied0 + RegisteredCells(tree, j, ox, oy, oz)
      invariant w.types == old(w.types) && w.heights == old(w.heights) && w.loaded == old(w.loaded)
    {
      RegisteredCellsSnoc(tree, j, ox, oy, oz);
      if Registered(tree[j].kind) {
        w.occupied := w.occupied + {Target(tree[j], ox, oy, oz)};
      }
      j := j + 1;
    }
    ok := true;
  }

  /**
   * What T2 `addTree` guarantees: it fails exactly when there is no Trunk
   * voxel; otherwise it adds the registered voxels' cells and changes no
   * type, no height and no loaded chunk.
   */
  lemma ClassicAddTreeEffect(t: Tables, tree: seq<TreeVoxel>, baseX: int, baseZ: int)
    ensures ClassicAddTreeResult(t, tree, baseX, baseZ).None? <==> forall v | v in tree :: v.kind != Trunk
    ensures ClassicAddTreeResult(t, tree, baseX, baseZ).Some? ==>
      var u := ClassicAddTreeResult(t, tree, baseX, baseZ).value;
      var a := tree[LowestTrunk(tree, |tree|)];
      var ox := baseX - a.x; var oy := Height(t.heights, baseX, baseZ) - a.y; var oz := baseZ - a.z;
      t.occupied <= u.occupied &&
      (forall p | p in u.occupied && p !in t.occupied :: exists v | v in tree :: Registered(v.kind) && p == Target(v, ox, oy, oz)) &&
      (forall v | v in tree && Registered(v.kind) :: Target(v, ox, oy, oz) in u.occupied) &&
      u.types == t.types && u.heights == t.heights && u.loaded == t.loaded
  {
    var i := LowestTrunk(tree, |tree|);
    LowestTrunkIsFirstLowest(tree, |tree|);
    if i < 0 {
      forall v | v in tree ensures v.kind != Trunk {
        var j :| 0 <= j < |tree| && tree[j] == v;
      }
    } else {
      var a := tree[i];
      var ox := baseX - a.x; var oy := Height(t.heights, baseX, baseZ) - a.y; var oz := baseZ - a.z;
      forall v | v in tree && Registered(v.kind) ensures Target(v, ox, oy, oz) in RegisteredCells(tree, |tree|, ox, oy, oz) {
        var j :| 0 <= j < |tree| && tree[j] == v;
      }
    }
  }

  // ---------------------------------------------------------------------
  // The attempt loops

  /** `totalTreesNeeded * 5`: the attempt budget of both versions. */
  const TREE_ATTEMPTS: nat := TOTAL_TREES * 5

  /** One random draw: the tree file, the integer position, and whether its meshes get created. */
  datatype Attempt = Attempt(tree: seq<TreeVoxel>, rx: int, rz: int, meshMade: bool)

  /**
   * The loop's state: the world tables, the cells claimed through
   * `isTreePositionOccupied`, the cells where a tree was planted, and the
   * number planted.
   */
  datatype Forest = Forest(t: Tables, claimed: set<Col>, planted: set<Col>, added: nat)

  /** The `addTree` of the version. */
  function AddTreeBy(r: Rules, t: Tables, tree: seq<TreeVoxel>, baseX: int, baseY: int, baseZ: int, meshMade: bool): Option<Tables>
  {
    if r.T3Rules? then AddTreeResult(t, tree, baseX, baseY, baseZ, meshMade) else ClassicAddTreeResult(t, tree, baseX, baseZ)
  }

  /**
   * One pass of the loop body: load the chunk, read the height, claim the
   * cell, and plant only when the claim was new, the tree fits and
   * `addTree` succeeds.
   */
  function TreeAttempt(r: Rules, s: Forest, a: Attempt, noise: Noise): Forest
  {
    var g := ApplyChunkBy(r, s.t, ChunkOf(a.rx, a.rz, r.chunkSize), noise);
    var baseY := Height(g.heights, a.rx, a.rz);
    var c := Col(a.rx, a.rz);
    if c in s.claimed then s.(t := g)
    else if !CanPlace(a.tree, g.occupied, a.rx, baseY, a.rz) then s.(t := g, claimed := s.claimed + {c})
    else
      match AddTreeBy(r, g, a.tree, a.rx, baseY, a.rz, a.meshMade)
      case None => s.(t := g, claimed := s.claimed + {c})
      case Some(u) => Forest(u, s.claimed + {c}, s.planted + {c}, s.added + 1)
  }

  /** The loop from attempt k on: it stops at 50 trees or after 250 attempts. */
  function TreesFrom(r: Rules, s: Forest, pick: nat -> Attempt, noise: Noise, k: nat): Forest
    decreases TREE_ATTEMPTS - k
  {
    if s.added >= TOTAL_TREES || k >= TREE_ATTEMPTS then s
    else TreesFrom(r, TreeAttempt(r, s, pick(k), noise), pick, noise, k + 1)
  }

  /**
   * What the attempt loop guarantees: no more than 50 trees; every tree
   * planted on a cell claimed during the loop; no cell planted twice, so
   * the planted set grows by exactly the number of trees; claims are never
   * withdrawn and no planted cell is dropped.
   */
  lemma {:induction false} TreesFromEffect(r: Rules, s: Forest, pick: nat -> Attempt, noise: Noise, k: nat)
    requires s.planted <= s.claimed && s.added <= TOTAL_TREES
    ensures var e := TreesFrom(r, s, pick, noise, k);
      s.added <= e.added <= TOTAL_TREES &&
      s.claimed <= e.claimed && s.planted <= e.planted && e.planted <= e.claimed &&
      e.planted - s.planted <= e.claimed - s.claimed &&
      |e.planted - s.planted| == e.added - s.added
    decreases TREE_ATTEMPTS - k
  {
    if !(s.added >= TOTAL_TREES || k >= TREE_ATTEMPTS) {
      var s' := TreeAttempt(r, s, pick(k), noise);
      TreeAttemptEffect(r, s, pick(k), noise);
      TreesFromEffect(r, s', pick, noise, k + 1);
      var e := TreesFrom(r, s', pick, noise, k + 1);
      PlantedStep(s, s', e, Col(pick(k).rx, pick(k).rz));
    } else {
      assert s.planted - s.planted == {};
    }
  }

  /** The counting step of the loop: one attempt followed by the rest of the loop. */
  lemma PlantedStep(s: Forest, s': Forest, e: Forest, c: Col)
    requires s.planted <= s.claimed && s'.claimed == s.claimed + {c}
    requires (s'.planted == s.planted && s'.added == s.added) ||
      (c !in s.claimed && s'.planted == s.planted + {c} && s'.added == s.added + 1)
    requires s'.claimed <= e.claimed && s'.planted <= e.planted && e.planted - s'.planted <= e.claimed - s'.claimed
    requires |e.planted - s'.planted| == e.added - s'.added
    ensures e.planted - s.planted <= e.claimed - s.claimed
    ensures |e.planted - s.planted| == e.added - s.added
  {
    if s'.planted != s.planted {
      assert e.planted - s.planted == (e.planted - s'.planted) + {c};
    } else {
      assert e.planted - s.planted == e.planted - s'.planted;
    }
  }

  /**
   * One attempt claims its cell, and plants there (counting one tree)
   * only when the cell was not claimed before.
   */
  lemma TreeAttemptEffect(r: Rules, s: Forest, a: Attempt, noise: Noise)
    ensures var s' := TreeAttempt(r, s, a, noise);
      var c := Col(a.rx, a.rz);
      s'.claimed == s.claimed + {c} &&
      ((s'.planted == s.planted && s'.added == s.added) ||
       (c !in s.claimed && s'.planted == s.planted + {c} && s'.added == s.added + 1))
  {
  }

  /** The loop body of T3 `loadAllTreesWithProgress`. */
  method TryTree(w: World, claimed: CellSet, planted: CellSet, a: Attempt, noise: Noise, added: nat) returns (added': nat)
    requires claimed != planted
    modifies w, claimed, planted
    ensures Forest(w.Data(), claimed.cells, planted.cells, added') ==
      TreeAttempt(T3Rules, Forest(old(w.Data()), old(claimed.cells), old(planted.cells), added), a, noise)
  {
    GenerateChunkBy(w, T3Rules, ChunkOf(a.rx, a.rz, CHUNK_SIZE), noise);
    var c := Col(a.rx, a.rz);
    var baseY := if c in w.heights then w.heights[c] else 0;
    var taken := claimed.Claim(c);
    added' := added;
    if !taken {
      var fits := CanPlaceTree(a.tree, w.occupied, a.rx, baseY, a.rz);
      if fits {
        var ok := AddTree(w, a.tree, a.rx, baseY, a.rz, a.meshMade);
        if ok {
          added' := added + 1;
          planted.Add(c);
        }
      }
    }
  }

  /**
   * T3 `loadAllTreesWithProgress`: `claimed` is the tree module's private
   * registry, `planted` the shared `treePositions`; `pick(k)` is the k-th
   * random draw.
   */
  method LoadTrees(w: World, claimed: CellSet, planted: CellSet, pick: nat -> Attempt, noise: Noise) returns (added: nat)
    requires claimed != planted
    modifies w, claimed, planted
    ensures Forest(w.Data(), claimed.cells, planted.cells, added) ==
      TreesFrom(T3Rules, Forest(old(w.Data()), old(claimed.cells), old(planted.cells), 0), pick, noise, 0)
  {
    added := 0;
    var attempts := 0;
    while added < TOTAL_TREES && attempts < TREE_ATTEMPTS
      invariant 0 <= attempts <= TREE_ATTEMPTS
      invariant TreesFrom(T3Rules, Forest(w.Data(), claimed.cells, planted.cells, added), pick, noise, attempts) ==
        TreesFrom(T3Rules, Forest(old(w.Data()), old(claimed.cells), old(planted.cells), 0), pick, noise, 0)
      decreases TREE_ATTEMPTS - attempts
    {
      added := TryTree(w, claimed, planted, pick(attempts), noise, added);
      attempts := attempts + 1;
    }
  }

  /** The loop body of T2 `loadAllTrees`: one set serves both as claim registry and as planted set. */
  method TryClassicTree(w: World, positions: CellSet, a: Attempt, noise: Noise, added: nat, ghost planted: set<Col>)
    returns (added': nat, ghost planted': set<Col>)
    requires planted <= positions.cells
    modifies w, positions
    ensures var e := TreeAttempt(T2Rules, Forest(old(w.Data()), old(positions.cells), planted, added), a, noise);
      e == Forest(w.Data(), positions.cells, planted', added') && planted' <= positions.cells
  {
    GenerateChunkBy(w, T2Rules, ChunkOf(a.rx, a.rz, 16), noise);
    var c := Col(a.rx, a.rz);
    var baseY := if c in w.heights then w.heights[c] else 0;
    var taken := positions.Claim(c);
    added', planted' := added, planted;
    if !taken {
      var fits := CanPlaceTree(a.tree, w.occupied, a.rx, baseY, a.rz);
      if fits {
        var ok := AddClassicTree(w, a.tree, a.rx, a.rz);
        if ok {
          added' := added + 1;
          positions.Add(c);
          planted' := planted + {c};
        }
      }
    }
  }

  /** T2 `loadAllTrees`: `positions` is `treePositions`, `pick(k)` the k-th random draw. */
  method LoadClassicTrees(w: World, positions: CellSet, pick: nat -> Attempt, noise: Noise) returns (added: nat)
    modifies w, positions
    ensures var e := TreesFrom(T2Rules, Forest(old(w.Data()), old(positions.cells), {}, 0), pick, noise, 0);
      w.Data() == e.t && positions.cells == e.claimed && added == e.added
  {
    added := 0;
    var attempts := 0;
    ghost var planted: set<Col> := {};
    while added < TOTAL_TREES && attempts < TREE_ATTEMPTS
      invariant 0 <= attempts <= TREE_ATTEMPTS
      invariant planted <= positions.cells
      invariant TreesFrom(T2Rules, Forest(w.Data(), positions.cells, planted, added), pick, noise, attempts) ==
        TreesFrom(T2Rules, Forest(old(w.Data()), old(positions.cells), {}, 0), pick, noise, 0)
      decreases TREE_ATTEMPTS - attempts
    {
      added, planted := TryClassicTree(w, positions, pick(attempts), noise, added, planted);
      attempts := attempts + 1;
    }
  }

  // ---------------------------------------------------------------------
  // canPlaceTree against addTree

  /**
   * `canPlaceTree` checks the cells `addTree` fills exactly when the
   * anchor trunk voxel sits at x = z = 0 on the tree's lowest level.
   */
  lemma CheckedCellsAreTargets(tree: seq<TreeVoxel>, baseX: int, baseY: int, baseZ: int)
    requires LowestTrunk(tree, |tree|) >= 0
    requires var a := tree[LowestTrunk(tree, |tree|)]; a.x == 0 && a.z == 0 && a.y == MinY(tree)
    ensures var a := tree[LowestTrunk(tree, |tree|)];
      forall v | v in tree :: CheckedCell(v, baseX, baseY, baseZ, MinY(tree)) == Target(v, baseX - a.x, baseY - a.y, baseZ - a.z)
  {
  }

  /**
   * As written, a tree whose trunk is not at x = z = 0 passes
   * `canPlaceTree` while `addTree` then writes over an occupied cell: a
   * one-voxel trunk at x = 1 on ground at (0, 0, 0) with a block standing
   * at (0, 1, 0).
   */
  lemma CheckedCellsMissTarget()
    ensures var tree := [TreeVoxel(1, 0, 0, Trunk)];
      var occupied := {Pos(0, 0, 0), Pos(0, 1, 0)};
      var t := Tables(occupied, map[], map[], {});
      CanPlace(tree, occupied, 0, 1, 0) &&
      AddTreeResult(t, tree, 0, 1, 0, false).Some? &&
      Pos(0, 1, 0) in t.occupied &&
      Target(tree[0], 0 - 1, 1 - 0, 0 - 0) == Pos(0, 1, 0)
  {
    var tree := [TreeVoxel(1, 0, 0, Trunk)];
    var occupied := {Pos(0, 0, 0), Pos(0, 1, 0)};
    assert Pos(0 + 0, 1 - 1, 0 + 0) in occupied;
    assert CheckedCell(tree[0], 0, 1, 0, MinY(tree)) == Pos(1, 1, 0);
  }

  /** The corrected check: the cells `addTree` will fill, relative to the anchor. */
  predicate CanPlaceFixed(tree: seq<TreeVoxel>, occupied: set<Pos>, baseX: int, baseY: int, baseZ: int)
  {
    GroundContact(occupied, baseX, baseY, baseZ) &&
    var i := LowestTrunk(tree, |tree|);
    i >= 0 &&
    forall j | 0 <= j < |tree| :: Target(tree[j], baseX - tree[i].x, baseY - tree[i].y, baseZ - tree[i].z) !in occupied
  }

  /**
   * With the corrected check, `addTree` succeeds and every voxel it
   * writes lands on a cell that was free, so it overwrites nothing.
   */
  lemma FixedCheckProtectsCells(t: Tables, tree: seq<TreeVoxel>, baseX: int, baseY: int, baseZ: int, meshMade: bool)
    requires CanPlaceFixed(tree, t.occupied, baseX, baseY, baseZ)
    ensures AddTreeResult(t, tree, baseX, baseY, baseZ, meshMade).Some?
    ensures var a := tree[LowestTrunk(tree, |tree|)];
      Targets(tree, |tree|, baseX - a.x, baseY - a.y, baseZ - a.z) !! t.occupied
  {
  }
}
