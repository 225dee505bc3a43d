/**
 * The first version of the world, T1/execution.js: a 35 × 35 map held in
 * one dictionary from cell to voxel, filled from a list of stacked map
 * entries and from three tree files planted at fixed positions.
 */
module Original {
  import opened Voxel

  /** `planeSize`: the map side, and the number of heights `getTerrainHeight` scans. */
  const MAP_SIZE: nat := 35

  /** One entry of the map file or of a tree file: a cell and a type code. */
  datatype Entry = Entry(x: int, y: int, z: int, kind: int)

  /** `typeHeightMap[type] || 1`: how many voxels an entry of the map file stacks. */
  function StackHeight(kind: int): (h: nat)
    ensures 1 <= h <= 5
    ensures h == 1 <==> !(0 <= kind <= 1 || 3 <= kind <= 7)
  {
    if kind == 0 then 3
    else if kind == 1 then 2
    else if kind == 2 then 1
    else if kind == 3 then 5
    else if kind == 4 || kind == 5 then 3
    else if kind == 6 || kind == 7 then 2
    else 1
  }

  /** The dictionary `voxels`, keyed by cell, holding each voxel's type code (its mesh is not modelled). */
  class VoxelMap {
    var voxels: map<Pos, int>

    constructor ()
      ensures voxels == map[]
    {
      voxels := map[];
    }

    /** `addVoxel`: the entry at the cell is replaced, whatever was there. */
    method AddVoxel(x: int, y: int, z: int, kind: int)
      modifies this
      ensures voxels == old(voxels)[Pos(x, y, z) := kind]
    {
      voxels := voxels[Pos(x, y, z) := kind];
    }

    /**
     * `getTerrainHeight(x, z)`: one above the highest voxel of the column
     * among the heights 0 .. 34, or 0 when there is none.
     */
    method TerrainHeight(x: int, z: int) returns (h: int)
      ensures 0 <= h <= MAP_SIZE
      ensures h == 0 <==> forall y | 0 <= y < MAP_SIZE :: Pos(x, y, z) !in voxels
      ensures h > 0 ==> Pos(x, h - 1, z) in voxels
      ensures forall y | h <= y < MAP_SIZE :: Pos(x, y, z) !in voxels
    {
      h := 0;
      var y := 0;
      while y < MAP_SIZE
        invariant 0 <= y <= MAP_SIZE && 0 <= h <= y
        invariant h == 0 <==> forall y' | 0 <= y' < y :: Pos(x, y', z) !in voxels
        invariant h > 0 ==> Pos(x, h - 1, z) in voxels
        invariant forall y' | h <= y' < y :: Pos(x, y', z) !in voxels
      {
        if Pos(x, y, z) in voxels {
          h := y + 1;
        }
        y := y + 1;
      }
    }
  }

  /** The first k voxels of the stack an entry makes, written in order from its own y upwards. */
  function Stack(m: map<Pos, int>, e: Entry, k: nat): map<Pos, int>
  {
    if k == 0 then m else Stack(m, e, k - 1)[Pos(e.x, e.y + k - 1, e.z) := e.kind]
  }

  /** The map after the first n entries of the map file are stacked. */
  function LoadMap(m: map<Pos, int>, data: seq<Entry>, n: nat): map<Pos, int>
    requires n <= |data|
  {
    if n == 0 then m else Stack(LoadMap(m, data, n - 1), data[n - 1], StackHeight(data[n - 1].kind))
  }

  /** Whether the stack of entry e contains cell p. */
  predicate Covers(e: Entry, p: Pos)
  {
    p.x == e.x && p.z == e.z && e.y <= p.y < e.y + StackHeight(e.kind)
  }

  /** The index of the last of the first n entries whose stack contains p, or -1. */
  function LastCover(data: seq<Entry>, n: nat, p: Pos): (i: int)
    requires n <= |data|
    ensures -1 <= i < n
  {
    if n == 0 then -1 else if Covers(data[n - 1], p) then n - 1 else LastCover(data, n - 1, p)
  }

  /** A stack of height k writes exactly the cells y .. y + k - 1 of its column, all with its type. */
  lemma {:induction false} StackAt(m: map<Pos, int>, e: Entry, k: nat, p: Pos)
    ensures var r := Stack(m, e, k);
      var inStack := p.x == e.x && p.z == e.z && e.y <= p.y < e.y + k;
      (inStack ==> p in r && r[p] == e.kind) &&
      (!inStack ==> (p in r <==> p in m) && (p in m ==> r[p] == m[p]))
  {
    if k > 0 {
      StackAt(m, e, k - 1, p);
    }
  }

  /**
   * `loadVoxelMap`: a cell holds a voxel afterwards when it held one or
   * when some entry's stack covers it; it then has the type of the last
   * entry covering it, and no later entry covers it.
   */
  lemma {:induction false} LoadMapAt(m: map<Pos, int>, data: seq<Entry>, n: nat, p: Pos)
    requires n <= |data|
    ensures var r := LoadMap(m, data, n);
      var i := LastCover(data, n, p);
      (i >= 0 ==> Covers(data[i], p) && p in r && r[p] == data[i].kind) &&
      (forall j | i < j < n :: !Covers(data[j], p)) &&
      (i < 0 ==> (p in r <==> p in m) && (p in m ==> r[p] == m[p]))
  {
    if n > 0 {
      LoadMapAt(m, data, n - 1, p);
      StackAt(LoadMap(m, data, n - 1), data[n - 1], StackHeight(data[n - 1].kind), p);
    }
  }

  /** `loadVoxelMap` on the parsed map file. */
  method LoadVoxelMap(vm: VoxelMap, data: seq<Entry>)
    modifies vm
    ensures vm.voxels == LoadMap(old(vm.voxels), data, |data|)
  {
    var n := 0;
    while n < |data|
      invariant 0 <= n <= |data|
      invariant vm.voxels == LoadMap(old(vm.voxels), data, n)
    {
      var e := data[n];
      var height := StackHeight(e.kind);
      ghost var before := vm.voxels;
      var i := 0;
      while i < height
        invariant 0 <= i <= height
        invariant vm.voxels == Stack(before, e, i)
      {
        vm.AddVoxel(e.x, e.y + i, e.z, e.kind);
        i := i + 1;
      }
      n := n + 1;
    }
  }

  /** `getTreePositions(index)`: two fixed places for each of the three tree files, none for any other index. */
  function TreePositions(index: int): (ps: seq<Col>)
    ensures |ps| == if 0 <= index < 3 then 2 else 0
    ensures forall i | 0 <= i < |ps| :: -17 <= ps[i].x <= 17 && -17 <= ps[i].z <= 17
  {
    if index == 0 then [Col(-9, -14), Col(-10, -2)]
    else if index == 1 then [Col(-13, 8), Col(3, 6)]
    else if index == 2 then [Col(6, -6), Col(3, -17)]
    else []
  }

  /** The map after the first n voxels of a tree are planted at (baseX, baseZ). */
  function PlantTree(m: map<Pos, int>, tree: seq<Entry>, baseX: int, baseZ: int, n: nat): map<Pos, int>
    requires n <= |tree|
  {
    if n == 0 then m
    else
      var v := tree[n - 1];
      PlantTree(m, tree, baseX, baseZ, n - 1)[Pos(baseX + v.x, v.y, baseZ + v.z) := v.kind]
  }

  /** The index of the last of the first n tree voxels planted at p, or -1. */
  function LastPlanted(tree: seq<Entry>, baseX: int, baseZ: int, n: nat, p: Pos): (i: int)
    requires n <= |tree|
    ensures -1 <= i < n
  {
    if n == 0 then -1
    else if Pos(baseX + tree[n - 1].x, tree[n - 1].y, baseZ + tree[n - 1].z) == p then n - 1
    else LastPlanted(tree, baseX, baseZ, n - 1, p)
  }

  /**
   * `addTree(tree, baseX, baseZ)`: each voxel goes to (baseX + x, y,
   * baseZ + z), its height taken as it is in the file; a cell takes the
   * type of the last voxel planted there; other cells keep theirs.
   */
  lemma {:induction false} PlantTreeAt(m: map<Pos, int>, tree: seq<Entry>, baseX: int, baseZ: int, n: nat, p: Pos)
    requires n <= |tree|
    ensures var r := PlantTree(m, tree, baseX, baseZ, n);
      var i := LastPlanted(tree, baseX, baseZ, n, p);
      (i >= 0 ==> p == Pos(baseX + tree[i].x, tree[i].y, baseZ + tree[i].z) && p in r && r[p] == tree[i].kind) &&
      (forall j | i < j < n :: p != Pos(baseX + tree[j].x, tree[j].y, baseZ + tree[j].z)) &&
      (i < 0 ==> (p in r <==> p in m) && (p in m ==> r[p] == m[p]))
  {
    if n > 0 {
      PlantTreeAt(m, tree, baseX, baseZ, n - 1, p);
    }
  }

  /** `addTree` in place. */
  method AddTree(vm: VoxelMap, tree: seq<Entry>, baseX: int, baseZ: int)
    modifies vm
    ensures vm.voxels == PlantTree(old(vm.voxels), tree, baseX, baseZ, |tree|)
  {
    var n := 0;
    while n < |tree|
      invariant 0 <= n <= |tree|
      invariant vm.voxels == PlantTree(old(vm.voxels), tree, baseX, baseZ, n)
    {
      var v := tree[n];
      vm.AddVoxel(baseX + v.x, v.y, baseZ + v.z, v.kind);
      n := n + 1;
    }
  }

  /** The first k positions of `positions`, each planted with the same tree. */
  function PlantAt(m: map<Pos, int>, tree: seq<Entry>, positions: seq<Col>, k: nat): map<Pos, int>
    requires k <= |positions|
  {
    if k == 0 then m else PlantTree(PlantAt(m, tree, positions, k - 1), tree, positions[k - 1].x, positions[k - 1].z, |tree|)
  }

  /** `loadAllTrees` after the first n tree files: file i is planted at `getTreePositions(i)`. */
  function PlantAll(m: map<Pos, int>, trees: seq<seq<Entry>>, n: nat): map<Pos, int>
    requires n <= |trees|
  {
    if n == 0 then m
    else
      var ps := TreePositions(n - 1);
      PlantAt(PlantAll(m, trees, n - 1), trees[n - 1], ps, |ps|)
  }

  /** Tree files past the third are planted nowhere. */
  lemma {:induction false} PlantAllIgnoresExtraFiles(m: map<Pos, int>, trees: seq<seq<Entry>>, n: nat)
    requires n <= |trees|
    ensures PlantAll(m, trees, n) == PlantAll(m, trees, Min(n, 3))
  {
    if n > 3 {
      PlantAllIgnoresExtraFiles(m, trees, n - 1);
      assert TreePositions(n - 1) == [];
    }
  }

  /** `loadAllTrees` once every tree file has loaded. */
  method LoadAllTrees(vm: VoxelMap, trees: seq<seq<Entry>>)
    modifies vm
    ensures vm.voxels == PlantAll(old(vm.voxels), trees, |trees|)
  {
    var n := 0;
    while n < |trees|
      invariant 0 <= n <= |trees|
      invariant vm.voxels == PlantAll(old(vm.voxels), trees, n)
    {
      var ps := TreePositions(n);
      ghost var before := vm.voxels;
      var k := 0;
      while k < |ps|
        invariant 0 <= k <= |ps|
        invariant vm.voxels == PlantAt(before, trees[n], ps, k)
      {
        AddTree(vm, trees[n], ps[k].x, ps[k].z);
        k := k + 1;
      }
      n := n + 1;
    }
  }
}
