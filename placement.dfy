/**
 * The placement loop of `loadAllBuildingsWithProgress` in
 * T3/scripts/buildings.js: pick a building definition and a position in
 * the next quadrant, generate its chunk, skip it when its grown rectangle
 * touches a tree or a placed building, otherwise flatten the ground, write
 * the building, register the grown rectangle and take the definition out
 * of the pool.
 */
module Placement {
  import opened Voxel
  import opened Store
  import opened Terrain
  import opened Chunks
  import opened Buildings

  /** The height of a building's lowest voxel layer. */
  const TARGET_Y: int := 19
  /** The level `forceTerrainFlat` fills, one below the building. */
  const FILL_HEIGHT: int := TARGET_Y - 1
  /** How far the flattened area reaches beyond the building on each side. */
  const PADDING: int := 2
  /** The margin kept from the quadrant border and the grown rectangle's margin. */
  const BUFFER: int := 1
  /** The side of a quadrant, `planeSize / 2`. */
  const QUADRANT_SPAN: int := PLANE_SIZE / 2
  /** The attempt budget per building asked for. */
  const ATTEMPTS_PER_BUILDING: nat := 2000

  /** A loaded building definition: its voxels and its footprint size. */
  datatype Blueprint = Blueprint(voxels: seq<BuildingVoxel>, width: int, depth: int)

  /**
   * The random numbers and renderer outcomes of one attempt: the draw that
   * picks the definition, the two position draws, and whether the Dirt
   * and Water meshes are made and the torch model is ready.
   */
  datatype Draw = Draw(pick: real, xFraction: real, zFraction: real, meshMade: bool, waterMade: bool, torchReady: bool)

  /** `Math.random()` lies in [0, 1). */
  predicate ValidDraw(d: Draw)
  {
    0.0 <= d.pick < 1.0
  }

  /** `Math.floor(r * n)` for r in [0, 1) is an index of a list of length n. */
  function PickIndex(r: real, n: nat): (i: nat)
    requires 0.0 <= r < 1.0 && n > 0
    ensures i < n
  {
    assert r * (n as real) < n as real by {
      assert (1.0 - r) * (n as real) > 0.0;
    }
    Floor(r * (n as real))
  }

  /** The lower corner (minX, minZ) of quadrant q; the quadrants are visited in order 0, 1, 2, 3. */
  function QuadrantCorner(q: nat): Col
  {
    var i := q % 4;
    var half := QUADRANT_SPAN;
    Col(if i == 0 || i == 2 then -half else 0, if i < 2 then -half else 0)
  }

  /** The cells (x, z) with z0 <= z < z0 + nz. */
  function Strip(x: int, z0: int, nz: nat): set<Col>
  {
    if nz == 0 then {} else Strip(x, z0, nz - 1) + {Col(x, z0 + nz - 1)}
  }

  /** The cells of [x0, x0 + nx) × [z0, z0 + nz). */
  function Rect(x0: int, z0: int, nx: nat, nz: nat): set<Col>
  {
    if nx == 0 then {} else Rect(x0, z0, nx - 1, nz) + Strip(x0 + nx - 1, z0, nz)
  }

  lemma {:induction false} StripMembers(x: int, z0: int, nz: nat, c: Col)
    ensures c in Strip(x, z0, nz) <==> c.x == x && z0 <= c.z < z0 + nz
  {
    if nz > 0 {
      StripMembers(x, z0, nz - 1, c);
    }
  }

  lemma {:induction false} RectMembers(x0: int, z0: int, nx: nat, nz: nat, c: Col)
    ensures c in Rect(x0, z0, nx, nz) <==> x0 <= c.x < x0 + nx && z0 <= c.z < z0 + nz
  {
    if nx > 0 {
      RectMembers(x0, z0, nx - 1, nz, c);
      StripMembers(x0 + nx - 1, z0, nz, c);
    }
  }

  /** The rectangle checked and registered for a building of size w × d at (rx, rz): grown by one cell on every side. */
  function Halo(rx: int, rz: int, w: int, d: int): set<Col>
  {
    Rect(rx - BUFFER, rz - BUFFER, Count(w + 2 * BUFFER), Count(d + 2 * BUFFER))
  }

  /** The area test of the loop: the halo holds no tree and no registered building cell. */
  method AreaFree(trees: set<Col>, buildings: set<Col>, rx: int, rz: int, w: int, d: int) returns (free: bool)
    ensures free <==> Halo(rx, rz, w, d) !! (trees + buildings)
  {
    var x0, z0 := rx - BUFFER, rz - BUFFER;
    var nx, nz := Count(w + 2 * BUFFER), Count(d + 2 * BUFFER);
    free := true;
    ghost var hit := Col(x0, z0);
    var x := x0;
    while x < rx + w + BUFFER
      invariant x0 <= x <= x0 + nx
      invariant free && Rect(x0, z0, x - x0, nz) !! (trees + buildings)
    {
      var z := z0;
      while z < rz + d + BUFFER
        invariant z0 <= z <= z0 + nz
        invariant free && Strip(x, z0, z - z0) !! (trees + buildings)
      {
        if Col(x, z) in trees || Col(x, z) in buildings {
          free := false;
          hit := Col(x, z);
          break;
        }
        z := z + 1;
      }
      if !free {
        RectMembers(x0, z0, nx, nz, hit);
        break;
      }
      assert Rect(x0, z0, x + 1 - x0, nz) == Rect(x0, z0, x - x0, nz) + Strip(x, z0, nz);
      x := x + 1;
    }
  }

  /** Registering the halo of a placed building in `buildingPositions`. */
  method RegisterHalo(buildings: CellSet, rx: int, rz: int, w: int, d: int)
    modifies buildings
    ensures buildings.cells == old(buildings.cells) + Halo(rx, rz, w, d)
  {
    var x0, z0 := rx - BUFFER, rz - BUFFER;
    var nx, nz := Count(w + 2 * BUFFER), Count(d + 2 * BUFFER);
    var x := x0;
    while x < rx + w + BUFFER
      invariant x0 <= x <= x0 + nx
      invariant buildings.cells == old(buildings.cells) + Rect(x0, z0, x - x0, nz)
    {
      ghost var before := buildings.cells;
      var z := z0;
      while z < rz + d + BUFFER
        invariant z0 <= z <= z0 + nz
        invariant buildings.cells == before + Strip(x, z0, z - z0)
      {
        buildings.Add(Col(x, z));
        z := z + 1;
      }
      x := x + 1;
    }
  }

  /** Where a building went and its footprint size. */
  datatype Site = Site(x: int, z: int, width: int, depth: int)

  function SiteHalo(s: Site): set<Col>
  {
    Halo(s.x, s.z, s.width, s.depth)
  }

  /** The halos of the placed buildings. */
  function Halos(placed: seq<Site>): set<Col>
  {
    if |placed| == 0 then {} else Halos(placed[..|placed| - 1]) + SiteHalo(placed[|placed| - 1])
  }

  /** Each placed halo avoided `base` and every earlier halo when it was placed. */
  predicate Separated(placed: seq<Site>, base: set<Col>)
  {
    |placed| == 0 ||
    (Separated(placed[..|placed| - 1], base) && SiteHalo(placed[|placed| - 1]) !! base + Halos(placed[..|placed| - 1]))
  }

  lemma {:induction false} HalosContain(placed: seq<Site>, i: nat)
    requires i < |placed|
    ensures SiteHalo(placed[i]) <= Halos(placed)
  {
    if i < |placed| - 1 {
      HalosContain(placed[..|placed| - 1], i);
    }
  }

  /** Separated placements have pairwise disjoint halos, none of which touches `base`. */
  lemma {:induction false} SeparatedPairwise(placed: seq<Site>, base: set<Col>)
    requires Separated(placed, base)
    ensures forall i | 0 <= i < |placed| :: SiteHalo(placed[i]) !! base
    ensures forall i, j | 0 <= i < j < |placed| :: SiteHalo(placed[i]) !! SiteHalo(placed[j])
  {
    if |placed| > 0 {
      var prefix := placed[..|placed| - 1];
      SeparatedPairwise(prefix, base);
      forall i, j | 0 <= i < j < |placed|
        ensures SiteHalo(placed[i]) !! SiteHalo(placed[j])
      {
        if j == |placed| - 1 {
          HalosContain(prefix, i);
        } else {
          assert placed[i] == prefix[i] && placed[j] == prefix[j];
        }
      }
      forall i | 0 <= i < |placed|
        ensures SiteHalo(placed[i]) !! base
      {
        if i < |placed| - 1 {
          assert placed[i] == prefix[i];
        }
      }
    }
  }

  /**
   * The loop's state: the world tables, `buildingPositions`, the pool of
   * definitions still available, the number added, the next quadrant, and
   * the buildings placed so far.
   */
  datatype Siting = Siting(t: Tables, buildings: set<Col>, pool: seq<Blueprint>, added: nat, quadrant: nat, placed: seq<Site>)

  /** The position an attempt tries for definition b in quadrant q. */
  function Origin(b: Blueprint, q: nat, d: Draw): Col
  {
    var corner := QuadrantCorner(q);
    Col(Floor(d.xFraction * ((QUADRANT_SPAN - 2 * BUFFER - b.width) as real)) + corner.x + BUFFER,
        Floor(d.zFraction * ((QUADRANT_SPAN - 2 * BUFFER - b.depth) as real)) + corner.z + BUFFER)
  }

  /**
   * One pass of the loop body: pick a definition and a position, move to
   * the next quadrant, generate the chunk, and go on to `Settle` only if
   * the halo is free.
   */
  function BuildingAttempt(s: Siting, trees: set<Col>, d: Draw, noise: Noise): Siting
    requires |s.pool| > 0 && ValidDraw(d)
  {
    var i := PickIndex(d.pick, |s.pool|);
    var b := s.pool[i];
    var o := Origin(b, s.quadrant, d);
    var s' := s.(t := ApplyChunk(s.t, ChunkOf(o.x, o.z, CHUNK_SIZE), noise), quadrant := (s.quadrant + 1) % 4);
    if Halo(o.x, o.z, b.width, b.depth) !! trees + s.buildings then Settle(s', i, o, d) else s'
  }

  /**
   * The rest of an attempt whose halo is free: flatten the padded
   * footprint, and only when that succeeds write the building; only when
   * that succeeds too, count it, register its halo and take definition i
   * out of the pool.
   */
  function Settle(s: Siting, i: nat, o: Col, d: Draw): Siting
    requires i < |s.pool|
  {
    var b := s.pool[i];
    var f := Flatten(s.t, o.x - PADDING, o.z - PADDING, b.width + 2 * PADDING, b.depth + 2 * PADDING, FILL_HEIGHT,
                     d.meshMade, d.waterMade);
    if !f.ok then s.(t := f.t)
    else
      match AddBuildingResult(f.t, b.voxels, o.x, TARGET_Y, o.z, d.torchReady)
      case None => s.(t := f.t)
      case Some(u) =>
        Siting(u, s.buildings + Halo(o.x, o.z, b.width, b.depth), s.pool[..i] + s.pool[i + 1..], s.added + 1, s.quadrant,
               s.placed + [Site(o.x, o.z, b.width, b.depth)])
  }

  /** The loop from attempt k on: it stops at `need` buildings, after `need * 2000` attempts, or with an empty pool. */
  function BuildingsFrom(s: Siting, trees: set<Col>, need: nat, pick: nat -> Draw, noise: Noise, k: nat): Siting
    requires forall j :: ValidDraw(pick(j))
    decreases need * ATTEMPTS_PER_BUILDING - k
  {
    if s.added >= need || k >= need * ATTEMPTS_PER_BUILDING || |s.pool| == 0 then s
    else BuildingsFrom(BuildingAttempt(s, trees, pick(k), noise), trees, need, pick, noise, k + 1)
  }

  /** The number of buildings asked for: the request, capped at twice the number of definitions. */
  function Need(requested: nat, defs: seq<Blueprint>): nat
  {
    Min(requested, 2 * |defs|)
  }

  /** The whole loop; with no definition loaded nothing happens. */
  function LoadBuildingsResult(t: Tables, buildings: set<Col>, trees: set<Col>, defs: seq<Blueprint>, requested: nat,
                               pick: nat -> Draw, noise: Noise): Siting
    requires forall j :: ValidDraw(pick(j))
  {
    var s := Siting(t, buildings, defs, 0, 0, []);
    if |defs| == 0 then s else BuildingsFrom(s, trees, Need(requested, defs), pick, noise, 0)
  }

  /** The invariant of the loop relative to the registry `b0` it started from. */
  predicate Sited(s: Siting, trees: set<Col>, b0: set<Col>)
  {
    s.buildings == b0 + Halos(s.placed) && Separated(s.placed, trees + b0) && |s.placed| == s.added
  }

  /**
   * One attempt keeps the invariant, moves to the next quadrant, and
   * either changes no count or adds one building while taking exactly one
   * definition out of the pool.
   */
  lemma BuildingAttemptEffect(s: Siting, trees: set<Col>, b0: set<Col>, d: Draw, noise: Noise)
    requires |s.pool| > 0 && ValidDraw(d) && Sited(s, trees, b0)
    ensures var e := BuildingAttempt(s, trees, d, noise);
      Sited(e, trees, b0) && e.quadrant == (s.quadrant + 1) % 4 &&
      ((e.added == s.added && e.pool == s.pool && e.placed == s.placed) ||
       (e.added == s.added + 1 && |e.pool| + 1 == |s.pool| &&
        multiset(e.pool) + multiset{s.pool[PickIndex(d.pick, |s.pool|)]} == multiset(s.pool)))
  {
    var i := PickIndex(d.pick, |s.pool|);
    var e := BuildingAttempt(s, trees, d, noise);
    var b := s.pool[i];
    var o := Origin(b, s.quadrant, d);
    if e.added != s.added {
      assert Halo(o.x, o.z, b.width, b.depth) !! trees + s.buildings;
      var site := Site(o.x, o.z, b.width, b.depth);
      assert e.placed == s.placed + [site];
      assert e.placed[..|e.placed| - 1] == s.placed;
      assert s.pool == s.pool[..i] + [b] + s.pool[i + 1..];
      assert multiset(s.pool) == multiset(s.pool[..i]) + multiset{b} + multiset(s.pool[i + 1..]);
    }
  }

  /**
   * What the placement loop guarantees: it never adds more buildings than
   * needed; every building added took one definition out of the pool; the
   * registry is the start registry plus the halos of the placed buildings,
   * which were pairwise disjoint and disjoint from the trees and the
   * starting registry.
   */
  lemma {:induction false} BuildingsFromEffect(s: Siting, trees: set<Col>, b0: set<Col>, need: nat, pick: nat -> Draw, noise: Noise, k: nat)
    requires forall j :: ValidDraw(pick(j))
    requires Sited(s, trees, b0) && s.added <= need
    ensures var e := BuildingsFrom(s, trees, need, pick, noise, k);
      Sited(e, trees, b0) && s.added <= e.added <= need && |e.pool| + e.added == |s.pool| + s.added &&
      multiset(e.pool) <= multiset(s.pool)
    decreases need * ATTEMPTS_PER_BUILDING - k
  {
    if !(s.added >= need || k >= need * ATTEMPTS_PER_BUILDING || |s.pool| == 0) {
      var s' := BuildingAttempt(s, trees, pick(k), noise);
      BuildingAttemptEffect(s, trees, b0, pick(k), noise);
      BuildingsFromEffect(s', trees, b0, need, pick, noise, k + 1);
      BuildingsFromUnfold(s, trees, need, pick, noise, k);
      PoolStep(s.pool, s'.pool, BuildingsFrom(s', trees, need, pick, noise, k + 1).pool, s.pool[PickIndex(pick(k).pick, |s.pool|)]);
    }
  }

  /** One unfolding of the loop, with the attempt named. */
  lemma BuildingsFromUnfold(s: Siting, trees: set<Col>, need: nat, pick: nat -> Draw, noise: Noise, k: nat)
    requires forall j :: ValidDraw(pick(j))
    requires !(s.added >= need || k >= need * ATTEMPTS_PER_BUILDING || |s.pool| == 0)
    ensures BuildingsFrom(s, trees, need, pick, noise, k) ==
      BuildingsFrom(BuildingAttempt(s, trees, pick(k), noise), trees, need, pick, noise, k + 1)
  {
  }

  /** Taking at most one element out of the pool, then a sub-multiset, stays a sub-multiset. */
  lemma PoolStep(p: seq<Blueprint>, p': seq<Blueprint>, e: seq<Blueprint>, b: Blueprint)
    requires p' == p || multiset(p') + multiset{b} == multiset(p)
    requires multiset(e) <= multiset(p')
    ensures multiset(e) <= multiset(p)
  {
  }

  /** The headline property of the loop, stated on the placed buildings themselves. */
  lemma LoadBuildingsEffect(t: Tables, b0: set<Col>, trees: set<Col>, defs: seq<Blueprint>, requested: nat,
                            pick: nat -> Draw, noise: Noise)
    requires forall j :: ValidDraw(pick(j))
    ensures var e := LoadBuildingsResult(t, b0, trees, defs, requested, pick, noise);
      e.added <= Need(requested, defs) && |e.pool| + e.added == |defs| && multiset(e.pool) <= multiset(defs) &&
      e.buildings == b0 + Halos(e.placed) && |e.placed| == e.added &&
      (forall i | 0 <= i < |e.placed| :: SiteHalo(e.placed[i]) !! trees + b0) &&
      (forall i, j | 0 <= i < j < |e.placed| :: SiteHalo(e.placed[i]) !! SiteHalo(e.placed[j]))
  {
    var s := Siting(t, b0, defs, 0, 0, []);
    assert Halos([]) == {};
    if |defs| > 0 {
      BuildingsFromEffect(s, trees, b0, Need(requested, defs), pick, noise, 0);
    }
    var e := LoadBuildingsResult(t, b0, trees, defs, requested, pick, noise);
    SeparatedPairwise(e.placed, trees + b0);
  }

  /** The loop body of `loadAllBuildingsWithProgress`, in place. */
  method TryBuilding(w: World, trees: CellSet, buildings: CellSet, pool: seq<Blueprint>, quadrant: nat, d: Draw, noise: Noise,
                     added: nat, ghost placed: seq<Site>)
    returns (pool': seq<Blueprint>, quadrant': nat, added': nat, ghost placed': seq<Site>)
    requires trees != buildings && |pool| > 0 && ValidDraw(d)
    modifies w, buildings
    ensures Siting(w.Data(), buildings.cells, pool', added', quadrant', placed') ==
      BuildingAttempt(Siting(old(w.Data()), old(buildings.cells), pool, added, quadrant, placed), trees.cells, d, noise)
  {
    var i := PickIndex(d.pick, |pool|);
    var b := pool[i];
    var corner := QuadrantCorner(quadrant);
    var rx := Floor(d.xFraction * ((QUADRANT_SPAN - 2 * BUFFER - b.width) as real)) + corner.x + BUFFER;
    var rz := Floor(d.zFraction * ((QUADRANT_SPAN - 2 * BUFFER - b.depth) as real)) + corner.z + BUFFER;
    assert Col(rx, rz) == Origin(b, quadrant, d);
    quadrant' := (quadrant + 1) % 4;
    GenerateChunk(w, ChunkOf(rx, rz, CHUNK_SIZE), noise);
    var free := AreaFree(trees.cells, buildings.cells, rx, rz, b.width, b.depth);
    if free {
      pool', added', placed' := SettleBuilding(w, buildings, pool, i, rx, rz, quadrant', d, added, placed);
    } else {
      pool', added', placed' := pool, added, placed;
    }
  }

  /** The flatten-then-add part of the loop body, in place. */
  method SettleBuilding(w: World, buildings: CellSet, pool: seq<Blueprint>, i: nat, rx: int, rz: int, quadrant: nat, d: Draw,
                        added: nat, ghost placed: seq<Site>)
    returns (pool': seq<Blueprint>, added': nat, ghost placed': seq<Site>)
    requires i < |pool|
    modifies w, buildings
    ensures Siting(w.Data(), buildings.cells, pool', added', quadrant, placed') ==
      Settle(Siting(old(w.Data()), old(buildings.cells), pool, added, quadrant, placed), i, Col(rx, rz), d)
  {
    var b := pool[i];
    pool', added', placed' := pool, added, placed;
    var flat := ForceTerrainFlat(w, rx - PADDING, rz - PADDING, b.width + 2 * PADDING, b.depth + 2 * PADDING, FILL_HEIGHT,
                                 d.meshMade, d.waterMade);
    if flat {
      var ok := AddBuilding(w, b.voxels, rx, TARGET_Y, rz, d.torchReady);
      if ok {
        added' := added + 1;
        RegisterHalo(buildings, rx, rz, b.width, b.depth);
        pool' := pool[..i] + pool[i + 1..];
        placed' := placed + [Site(rx, rz, b.width, b.depth)];
      }
    }
  }

  /**
   * The placement loop of `loadAllBuildingsWithProgress`: `defs` are the
   * loaded definitions, `trees` is `treePositions`, `buildings` is
   * `buildingPositions`, and `pick(k)` is the k-th attempt's draw.
   */
  method LoadBuildings(w: World, trees: CellSet, buildings: CellSet, defs: seq<Blueprint>, requested: nat,
                       pick: nat -> Draw, noise: Noise)
    returns (added: nat)
    requires trees != buildings && forall j :: ValidDraw(pick(j))
    modifies w, buildings
    ensures var e := LoadBuildingsResult(old(w.Data()), old(buildings.cells), trees.cells, defs, requested, pick, noise);
      w.Data() == e.t && buildings.cells == e.buildings && added == e.added
  {
    added := 0;
    if |defs| == 0 {
      return;
    }
    var need := Min(requested, 2 * |defs|);
    var maxAttempts := need * ATTEMPTS_PER_BUILDING;
    var pool := defs;
    var quadrant := 0;
    var attempts := 0;
    ghost var placed: seq<Site> := [];
    ghost var goal := LoadBuildingsResult(old(w.Data()), old(buildings.cells), trees.cells, defs, requested, pick, noise);
    assert goal == BuildingsFrom(Siting(w.Data(), buildings.cells, pool, added, quadrant, placed), trees.cells, need, pick, noise, attempts);
    while added < need && attempts < maxAttempts && |pool| > 0
      invariant BuildingsFrom(Siting(w.Data(), buildings.cells, pool, added, quadrant, placed), trees.cells, need, pick, noise, attempts) == goal
      decreases maxAttempts - attempts
    {
      ghost var now := Siting(w.Data(), buildings.cells, pool, added, quadrant, placed);
      BuildingsFromUnfold(now, trees.cells, need, pick, noise, attempts);
      pool, quadrant, added, placed := TryBuilding(w, trees, buildings, pool, quadrant, pick(attempts), noise, added, placed);
      assert Siting(w.Data(), buildings.cells, pool, added, quadrant, placed) == BuildingAttempt(now, trees.cells, pick(attempts), noise);
      attempts := attempts + 1;
    }
  }
}
