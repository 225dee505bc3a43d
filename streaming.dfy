/**
 * Chunk streaming: `updateChunks` of both versions (load the disc of chunks
 * around the player, forget far chunks) and the full-map sweep of
 * `loadEntireMapWithProgress` (T3/execution_part3.js).
 */
module Streaming {
  import opened Wrappers
  import opened Voxel
  import opened Store
  import opened Terrain
  import opened Chunks
  import opened Classic
  import opened Physics

  /** `generateChunk` of the version the rules belong to. */
  function ApplyChunkBy(r: Rules, t: Tables, k: ChunkKey, noise: Noise): Tables
  {
    if r.T3Rules? then ApplyChunk(t, k, noise) else ApplyClassicChunk(t, k, noise)
  }

  method GenerateChunkBy(w: World, r: Rules, k: ChunkKey, noise: Noise)
    modifies w
    ensures w.Data() == ApplyChunkBy(r, old(w.Data()), k, noise)
  {
    if r.T3Rules? {
      GenerateChunk(w, k, noise);
    } else {
      GenerateClassicChunk(w, k, noise);
    }
  }

  /** Generates the chunks of `keys` in order. */
  function ApplyChunksBy(r: Rules, t: Tables, keys: seq<ChunkKey>, noise: Noise): Tables
  {
    if keys == [] then t
    else ApplyChunkBy(r, ApplyChunksBy(r, t, keys[..|keys| - 1], noise), keys[|keys| - 1], noise)
  }

  lemma ApplyChunksBySnoc(r: Rules, t: Tables, keys: seq<ChunkKey>, n: nat, noise: Noise)
    requires n < |keys|
    ensures ApplyChunksBy(r, t, keys[..n + 1], noise) == ApplyChunkBy(r, ApplyChunksBy(r, t, keys[..n], noise), keys[n], noise)
  {
    assert keys[..n + 1][..n] == keys[..n];
  }

  lemma ApplyChunksByAppend(r: Rules, t: Tables, keys: seq<ChunkKey>, k: ChunkKey, noise: Noise)
    ensures ApplyChunksBy(r, t, keys + [k], noise) == ApplyChunkBy(r, ApplyChunksBy(r, t, keys, noise), k, noise)
  {
    assert (keys + [k])[..|keys|] == keys;
  }

  /**
   * Nothing changes for the cells and columns of chunks outside ks: the
   * occupancy, the types and the column heights stay as they were.
   */
  ghost predicate SameOutside(r: Rules, t: Tables, u: Tables, ks: set<ChunkKey>)
  {
    (forall p: Pos | ChunkOf(p.x, p.z, r.chunkSize) !in ks ::
      (p in u.occupied <==> p in t.occupied) && (p in u.types <==> p in t.types) &&
      (p in t.types ==> u.types[p] == t.types[p])) &&
    (forall c: Col | ChunkOf(c.x, c.z, r.chunkSize) !in ks ::
      (c in u.heights <==> c in t.heights) && (c in t.heights ==> u.heights[c] == t.heights[c]))
  }

  /** Generating one chunk marks it loaded and touches nothing outside it. */
  lemma ChunkByEffect(r: Rules, t: Tables, k: ChunkKey, noise: Noise)
    ensures ApplyChunkBy(r, t, k, noise).loaded == t.loaded + {k}
    ensures SameOutside(r, t, ApplyChunkBy(r, t, k, noise), {k})
  {
    if r.T3Rules? {
      GenerateChunkEffect(t, k, noise);
    } else {
      ClassicChunkEffect(t, k, noise);
    }
  }

  /**
   * Generating a list of chunks marks exactly those chunks loaded (on top of
   * the ones that were) and touches nothing outside them.
   */
  lemma {:induction false} ChunksByEffect(r: Rules, t: Tables, keys: seq<ChunkKey>, noise: Noise)
    ensures ApplyChunksBy(r, t, keys, noise).loaded == t.loaded + set k | k in keys
    ensures SameOutside(r, t, ApplyChunksBy(r, t, keys, noise), set k | k in keys)
  {
    if keys != [] {
      var init := keys[..|keys| - 1];
      var last := keys[|keys| - 1];
      ChunksByEffect(r, t, init, noise);
      ChunkByEffect(r, ApplyChunksBy(r, t, init, noise), last, noise);
      assert keys == init + [last];
      assert (set k | k in keys) == (set k | k in init) + {last};
    }
  }

  /** What the source computes as `Math.sqrt(dx*dx + dz*dz) <= rad`, on integers. */
  predicate InDisc(dx: int, dz: int, rad: int)
  {
    rad >= 0 && dx * dx + dz * dz <= rad * rad
  }

  /** What the source computes as `Math.sqrt(dx*dx + dz*dz) > m`, on integers. */
  predicate Far(dx: int, dz: int, m: int)
  {
    m < 0 || dx * dx + dz * dz > m * m
  }

  /** The number of offsets -rad .. rad. */
  function Width(rad: int): nat
  {
    if rad >= 0 then 2 * rad + 1 else 0
  }

  /** The disc keys of row dx among the first m offsets dz = -rad, -rad+1, ..., in loop order. */
  function DiscRow(pc: ChunkKey, rad: int, dx: int, m: nat): seq<ChunkKey>
  {
    if m == 0 then []
    else
      var dz := -rad + m - 1;
      DiscRow(pc, rad, dx, m - 1) + (if InDisc(dx, dz, rad) then [ChunkKey(pc.cx + dx, pc.cz + dz)] else [])
  }

  /** The disc keys of the first n rows dx = -rad, -rad+1, ..., in loop order. */
  function DiscRows(pc: ChunkKey, rad: int, n: nat): seq<ChunkKey>
  {
    if n == 0 then []
    else DiscRows(pc, rad, n - 1) + DiscRow(pc, rad, -rad + n - 1, Width(rad))
  }

  /** The chunks `updateChunks` generates, in the order its two loops visit them. */
  function LoadOrder(pc: ChunkKey, rad: int): seq<ChunkKey>
  {
    DiscRows(pc, rad, Width(rad))
  }

  /** Both offsets of a disc chunk lie within -rad .. rad. */
  lemma DiscBounds(dx: int, dz: int, rad: int)
    requires InDisc(dx, dz, rad)
    ensures -rad <= dx <= rad && -rad <= dz <= rad
  {
    SquareBound(dx, dz, rad);
    SquareBound(dz, dx, rad);
  }

  lemma SquareBound(a: int, b: int, rad: int)
    requires rad >= 0 && a * a + b * b <= rad * rad
    ensures -rad <= a <= rad
  {
    var m := if a < 0 then -a else a;
    assert m * m == a * a;
    assert b * b >= 0;
    if m > rad {
      MulLess(rad, m, rad, m);
      assert false;
    }
  }

  lemma MulLess(a: int, b: int, c: int, d: int)
    requires 0 <= a < b && 0 <= c < d
    ensures a * c < b * d
  {
    assert a * c <= a * d;
    assert a * d < b * d;
  }

  lemma {:induction false} DiscRowMembers(pc: ChunkKey, rad: int, dx: int, m: nat, k: ChunkKey)
    ensures k in DiscRow(pc, rad, dx, m) <==>
      k.cx == pc.cx + dx && -rad <= k.cz - pc.cz < -rad + m && InDisc(dx, k.cz - pc.cz, rad)
  {
    if m > 0 {
      DiscRowMembers(pc, rad, dx, m - 1, k);
    }
  }

  lemma {:induction false} DiscRowsMembers(pc: ChunkKey, rad: int, n: nat, k: ChunkKey)
    ensures k in DiscRows(pc, rad, n) <==>
      -rad <= k.cx - pc.cx < -rad + n && InDisc(k.cx - pc.cx, k.cz - pc.cz, rad)
  {
    if n > 0 {
      DiscRowsMembers(pc, rad, n - 1, k);
      var dx := k.cx - pc.cx;
      var dz := k.cz - pc.cz;
      DiscRowMembers(pc, rad, -rad + n - 1, Width(rad), k);
      if InDisc(dx, dz, rad) {
        DiscBounds(dx, dz, rad);
      }
    }
  }

  /** The loop visits exactly the chunks of the disc of radius rad around pc. */
  lemma LoadOrderMembers(pc: ChunkKey, rad: int, k: ChunkKey)
    ensures k in LoadOrder(pc, rad) <==> InDisc(k.cx - pc.cx, k.cz - pc.cz, rad)
  {
    DiscRowsMembers(pc, rad, Width(rad), k);
    var dx := k.cx - pc.cx;
    var dz := k.cz - pc.cz;
    if InDisc(dx, dz, rad) {
      DiscBounds(dx, dz, rad);
    }
  }

  /** A chunk in the disc of radius rad is never farther than rad + 1. */
  lemma DiscNotFar(dx: int, dz: int, rad: int)
    requires InDisc(dx, dz, rad)
    ensures !Far(dx, dz, rad + 1)
  {
    assert rad * rad <= (rad + 1) * (rad + 1);
  }

  /** The state of the view `updateChunks` reads besides the world. */
  datatype View = View(hasModel: bool, fogEnabled: bool, fogDistance: real, orbital: bool)

  /**
   * The load radius: `ceil(fog / CHUNK_SIZE)` in T3 (the non-fog branch is
   * never reached there); in T2 `ceil(fog / 16)` with fog, `ceil(200 / 16)`
   * without.
   */
  function LoadRadius(r: Rules, v: View): int
  {
    if r.T3Rules? then
      var fogRadius := Ceil(v.fogDistance / CHUNK_SIZE as real);
      if v.fogEnabled then fogRadius else Min(fogRadius, 6)
    else if v.fogEnabled then Ceil(v.fogDistance / 16.0)
    else Ceil(200.0 / 16.0)
  }

  /** `updateChunks` returns at once: no player model, or (T3 only) fog off or the orbital camera. */
  predicate Skipped(r: Rules, v: View)
  {
    !v.hasModel || (r.T3Rules? && (!v.fogEnabled || v.orbital))
  }

  /**
   * A child of the scene as the eviction pass sees it: the chunk key in its
   * `userData`, if any, and whether it is an instanced mesh.
   */
  datatype Child = Child(chunkKey: Option<ChunkKey>, instanced: bool)

  /**
   * The eviction test of `updateChunks`: the child carries a chunk key (in
   * T3 it must also be an instanced mesh) and that chunk lies farther than m.
   */
  predicate Evicts(r: Rules, c: Child, pc: ChunkKey, m: int)
  {
    c.chunkKey.Some? && (r.T2Rules? || c.instanced) &&
    Far(c.chunkKey.value.cx - pc.cx, c.chunkKey.value.cz - pc.cz, m)
  }

  /** Some child of the scene is a far chunk mesh carrying key k. */
  ghost predicate CarriedFar(r: Rules, cs: seq<Child>, k: ChunkKey, pc: ChunkKey, m: int)
  {
    exists i :: 0 <= i < |cs| && cs[i].chunkKey == Some(k) && Evicts(r, cs[i], pc, m)
  }

  /**
   * The keys the eviction pass drops, from index j of the children on. The
   * pass walks `scene.children` with `forEach` while `scene.remove` splices
   * that same array, so the child after a removed one slides into the slot
   * just visited and is never looked at: after a removal the pass goes on at
   * j + 2 of the original children.
   */
  function SkipEvicted(r: Rules, cs: seq<Child>, j: nat, pc: ChunkKey, m: int): set<ChunkKey>
    decreases |cs| - j
  {
    if j >= |cs| then {}
    else if Evicts(r, cs[j], pc, m) then {cs[j].chunkKey.value} + SkipEvicted(r, cs, j + 2, pc, m)
    else SkipEvicted(r, cs, j + 1, pc, m)
  }

  /** The children the eviction pass leaves in the scene, from index j on. */
  function SkipKept(r: Rules, cs: seq<Child>, j: nat, pc: ChunkKey, m: int): seq<Child>
    decreases |cs| - j
  {
    if j >= |cs| then []
    else if Evicts(r, cs[j], pc, m) then
      (if j + 1 < |cs| then [cs[j + 1]] else []) + SkipKept(r, cs, j + 2, pc, m)
    else [cs[j]] + SkipKept(r, cs, j + 1, pc, m)
  }

  /** The pass drops only keys of far chunk meshes. */
  lemma {:induction false} SkipEvictedCarried(r: Rules, cs: seq<Child>, j: nat, pc: ChunkKey, m: int, k: ChunkKey)
    requires k in SkipEvicted(r, cs, j, pc, m)
    ensures exists i :: j <= i < |cs| && cs[i].chunkKey == Some(k) && Evicts(r, cs[i], pc, m)
    decreases |cs| - j
  {
    if Evicts(r, cs[j], pc, m) && k == cs[j].chunkKey.value {
    } else if Evicts(r, cs[j], pc, m) {
      SkipEvictedCarried(r, cs, j + 2, pc, m, k);
    } else {
      SkipEvictedCarried(r, cs, j + 1, pc, m, k);
    }
  }

  /** A child that is not a far chunk mesh stays in the scene. */
  lemma {:induction false} SkipKeepsNear(r: Rules, cs: seq<Child>, j: nat, pc: ChunkKey, m: int, i: int)
    requires j <= i < |cs| && !Evicts(r, cs[i], pc, m)
    ensures cs[i] in SkipKept(r, cs, j, pc, m)
    decreases |cs| - j
  {
    if i == j {
    } else if Evicts(r, cs[j], pc, m) {
      if i > j + 1 {
        SkipKeepsNear(r, cs, j + 2, pc, m, i);
      }
    } else {
      SkipKeepsNear(r, cs, j + 1, pc, m, i);
    }
  }

  /** One visit of the eviction pass at index j of the original children: what it keeps and drops. */
  lemma SkipStep(r: Rules, cs: seq<Child>, pc: ChunkKey, m: int, kept: seq<Child>, dropped: set<ChunkKey>,
                 j: nat, done: seq<Child>, gone: set<ChunkKey>, j': nat, done': seq<Child>, gone': set<ChunkKey>)
    requires j < |cs|
    requires done + SkipKept(r, cs, j, pc, m) == kept
    requires dropped == gone + SkipEvicted(r, cs, j, pc, m)
    requires if Evicts(r, cs[j], pc, m)
      then j' == j + 2 && gone' == gone + {cs[j].chunkKey.value} && done' == done + (if j + 1 < |cs| then [cs[j + 1]] else [])
      else j' == j + 1 && gone' == gone && done' == done + [cs[j]]
    ensures done' + SkipKept(r, cs, j', pc, m) == kept
    ensures dropped == gone' + SkipEvicted(r, cs, j', pc, m)
  {
    if Evicts(r, cs[j], pc, m) {
      var next := if j + 1 < |cs| then [cs[j + 1]] else [];
      assert SkipKept(r, cs, j, pc, m) == next + SkipKept(r, cs, j + 2, pc, m);
      assert done + (next + SkipKept(r, cs, j + 2, pc, m)) == (done + next) + SkipKept(r, cs, j + 2, pc, m);
    } else {
      assert SkipKept(r, cs, j, pc, m) == [cs[j]] + SkipKept(r, cs, j + 1, pc, m);
      assert done + ([cs[j]] + SkipKept(r, cs, j + 1, pc, m)) == (done + [cs[j]]) + SkipKept(r, cs, j + 1, pc, m);
    }
  }

  /** Before a visit, the child at the visited slot is child j of the original children. */
  lemma KidsAt(cs: seq<Child>, kids: seq<Child>, done: seq<Child>, i: nat, j: nat)
    requires j < |cs| && |done| == i && kids == done + cs[j..]
    ensures i < |kids| && kids[i] == cs[j]
  {
  }

  /** One visit as seen in the array the pass walks: the removal splices out slot i. */
  lemma KidsStep(cs: seq<Child>, evict: bool, i: nat, j: nat, kids: seq<Child>, done: seq<Child>,
                 j': nat, kids': seq<Child>, done': seq<Child>)
    requires j < |cs| && |done| == i && kids == done + cs[j..]
    requires if evict
      then kids' == kids[..i] + kids[i + 1..] && j' == j + 2 && done' == done + (if j + 1 < |cs| then [cs[j + 1]] else [])
      else kids' == kids && j' == j + 1 && done' == done + [cs[j]]
    ensures kids' == done' + (if j' <= |cs| then cs[j'..] else [])
    ensures j' < |cs| ==> |done'| == i + 1
    ensures j' >= |cs| ==> i + 1 >= |kids'|
  {
    if evict {
      assert kids[..i] == done;
      assert kids[i + 1..] == cs[j + 1..];
      if j + 1 < |cs| {
        assert cs[j + 1..] == [cs[j + 1]] + cs[j + 2..];
      }
    } else {
      assert cs[j..] == [cs[j]] + cs[j + 1..];
    }
  }

  /**
   * The eviction loop of `updateChunks` as written: `forEach` over
   * `scene.children` (its length fixed when the walk starts, indices past
   * the current end skipped), removing each far chunk mesh from the array it
   * walks and its key from the loaded set. The children left are returned.
   */
  method EvictFar(w: World, r: Rules, children: seq<Child>, pc: ChunkKey, m: int) returns (rest: seq<Child>)
    modifies w
    ensures w.Data() == old(w.Data()).(loaded := old(w.loaded) - SkipEvicted(r, children, 0, pc, m))
    ensures rest == SkipKept(r, children, 0, pc, m)
  {
    var kids := children;
    var n := |kids|;
    var i := 0;
    ghost var j := 0;
    ghost var done: seq<Child> := [];
    ghost var gone: set<ChunkKey> := {};
    while i < n
      invariant 0 <= i <= n && j <= |children| + 1 && |kids| <= n
      invariant kids == done + (if j <= |children| then children[j..] else [])
      invariant j < |children| ==> |done| == i
      invariant j >= |children| ==> i >= |kids|
      invariant done + SkipKept(r, children, j, pc, m) == SkipKept(r, children, 0, pc, m)
      invariant SkipEvicted(r, children, 0, pc, m) == gone + SkipEvicted(r, children, j, pc, m)
      invariant w.Data() == old(w.Data()).(loaded := old(w.loaded) - gone)
    {
      if i < |kids| {
        KidsAt(children, kids, done, i, j);
        var child := kids[i];
        ghost var j0, done0, gone0, kids0 := j, done, gone, kids;
        if Evicts(r, child, pc, m) {
          kids := kids[..i] + kids[i + 1..];
          w.loaded := w.loaded - {child.chunkKey.value};
          gone := gone + {child.chunkKey.value};
          done := done + (if j + 1 < |children| then [children[j + 1]] else []);
          j := j + 2;
        } else {
          done := done + [child];
          j := j + 1;
        }
        KidsStep(children, Evicts(r, child, pc, m), i, j0, kids0, done0, j, kids, done);
        SkipStep(r, children, pc, m, SkipKept(r, children, 0, pc, m), SkipEvicted(r, children, 0, pc, m),
          j0, done0, gone0, j, done, gone);
      }
      i := i + 1;
    }
    assert j >= |children|;
    assert SkipKept(r, children, j, pc, m) == [] && SkipEvicted(r, children, j, pc, m) == {};
    rest := kids;
  }

  /** The keys of every far chunk mesh among the children, as the pass evidently means to drop. */
  function AllEvicted(r: Rules, cs: seq<Child>, pc: ChunkKey, m: int): set<ChunkKey>
  {
    if cs == [] then {}
    else
      var c := cs[|cs| - 1];
      AllEvicted(r, cs[..|cs| - 1], pc, m) + (if Evicts(r, c, pc, m) then {c.chunkKey.value} else {})
  }

  /** The children that are not far chunk meshes, in order. */
  function NearChildren(r: Rules, cs: seq<Child>, pc: ChunkKey, m: int): seq<Child>
  {
    if cs == [] then []
    else
      var c := cs[|cs| - 1];
      NearChildren(r, cs[..|cs| - 1], pc, m) + (if Evicts(r, c, pc, m) then [] else [c])
  }

  /** AllEvicted holds exactly the keys of far chunk meshes. */
  lemma {:induction false} AllEvictedMembers(r: Rules, cs: seq<Child>, pc: ChunkKey, m: int, k: ChunkKey)
    ensures k in AllEvicted(r, cs, pc, m) <==> CarriedFar(r, cs, k, pc, m)
  {
    if cs != [] {
      var init := cs[..|cs| - 1];
      AllEvictedMembers(r, init, pc, m, k);
      if CarriedFar(r, init, k, pc, m) {
        var i :| 0 <= i < |init| && init[i].chunkKey == Some(k) && Evicts(r, init[i], pc, m);
        assert cs[i] == init[i];
      }
      if CarriedFar(r, cs, k, pc, m) {
        var i :| 0 <= i < |cs| && cs[i].chunkKey == Some(k) && Evicts(r, cs[i], pc, m);
        if i < |init| {
          assert init[i] == cs[i];
        }
      }
    }
  }

  /** NearChildren keeps exactly the children that are not far chunk meshes. */
  lemma {:induction false} NearChildrenMembers(r: Rules, cs: seq<Child>, pc: ChunkKey, m: int, c: Child)
    ensures c in NearChildren(r, cs, pc, m) <==> c in cs && !Evicts(r, c, pc, m)
  {
    if cs != [] {
      var init := cs[..|cs| - 1];
      NearChildrenMembers(r, init, pc, m, c);
      assert cs == init + [cs[|cs| - 1]];
    }
  }

  /**
   * The pass with every child visited, as over a copy of the children:
   * every far chunk mesh leaves the scene and its key the loaded set.
   */
  method EvictAllFar(w: World, r: Rules, children: seq<Child>, pc: ChunkKey, m: int) returns (rest: seq<Child>)
    modifies w
    ensures w.Data() == old(w.Data()).(loaded := old(w.loaded) - AllEvicted(r, children, pc, m))
    ensures rest == NearChildren(r, children, pc, m)
  {
    rest := [];
    var i := 0;
    while i < |children|
      invariant 0 <= i <= |children|
      invariant rest == NearChildren(r, children[..i], pc, m)
      invariant w.Data() == old(w.Data()).(loaded := old(w.loaded) - AllEvicted(r, children[..i], pc, m))
    {
      var child := children[i];
      assert children[..i + 1][..i] == children[..i];
      if Evicts(r, child, pc, m) {
        w.loaded := w.loaded - {child.chunkKey.value};
      } else {
        rest := rest + [child];
      }
      i := i + 1;
    }
    assert children[..i] == children;
  }

  /** The pass as written drops a subset of what the corrected pass drops. */
  lemma SkipEvictedWithinAll(r: Rules, cs: seq<Child>, pc: ChunkKey, m: int)
    ensures SkipEvicted(r, cs, 0, pc, m) <= AllEvicted(r, cs, pc, m)
  {
    forall k | k in SkipEvicted(r, cs, 0, pc, m)
      ensures k in AllEvicted(r, cs, pc, m)
    {
      SkipEvictedCarried(r, cs, 0, pc, m, k);
      AllEvictedMembers(r, cs, pc, m, k);
    }
  }

  /**
   * Two far chunks whose meshes stand next to each other in the scene: the
   * pass as written removes the first and never looks at the second, so
   * chunk (6, 0) stays loaded and its mesh stays in the scene, while the
   * corrected pass drops both.
   */
  lemma EvictSkipsNext()
    ensures var cs := [Child(Some(ChunkKey(5, 0)), true), Child(Some(ChunkKey(6, 0)), true)];
      SkipEvicted(T3Rules, cs, 0, ChunkKey(0, 0), 1) == {ChunkKey(5, 0)} &&
      SkipKept(T3Rules, cs, 0, ChunkKey(0, 0), 1) == [cs[1]] &&
      AllEvicted(T3Rules, cs, ChunkKey(0, 0), 1) == {ChunkKey(5, 0), ChunkKey(6, 0)}
  {
    var cs := [Child(Some(ChunkKey(5, 0)), true), Child(Some(ChunkKey(6, 0)), true)];
    assert cs[..1] == [cs[0]];
    assert cs[..1][..0] == [];
  }

  /**
   * The tables after `updateChunks`: the disc is generated in loop order,
   * then the eviction pass drops the keys it reaches among the scene's
   * children.
   */
  function UpdateResult(r: Rules, t: Tables, v: View, x: real, z: real, children: seq<Child>, noise: Noise): Tables
  {
    if Skipped(r, v) then t
    else
      var pc := ChunkUnder(r, x, z);
      var rad := LoadRadius(r, v);
      Updated(r, t, pc, rad, children, noise)
  }

  /** `updateChunks()`; the scene's children after the call are returned. */
  method UpdateChunks(w: World, r: Rules, v: View, x: real, z: real, children: seq<Child>, noise: Noise) returns (rest: seq<Child>)
    modifies w
    ensures w.Data() == UpdateResult(r, old(w.Data()), v, x, z, children, noise)
    ensures rest == if Skipped(r, v) then children else SkipKept(r, children, 0, ChunkUnder(r, x, z), LoadRadius(r, v) + 1)
  {
    rest := children;
    if !v.hasModel {
      return;
    }
    if r.T3Rules? && (!v.fogEnabled || v.orbital) {
      return;
    }
    var pc := ChunkUnder(r, x, z);
    var rad := LoadRadius(r, v);
    LoadDisc(w, r, pc, rad, noise);
    rest := EvictFar(w, r, children, pc, rad + 1);
  }

  /** The two loading loops of `updateChunks`. */
  method LoadDisc(w: World, r: Rules, pc: ChunkKey, rad: int, noise: Noise)
    modifies w
    ensures w.Data() == ApplyChunksBy(r, old(w.Data()), LoadOrder(pc, rad), noise)
  {
    var dx := -rad;
    while dx <= rad
      invariant -rad <= dx && (if rad < 0 then dx == -rad else dx <= rad + 1)
      invariant w.Data() == ApplyChunksBy(r, old(w.Data()), DiscRows(pc, rad, dx + rad), noise)
    {
      LoadDiscRow(w, r, pc, rad, dx, noise, old(w.Data()));
      dx := dx + 1;
    }
    assert dx + rad == Width(rad);
  }

  /** The inner loop of `updateChunks`: the disc chunks of row dx. */
  method LoadDiscRow(w: World, r: Rules, pc: ChunkKey, rad: int, dx: int, noise: Noise, ghost t0: Tables)
    requires -rad <= dx <= rad
    requires w.Data() == ApplyChunksBy(r, t0, DiscRows(pc, rad, dx + rad), noise)
    modifies w
    ensures w.Data() == ApplyChunksBy(r, t0, DiscRows(pc, rad, dx + rad + 1), noise)
  {
    ghost var prefix := DiscRows(pc, rad, dx + rad);
    var dz := -rad;
    assert prefix + DiscRow(pc, rad, dx, 0) == prefix;
    while dz <= rad
      invariant -rad <= dz <= rad + 1
      invariant w.Data() == ApplyChunksBy(r, t0, prefix + DiscRow(pc, rad, dx, dz + rad), noise)
    {
      ghost var before := w.Data();
      if InDisc(dx, dz, rad) {
        GenerateChunkBy(w, r, ChunkKey(pc.cx + dx, pc.cz + dz), noise);
      }
      DiscRowStep(r, t0, prefix, pc, rad, dx, dz, noise, before, w.Data());
      dz := dz + 1;
    }
    assert dz + rad == Width(rad);
    assert DiscRows(pc, rad, dx + rad + 1) == prefix + DiscRow(pc, rad, dx, dz + rad);
  }

  /** One step of the inner loop: the next offset dz adds its chunk when it lies in the disc. */
  lemma DiscRowStep(r: Rules, t0: Tables, prefix: seq<ChunkKey>, pc: ChunkKey, rad: int, dx: int, dz: int, noise: Noise, before: Tables, after: Tables)
    requires -rad <= dz <= rad
    requires before == ApplyChunksBy(r, t0, prefix + DiscRow(pc, rad, dx, dz + rad), noise)
    requires after == if InDisc(dx, dz, rad) then ApplyChunkBy(r, before, ChunkKey(pc.cx + dx, pc.cz + dz), noise) else before
    ensures after == ApplyChunksBy(r, t0, prefix + DiscRow(pc, rad, dx, dz + rad + 1), noise)
  {
    var done := prefix + DiscRow(pc, rad, dx, dz + rad);
    if InDisc(dx, dz, rad) {
      var k := ChunkKey(pc.cx + dx, pc.cz + dz);
      ApplyChunksByAppend(r, t0, done, k, noise);
      assert done + [k] == prefix + DiscRow(pc, rad, dx, dz + rad + 1);
    } else {
      assert done == prefix + DiscRow(pc, rad, dx, dz + rad + 1);
    }
  }

  /**
   * What `updateChunks` guarantees when it runs: every chunk of the disc
   * around the player's chunk is loaded afterwards; a chunk becomes loaded
   * only if it is in the disc; a chunk stops being loaded only if a mesh
   * carries its key and it lies farther than rad + 1; and no cell, type or
   * column height outside the disc's chunks changes.
   */
  lemma UpdateEffect(r: Rules, t: Tables, v: View, x: real, z: real, children: seq<Child>, noise: Noise)
    requires !Skipped(r, v)
    ensures UpdateKeeps(r, t, UpdateResult(r, t, v, x, z, children, noise), ChunkUnder(r, x, z), LoadRadius(r, v), children)
  {
    UpdatedEffect(r, t, ChunkUnder(r, x, z), LoadRadius(r, v), children, noise);
  }

  /**
   * The guarantees of one update from t to u around chunk pc with radius
   * rad: every chunk of the disc is loaded; a chunk becomes loaded only if
   * it is in the disc; a chunk stops being loaded only if a chunk mesh of
   * the scene carries its key and it lies farther than rad + 1; and no
   * cell, type or column height outside the disc's chunks changes.
   */
  ghost predicate UpdateKeeps(r: Rules, t: Tables, u: Tables, pc: ChunkKey, rad: int, children: seq<Child>)
  {
    (forall k: ChunkKey :: InDisc(k.cx - pc.cx, k.cz - pc.cz, rad) ==> k in u.loaded) &&
    (forall k: ChunkKey | k in u.loaded :: k in t.loaded || InDisc(k.cx - pc.cx, k.cz - pc.cz, rad)) &&
    (forall k: ChunkKey | k in t.loaded && k !in u.loaded :: CarriedFar(r, children, k, pc, rad + 1)) &&
    SameOutside(r, t, u, set k | k in LoadOrder(pc, rad))
  }

  /** The tables after a disc of radius rad around pc is generated and the eviction pass drops the far keys it reaches. */
  function Updated(r: Rules, t: Tables, pc: ChunkKey, rad: int, children: seq<Child>, noise: Noise): Tables
  {
    var u := ApplyChunksBy(r, t, LoadOrder(pc, rad), noise);
    u.(loaded := u.loaded - SkipEvicted(r, children, 0, pc, rad + 1))
  }

  lemma UpdatedEffect(r: Rules, t: Tables, pc: ChunkKey, rad: int, children: seq<Child>, noise: Noise)
    ensures UpdateKeeps(r, t, Updated(r, t, pc, rad, children, noise), pc, rad, children)
  {
    var order := LoadOrder(pc, rad);
    var u0 := ApplyChunksBy(r, t, order, noise);
    var u := Updated(r, t, pc, rad, children, noise);
    ChunksByEffect(r, t, order, noise);
    UpdateLoaded(r, t, u0, u, pc, rad, order, children);
    SameOutsideIgnoresLoaded(r, t, u0, u, set k | k in order);
  }

  /** Only cells, types and heights count for SameOutside, not the loaded set. */
  lemma SameOutsideIgnoresLoaded(r: Rules, t: Tables, u0: Tables, u: Tables, ks: set<ChunkKey>)
    requires SameOutside(r, t, u0, ks)
    requires u.occupied == u0.occupied && u.types == u0.types && u.heights == u0.heights
    ensures SameOutside(r, t, u, ks)
  {
  }

  /** The loaded set after the disc is generated and the eviction pass runs. */
  lemma UpdateLoaded(r: Rules, t: Tables, u0: Tables, u: Tables, pc: ChunkKey, rad: int, order: seq<ChunkKey>, children: seq<Child>)
    requires order == LoadOrder(pc, rad)
    requires u0.loaded == t.loaded + set k | k in order
    requires u.loaded == u0.loaded - SkipEvicted(r, children, 0, pc, rad + 1)
    ensures forall k: ChunkKey :: InDisc(k.cx - pc.cx, k.cz - pc.cz, rad) ==> k in u.loaded
    ensures forall k: ChunkKey | k in u.loaded :: k in t.loaded || InDisc(k.cx - pc.cx, k.cz - pc.cz, rad)
    ensures forall k: ChunkKey | k in t.loaded && k !in u.loaded :: CarriedFar(r, children, k, pc, rad + 1)
  {
    forall k: ChunkKey ensures k in order <==> InDisc(k.cx - pc.cx, k.cz - pc.cz, rad) {
      LoadOrderMembers(pc, rad, k);
    }
    forall k: ChunkKey | k in SkipEvicted(r, children, 0, pc, rad + 1)
      ensures CarriedFar(r, children, k, pc, rad + 1) && !InDisc(k.cx - pc.cx, k.cz - pc.cz, rad)
    {
      SkipEvictedCarried(r, children, 0, pc, rad + 1, k);
      if InDisc(k.cx - pc.cx, k.cz - pc.cz, rad) {
        DiscNotFar(k.cx - pc.cx, k.cz - pc.cz, rad);
      }
    }
  }

  // ---------------------------------------------------------------------
  // The full-map sweep of `loadEntireMapWithProgress`.

  /** `Math.ceil(planeSize / CHUNK_SIZE / 2)`. */
  const SWEEP_HALF: int := 21
  /** Chunks generated per frame by the batch loop. */
  const SWEEP_BATCH: int := 128
  /** Chunks per row as the sweep actually visits them: cz = -21 .. 22. */
  const SWEEP_ROW: int := 44
  /** Chunks per row of the intended square: cz = -21 .. 21. */
  const SQUARE_ROW: int := 43

  lemma SweepHalfValue()
    ensures Ceil(PLANE_SIZE as real / CHUNK_SIZE as real / 2.0) == SWEEP_HALF
  {
  }

  /** The order in which the sweep as written generates chunks. */
  function SweepOrder(): (s: seq<ChunkKey>)
    ensures |s| == SQUARE_ROW * SWEEP_ROW
  {
    seq(SQUARE_ROW * SWEEP_ROW, i requires 0 <= i => ChunkKey(-SWEEP_HALF + i / SWEEP_ROW, -SWEEP_HALF + i % SWEEP_ROW))
  }

  /** How many chunks of the sweep as written come before (cx, cz). */
  function SweepIndex(cx: int, cz: int): int
  {
    (cx + SWEEP_HALF) * SWEEP_ROW + (cz + SWEEP_HALF)
  }

  lemma SweepAt(cx: int, cz: int)
    requires -SWEEP_HALF <= cx <= SWEEP_HALF && -SWEEP_HALF <= cz <= SWEEP_HALF + 1
    ensures 0 <= SweepIndex(cx, cz) < |SweepOrder()|
    ensures SweepOrder()[SweepIndex(cx, cz)] == ChunkKey(cx, cz)
  {
  }

  /** Generates the chunk at (cx, cz), the next one in `order`. */
  method SweepStep(w: World, cx: int, cz: int, noise: Noise, ghost t0: Tables, ghost order: seq<ChunkKey>, ghost n: nat)
    requires n < |order| && order[n] == ChunkKey(cx, cz)
    requires w.Data() == ApplyChunksBy(T3Rules, t0, order[..n], noise)
    modifies w
    ensures w.Data() == ApplyChunksBy(T3Rules, t0, order[..n + 1], noise)
  {
    ApplyChunksBySnoc(T3Rules, t0, order, n, noise);
    GenerateChunk(w, ChunkKey(cx, cz), noise);
  }

  /**
   * `loadEntireMapWithProgress`, one iteration per animation frame: one
   * chunk generated (wrapping the row when it runs past the edge), then up
   * to 128 more of the same row, which do not wrap.
   */
  method LoadEntireMap(w: World, noise: Noise)
    modifies w
    ensures w.Data() == ApplyChunksBy(T3Rules, old(w.Data()), SweepOrder(), noise)
  {
    ghost var t0 := w.Data();
    ghost var order := SweepOrder();
    ghost var n := 0;
    var cx := -SWEEP_HALF;
    var cz := -SWEEP_HALF;
    while cx <= SWEEP_HALF
      invariant -SWEEP_HALF <= cx <= SWEEP_HALF + 1
      invariant (cx == -SWEEP_HALF && cz == -SWEEP_HALF) || (cx <= SWEEP_HALF && cz == SWEEP_HALF + 1) ||
                (cx == SWEEP_HALF + 1 && cz == -SWEEP_HALF)
      invariant n == SweepIndex(cx, cz)
      invariant w.Data() == ApplyChunksBy(T3Rules, t0, order[..n], noise)
      decreases 2 * (SWEEP_HALF + 1 - cx) + (if cz == SWEEP_HALF + 1 then 0 else 1)
    {
      SweepAt(cx, cz);
      SweepStep(w, cx, cz, noise, t0, order, n);
      n := n + 1;
      cz := cz + 1;
      if cz > SWEEP_HALF {
        cz := -SWEEP_HALF;
        cx := cx + 1;
      }
      ghost var cz1 := cz;
      var i := 0;
      while i < SWEEP_BATCH && cx <= SWEEP_HALF
        invariant 0 <= i <= SWEEP_BATCH
        invariant -SWEEP_HALF <= cx <= SWEEP_HALF + 1
        invariant cx == SWEEP_HALF + 1 ==> i == 0 && cz == -SWEEP_HALF
        invariant -SWEEP_HALF <= cz1 <= SWEEP_HALF && cz == Min(cz1 + i, SWEEP_HALF + 1)
        invariant n == SweepIndex(cx, cz)
        invariant w.Data() == ApplyChunksBy(T3Rules, t0, order[..n], noise)
      {
        if cz <= SWEEP_HALF {
          SweepAt(cx, cz);
          SweepStep(w, cx, cz, noise, t0, order, n);
          n := n + 1;
          cz := cz + 1;
        }
        i := i + 1;
      }
    }
    assert order[..n] == order;
  }

  /**
   * The sweep as written covers the rows cz = -21 .. 22: one more row than
   * the 43 × 43 square its progress total counts. Chunk row 22 starts at
   * z = 132, beyond the plane's edge at 125.
   */
  lemma SweepCovers(k: ChunkKey)
    ensures k in SweepOrder() <==> -SWEEP_HALF <= k.cx <= SWEEP_HALF && -SWEEP_HALF <= k.cz <= SWEEP_HALF + 1
    ensures ChunkKey(0, SWEEP_HALF + 1) in SweepOrder()
    ensures |SweepOrder()| == (2 * SWEEP_HALF + 1) * (2 * SWEEP_HALF + 1) + (2 * SWEEP_HALF + 1)
    ensures (SWEEP_HALF + 1) * CHUNK_SIZE > PLANE_SIZE / 2
  {
    if -SWEEP_HALF <= k.cx <= SWEEP_HALF && -SWEEP_HALF <= k.cz <= SWEEP_HALF + 1 {
      SweepAt(k.cx, k.cz);
    }
    SweepAt(0, SWEEP_HALF + 1);
  }

  /** The intended order: the 43 × 43 square, row by row. */
  function SquareOrder(): (s: seq<ChunkKey>)
    ensures |s| == SQUARE_ROW * SQUARE_ROW
  {
    seq(SQUARE_ROW * SQUARE_ROW, i requires 0 <= i => ChunkKey(-SWEEP_HALF + i / SQUARE_ROW, -SWEEP_HALF + i % SQUARE_ROW))
  }

  function SquareIndex(cx: int, cz: int): int
  {
    (cx + SWEEP_HALF) * SQUARE_ROW + (cz + SWEEP_HALF)
  }

  lemma SquareAt(cx: int, cz: int)
    requires -SWEEP_HALF <= cx <= SWEEP_HALF && -SWEEP_HALF <= cz <= SWEEP_HALF
    ensures 0 <= SquareIndex(cx, cz) < |SquareOrder()|
    ensures SquareOrder()[SquareIndex(cx, cz)] == ChunkKey(cx, cz)
  {
  }

  /** Advances the sweep cursor by one chunk, wrapping at the end of a row. */
  method NextCell(cx: int, cz: int) returns (cx': int, cz': int)
    requires -SWEEP_HALF <= cz <= SWEEP_HALF
    ensures -SWEEP_HALF <= cz' <= SWEEP_HALF
    ensures SquareIndex(cx', cz') == SquareIndex(cx, cz) + 1
    ensures cx' == cx || (cx' == cx + 1 && cz' == -SWEEP_HALF)
  {
    cx', cz' := cx, cz + 1;
    if cz' > SWEEP_HALF {
      cz' := -SWEEP_HALF;
      cx' := cx + 1;
    }
  }

  /**
   * The sweep with the row wrap applied in the batch loop as well: it
   * generates exactly the square the progress total counts.
   */
  method LoadEntireMapSquare(w: World, noise: Noise)
    modifies w
    ensures w.Data() == ApplyChunksBy(T3Rules, old(w.Data()), SquareOrder(), noise)
  {
    ghost var t0 := w.Data();
    ghost var order := SquareOrder();
    ghost var n := 0;
    var cx := -SWEEP_HALF;
    var cz := -SWEEP_HALF;
    while cx <= SWEEP_HALF
      invariant -SWEEP_HALF <= cx <= SWEEP_HALF + 1 && -SWEEP_HALF <= cz <= SWEEP_HALF
      invariant cx == SWEEP_HALF + 1 ==> cz == -SWEEP_HALF
      invariant n == SquareIndex(cx, cz)
      invariant w.Data() == ApplyChunksBy(T3Rules, t0, order[..n], noise)
      decreases |order| - n
    {
      SquareAt(cx, cz);
      SweepStep(w, cx, cz, noise, t0, order, n);
      n := n + 1;
      ghost var n0 := n;
      cx, cz := NextCell(cx, cz);
      var i := 0;
      while i < SWEEP_BATCH && cx <= SWEEP_HALF
        invariant 0 <= i <= SWEEP_BATCH
        invariant -SWEEP_HALF <= cx <= SWEEP_HALF + 1 && -SWEEP_HALF <= cz <= SWEEP_HALF
        invariant cx == SWEEP_HALF + 1 ==> cz == -SWEEP_HALF
        invariant n >= n0 && n == SquareIndex(cx, cz)
        invariant w.Data() == ApplyChunksBy(T3Rules, t0, order[..n], noise)
      {
        SquareAt(cx, cz);
        SweepStep(w, cx, cz, noise, t0, order, n);
        n := n + 1;
        cx, cz := NextCell(cx, cz);
        i := i + 1;
      }
    }
    assert order[..n] == order;
  }

  /** The corrected sweep covers exactly the square [-21, 21] × [-21, 21], each chunk once. */
  lemma SquareCovers(k: ChunkKey)
    ensures k in SquareOrder() <==> -SWEEP_HALF <= k.cx <= SWEEP_HALF && -SWEEP_HALF <= k.cz <= SWEEP_HALF
    ensures |SquareOrder()| == (2 * SWEEP_HALF + 1) * (2 * SWEEP_HALF + 1)
    ensures forall i, j | 0 <= i < j < |SquareOrder()| :: SquareOrder()[i] != SquareOrder()[j]
  {
    if -SWEEP_HALF <= k.cx <= SWEEP_HALF && -SWEEP_HALF <= k.cz <= SWEEP_HALF {
      SquareAt(k.cx, k.cz);
    }
  }
}
