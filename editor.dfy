/**
 * The block editor of T3/execution_part3.js: `addBlock`, `removeBlock` and
 * the swap-with-last removal from an instanced block batch.
 */
module Editor {
  import opened Voxel
  import opened Store
  import opened Terrain
  import opened Chunks
  import opened Physics

  // ---------------------------------------------------------------------
  // addBlock

  /**
   * What the renderer answers while a block is added: whether the chunk
   * already holds a mesh for the selected type, and whether creating the
   * new mesh (or the torch) succeeds.
   */
  datatype Render = Render(meshExists: bool, made: bool)

  /**
   * The placed block's box [x ± 0.5] × [y, y + 1] × [z ± 0.5] meets the
   * player's box, feet at (px, py, pz), [px ± 0.3] × [py, py + 1.6] × [pz ± 0.3].
   */
  predicate BlocksPlayer(p: Pos, px: real, py: real, pz: real)
  {
    Overlap(p.x as real - 0.5, p.x as real + 0.5, px - PLAYER_HALF_WIDTH, px + PLAYER_HALF_WIDTH) &&
    Overlap(p.y as real, p.y as real + 1.0, py, py + PLAYER_HEIGHT) &&
    Overlap(p.z as real - 0.5, p.z as real + 0.5, pz - PLAYER_HALF_WIDTH, pz + PLAYER_HALF_WIDTH)
  }

  /** Block b written at p, its column raised to at least p.y + 1. */
  function Place(t: Tables, p: Pos, b: BlockType): Tables
  {
    t.(occupied := t.occupied + {p},
       types := t.types[p := b],
       heights := t.heights[Col(p.x, p.z) := Max(Height(t.heights, p.x, p.z), p.y + 1)])
  }

  /** The chunk containing cell p. */
  function ChunkOfCell(p: Pos): ChunkKey
  {
    ChunkOf(p.x, p.z, CHUNK_SIZE)
  }

  /** The tables after `addBlock(p)` with block type b selected and the player's feet at (px, py, pz). */
  function AddResult(t: Tables, p: Pos, b: BlockType, px: real, py: real, pz: real, rd: Render, noise: Noise): Tables
  {
    if b == Torch then
      if p !in t.occupied && rd.made then
        t.(occupied := t.occupied + {p}, types := t.types[p := Torch], loaded := t.loaded + {ChunkOfCell(p)})
      else t
    else
      var g := ApplyChunk(t, ChunkOfCell(p), noise);
      if BlocksPlayer(p, px, py, pz) then g
      else if rd.meshExists && p in g.occupied then g
      else if rd.made then Place(g, p, b)
      else g
  }

  method PlaceBlock(w: World, p: Pos, b: BlockType)
    modifies w
    ensures w.Data() == Place(old(w.Data()), p, b)
  {
    var column := Col(p.x, p.z);
    var h := if column in w.heights then w.heights[column] else 0;
    w.occupied := w.occupied + {p};
    w.types := w.types[p := b];
    w.heights := w.heights[column := Max(h, p.y + 1)];
  }

  /** `addBlock(position)`. */
  method AddBlock(w: World, p: Pos, b: BlockType, px: real, py: real, pz: real, rd: Render, noise: Noise)
    modifies w
    ensures w.Data() == AddResult(old(w.Data()), p, b, px, py, pz, rd, noise)
  {
    if b == Torch {
      if p !in w.occupied && rd.made {
        // createTorch registers the torch with its chunk and marks that chunk loaded
        w.loaded := w.loaded + {ChunkOfCell(p)};
        w.occupied := w.occupied + {p};
        w.types := w.types[p := Torch];
      }
      return;
    }
    GenerateChunk(w, ChunkOfCell(p), noise);
    if BlocksPlayer(p, px, py, pz) {
      return;
    }
    if !rd.meshExists {
      if rd.made {
        PlaceBlock(w, p, b);
      }
      return;
    }
    if p in w.occupied {
      return;
    }
    if rd.made {
      PlaceBlock(w, p, b);
    }
  }

  /**
   * What `addBlock` guarantees. A non-torch block first loads its chunk
   * and nothing else; a created torch marks its own chunk loaded without
   * generating it. Then only cell p and its column may change. A newly
   * placed block never overlaps the player, and it carries the selected
   * type. An occupied target is refused when a mesh of the type exists. A
   * non-torch block never lowers a column. A torch never changes a height.
   */
  lemma AddBlockEffect(t: Tables, p: Pos, b: BlockType, px: real, py: real, pz: real, rd: Render, noise: Noise)
    ensures var u := AddResult(t, p, b, px, py, pz, rd, noise);
      var g := if b == Torch then t else ApplyChunk(t, ChunkOfCell(p), noise);
      (b != Torch ==> u.loaded == g.loaded == t.loaded + {ChunkOfCell(p)}) &&
      (b == Torch ==> u.loaded == t.loaded + (if p !in t.occupied && rd.made then {ChunkOfCell(p)} else {})) &&
      (forall q | q != p :: (q in u.occupied <==> q in g.occupied) && (q in u.types <==> q in g.types) &&
        (q in g.types ==> u.types[q] == g.types[q])) &&
      (forall c | c != Col(p.x, p.z) :: (c in u.heights <==> c in g.heights) && (c in g.heights ==> u.heights[c] == g.heights[c])) &&
      (p in u.occupied && p !in g.occupied ==> u.types[p] == b && (b == Torch || !BlocksPlayer(p, px, py, pz))) &&
      (b != Torch && rd.meshExists && p in g.occupied ==> u == g) &&
      (b != Torch ==> Height(u.heights, p.x, p.z) >= Height(g.heights, p.x, p.z)) &&
      (b == Torch ==> u.heights == t.heights)
  {
    if b != Torch {
      GenerateChunkIdempotent(t, ChunkOfCell(p), noise);
      GenerateChunkEffect(t, ChunkOfCell(p), noise);
    }
  }

  /**
   * A non-torch block keeps the column-height invariant of its column,
   * provided it holds once the chunk is loaded and the block is not below
   * ground.
   */
  lemma AddBlockKeepsTop(t: Tables, p: Pos, b: BlockType, px: real, py: real, pz: real, rd: Render, noise: Noise)
    requires b != Torch && p.y >= 0
    requires var g := ApplyChunk(t, ChunkOfCell(p), noise);
      IsTop(g.occupied, p.x, p.z, Height(g.heights, p.x, p.z))
    ensures var u := AddResult(t, p, b, px, py, pz, rd, noise);
      IsTop(u.occupied, p.x, p.z, Height(u.heights, p.x, p.z))
  {
    var g := ApplyChunk(t, ChunkOfCell(p), noise);
    var u := AddResult(t, p, b, px, py, pz, rd, noise);
    if u != g {
      assert u == Place(g, p, b);
      PlaceKeepsTop(g, p, b);
    }
  }

  lemma PlaceKeepsTop(t: Tables, p: Pos, b: BlockType)
    requires p.y >= 0 && IsTop(t.occupied, p.x, p.z, Height(t.heights, p.x, p.z))
    ensures IsTop(Place(t, p, b).occupied, p.x, p.z, Height(Place(t, p, b).heights, p.x, p.z))
  {
    var h := Height(t.heights, p.x, p.z);
    var u := Place(t, p, b);
    assert Height(u.heights, p.x, p.z) == Max(h, p.y + 1);
    if p.y + 1 <= h {
      assert Pos(p.x, h - 1, p.z) in t.occupied;
    }
  }

  // ---------------------------------------------------------------------
  // removeBlock

  /** The kind of object the removal ray hit. */
  datatype Target = TorchGroup | Instanced | BuildingMesh | TreeMesh | OtherMesh
  {
    /** Every kind but an untagged plain mesh deletes the cell. */
    predicate Removes() { !OtherMesh? }
  }

  /**
   * The downward rescan: starting at nh = y0, step down while nh >= 0 and
   * cell nh - 1 of the column is empty.
   */
  function Rescan(occupied: set<Pos>, x: int, z: int, nh: int): int
    decreases if nh < 0 then 0 else nh + 1
  {
    if nh >= 0 && Pos(x, nh - 1, z) !in occupied then Rescan(occupied, x, z, nh - 1) else nh
  }

  /**
   * The rescan's result is one above the highest occupied cell below y0,
   * looking down to y = -1; -1 when none is found there.
   */
  lemma {:induction false} RescanMeaning(occupied: set<Pos>, x: int, z: int, y0: int)
    ensures var r := Rescan(occupied, x, z, y0);
      r <= y0 &&
      (y0 < 0 ==> r == y0) &&
      (y0 >= 0 ==> r >= -1) &&
      (r >= 0 ==> Pos(x, r - 1, z) in occupied) &&
      (forall y | r <= y < y0 :: Pos(x, y, z) !in occupied)
    decreases if y0 < 0 then 0 else y0 + 1
  {
    if y0 >= 0 && Pos(x, y0 - 1, z) !in occupied {
      RescanMeaning(occupied, x, z, y0 - 1);
    }
  }

  /** The `while` loop of the rescan. */
  method RescanColumn(occupied: set<Pos>, x: int, z: int, y0: int) returns (nh: int)
    ensures nh == Rescan(occupied, x, z, y0)
  {
    nh := y0;
    while nh >= 0 && Pos(x, nh - 1, z) !in occupied
      invariant Rescan(occupied, x, z, nh) == Rescan(occupied, x, z, y0)
      decreases nh + 1
    {
      nh := nh - 1;
    }
  }

  /** The deleted cell p was its column's recorded top. */
  predicate WasTop(t: Tables, p: Pos)
  {
    Col(p.x, p.z) in t.heights && t.heights[Col(p.x, p.z)] == p.y + 1
  }

  /**
   * The tables after `removeBlock` hits cell p through an object of the
   * given kind, as the program stores the rescan: `newHeight || 0`, which
   * keeps -1.
   */
  function RemoveResult(t: Tables, p: Pos, target: Target): Tables
  {
    if p in t.types && t.types[p] == Bedrock then t
    else if !target.Removes() then t
    else
      var occupied := t.occupied - {p};
      t.(occupied := occupied,
         types := t.types - {p},
         heights := if WasTop(t, p) then t.heights[Col(p.x, p.z) := Rescan(occupied, p.x, p.z, p.y)] else t.heights)
  }

  /** `removeBlock(highlightedBlock)`. */
  method RemoveBlock(w: World, p: Pos, target: Target)
    modifies w
    ensures w.Data() == RemoveResult(old(w.Data()), p, target)
  {
    if p in w.types && w.types[p] == Bedrock {
      return;
    }
    if !target.Removes() {
      return;
    }
    var column := Col(p.x, p.z);
    var wasTop := column in w.heights && w.heights[column] == p.y + 1;
    w.occupied := w.occupied - {p};
    w.types := w.types - {p};
    if wasTop {
      var nh := RescanColumn(w.occupied, p.x, p.z, p.y);
      w.heights := w.heights[column := nh];
    }
  }

  /**
   * What `removeBlock` guarantees: Bedrock is never removed; otherwise the
   * cell's occupancy and type are gone, and nothing else changes except
   * the cell's own column height, which changes only when the cell was its
   * recorded top.
   */
  lemma RemoveBlockEffect(t: Tables, p: Pos, target: Target)
    ensures var u := RemoveResult(t, p, target);
      u.loaded == t.loaded &&
      (p in t.types && t.types[p] == Bedrock ==> u == t) &&
      (!(p in t.types && t.types[p] == Bedrock) && target.Removes() ==> p !in u.occupied && p !in u.types) &&
      (forall q | q != p :: (q in u.occupied <==> q in t.occupied) && (q in u.types <==> q in t.types) &&
        (q in t.types ==> u.types[q] == t.types[q])) &&
      (forall c | c != Col(p.x, p.z) || !WasTop(t, p) ::
        (c in u.heights <==> c in t.heights) && (c in t.heights ==> u.heights[c] == t.heights[c]))
  {
  }

  /**
   * As written, emptying a column stores height -1 instead of 0: a
   * column whose only cell is a Stone block at y = 0 is left with height
   * -1 once that block is removed, and the column-height invariant no
   * longer holds. Generated columns keep Bedrock or Water at y = 0, which
   * removal refuses or cannot target, so this state is not shown to arise
   * in play.
   */
  lemma RemoveEmptiesToMinusOne()
    ensures var p := Pos(0, 0, 0);
      var t := Tables({p}, map[p := Stone], map[Col(0, 0) := 1], {});
      var u := RemoveResult(t, p, Instanced);
      IsTop(t.occupied, 0, 0, Height(t.heights, 0, 0)) &&
      Height(u.heights, 0, 0) == -1 &&
      !IsTop(u.occupied, 0, 0, Height(u.heights, 0, 0))
  {
    var p := Pos(0, 0, 0);
    var t := Tables({p}, map[p := Stone], map[Col(0, 0) := 1], {});
    assert Rescan({}, 0, 0, 0) == -1 by {
      assert Rescan({}, 0, 0, -1) == -1;
    }
    var u := RemoveResult(t, p, Instanced);
    assert Pos(0, -2, 0) !in u.occupied;
  }

  /**
   * `removeBlock` with the evident intent of `newHeight || 0`: a rescan
   * that finds nothing stores 0.
   */
  function RemoveResultFixed(t: Tables, p: Pos, target: Target): Tables
  {
    if p in t.types && t.types[p] == Bedrock then t
    else if !target.Removes() then t
    else
      var occupied := t.occupied - {p};
      t.(occupied := occupied,
         types := t.types - {p},
         heights := if WasTop(t, p) then t.heights[Col(p.x, p.z) := Max(Rescan(occupied, p.x, p.z, p.y), 0)] else t.heights)
  }

  /**
   * The corrected removal keeps the column-height invariant of the
   * removed cell's column, for columns with no cells below ground.
   */
  lemma RemoveFixedKeepsTop(t: Tables, p: Pos, target: Target)
    requires IsTop(t.occupied, p.x, p.z, Height(t.heights, p.x, p.z))
    requires forall y | y < 0 :: Pos(p.x, y, p.z) !in t.occupied
    ensures var u := RemoveResultFixed(t, p, target);
      IsTop(u.occupied, p.x, p.z, Height(u.heights, p.x, p.z))
  {
    var u := RemoveResultFixed(t, p, target);
    var h := Height(t.heights, p.x, p.z);
    if u != t {
      var occupied := t.occupied - {p};
      if WasTop(t, p) {
        RescanMeaning(occupied, p.x, p.z, p.y);
        var r := Rescan(occupied, p.x, p.z, p.y);
        if r < 0 {
          assert forall y :: Pos(p.x, y, p.z) !in u.occupied by {
            forall y ensures Pos(p.x, y, p.z) !in u.occupied {
              if 0 <= y < p.y {
                assert r <= y < p.y;
              }
            }
          }
        } else {
          assert forall y | Pos(p.x, y, p.z) in u.occupied :: y < r;
        }
      }
    }
  }

  // ---------------------------------------------------------------------
  // Instanced batches

  /**
   * The removed instance's slot receives the last instance, every other
   * slot keeps its instance, and the batch shrinks by one.
   */
  function SwapRemove(s: seq<Pos>, i: nat): (r: seq<Pos>)
    requires i < |s|
    ensures |r| == |s| - 1
    ensures forall j | 0 <= j < |r| && j != i :: r[j] == s[j]
    ensures i < |r| ==> r[i] == s[|s| - 1]
  {
    if i == |s| - 1 then s[..|s| - 1] else s[..|s| - 1][i := s[|s| - 1]]
  }

  /** Swap-removal drops exactly the removed instance: the batch holds the same instances less that one. */
  lemma SwapRemoveContents(s: seq<Pos>, i: nat)
    requires i < |s|
    ensures multiset(SwapRemove(s, i)) == multiset(s) - multiset{s[i]}
  {
    var n := |s| - 1;
    if i < n {
      var a, m, c := s[..i], s[i + 1..n], s[n];
      assert s == a + [s[i]] + m + [c];
      assert SwapRemove(s, i) == a + [c] + m;
      calc {
        multiset(s);
        multiset(a) + multiset{s[i]} + multiset(m) + multiset{c};
        multiset(SwapRemove(s, i)) + multiset{s[i]};
      }
    } else {
      assert s == s[..n] + [s[n]];
    }
  }

  /** An instanced mesh's transform buffer: the first `count` slots are live. */
  class InstanceBatch {
    var slots: array<Pos>
    var count: nat

    ghost predicate Valid()
      reads this
    {
      count <= slots.Length
    }

    function Contents(): seq<Pos>
      reads this, slots
      requires Valid()
    {
      slots[..count]
    }

    constructor (cells: seq<Pos>)
      ensures Valid() && Contents() == cells
    {
      slots := new Pos[|cells|](i requires 0 <= i < |cells| => cells[i]);
      count := |cells|;
    }

    /** Removes instance `id`, moving the last live instance into its slot. */
    method RemoveAt(id: nat)
      requires Valid() && id < count
      modifies this, slots
      ensures Valid() && slots == old(slots)
      ensures Contents() == SwapRemove(old(Contents()), id)
    {
      var last := count - 1;
      if id != last {
        slots[id] := slots[last];
      }
      count := count - 1;
    }
  }
}
