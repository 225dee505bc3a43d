/**
 * Collision and movement (T3/execution_part3.js `isPositionColliding`,
 * `handleMovement`, `isPositionInLoadedChunk`, `isPositionInsideBlock`, and
 * the T2/execution_part2.js variants, which differ only in their constants).
 */
module Physics {
  import opened Wrappers
  import opened Voxel
  import opened Store

  /**
   * The two versions of the rules. What differs between them: the half
   * plane size, how far the collision box reaches above the player's 1.6
   * height, whether Water cells are passable, and the chunk size used by
   * the loaded-chunk test.
   */
  datatype Rules = T3Rules | T2Rules
  {
    const halfPlane: real := if T3Rules? then HALF_PLANE else 100.0
    const boxTop: real := if T3Rules? then 0.5 else 1.4
    const waterPasses: bool := T3Rules?
    const chunkSize: int := if T3Rules? then CHUNK_SIZE else 16
  }

  /** Cells farther than this from the rounded position are not examined. */
  const SCAN_RADIUS: int := 8

  /** `Box3.intersectsBox` along one axis: closed intervals, touching counts. */
  predicate Overlap(aLo: real, aHi: real, bLo: real, bHi: real)
  {
    aLo <= bHi && bLo <= aHi
  }

  /** The player's footprint leaves the square plane. */
  predicate OutsidePlane(r: Rules, x: real, z: real)
  {
    x + PLAYER_HALF_WIDTH > r.halfPlane || x - PLAYER_HALF_WIDTH < -r.halfPlane ||
    z + PLAYER_HALF_WIDTH > r.halfPlane || z - PLAYER_HALF_WIDTH < -r.halfPlane
  }

  /** Cell c stops the player: occupied, and not Water where Water is passable. */
  predicate Solid(t: Tables, r: Rules, c: Pos)
  {
    c in t.occupied && !(r.waterPasses && c in t.types && t.types[c] == Water)
  }

  /**
   * The unit box centred on c meets the player box with feet at (x, y, z):
   * [x ± 0.3] × [y - 0.5, y + 1.6 + boxTop] × [z ± 0.3].
   */
  predicate Touches(r: Rules, c: Pos, x: real, y: real, z: real)
  {
    Overlap(x - PLAYER_HALF_WIDTH, x + PLAYER_HALF_WIDTH, c.x as real - 0.5, c.x as real + 0.5) &&
    Overlap(y - 0.5, y + PLAYER_HEIGHT + r.boxTop, c.y as real - 0.5, c.y as real + 0.5) &&
    Overlap(z - PLAYER_HALF_WIDTH, z + PLAYER_HALF_WIDTH, c.z as real - 0.5, c.z as real + 0.5)
  }

  /** Cell c lies in the scanned cube around the rounded position. */
  predicate InWindow(c: Pos, x: real, y: real, z: real)
  {
    Round(x) - SCAN_RADIUS <= c.x <= Round(x) + SCAN_RADIUS &&
    Round(y) - SCAN_RADIUS <= c.y <= Round(y) + SCAN_RADIUS &&
    Round(z) - SCAN_RADIUS <= c.z <= Round(z) + SCAN_RADIUS
  }

  /**
   * What `isPositionColliding` decides: the player's footprint leaves the
   * plane, or some solid cell's box meets the player box.
   */
  ghost predicate Colliding(t: Tables, r: Rules, x: real, y: real, z: real)
  {
    OutsidePlane(r, x, z) ||
    exists c: Pos :: Solid(t, r, c) && Touches(r, c, x, y, z)
  }

  /**
   * Every cell whose box meets the player box lies within the scanned
   * cube, so scanning only the cube misses nothing.
   */
  lemma TouchingInWindow(r: Rules, c: Pos, x: real, y: real, z: real)
    requires Touches(r, c, x, y, z)
    ensures InWindow(c, x, y, z)
  {
  }

  /** The half-open real interval covered by chunk index q along one axis. */
  predicate InSpan(v: real, size: int, q: int)
  {
    (q * size) as real <= v < ((q + 1) * size) as real
  }

  /**
   * The chunk under (x, z). Computed on integers as floor(floor(x) / size);
   * ChunkUnderSpans shows this is `Math.floor(x / CHUNK_SIZE)`.
   */
  function ChunkUnder(r: Rules, x: real, z: real): ChunkKey
  {
    if r.T3Rules? then ChunkKey(FloorDiv(Floor(x), CHUNK_SIZE), FloorDiv(Floor(z), CHUNK_SIZE))
    else ChunkKey(FloorDiv(Floor(x), 16), FloorDiv(Floor(z), 16))
  }

  /** The square of chunk k holds the point (x, z). */
  predicate Covers(r: Rules, k: ChunkKey, x: real, z: real)
  {
    if r.T3Rules? then InSpan(x, CHUNK_SIZE, k.cx) && InSpan(z, CHUNK_SIZE, k.cz)
    else InSpan(x, 16, k.cx) && InSpan(z, 16, k.cz)
  }

  /** What `isPositionInLoadedChunk` decides: some loaded chunk's square holds the point. */
  ghost predicate InLoadedChunk(t: Tables, r: Rules, x: real, z: real)
  {
    exists k :: k in t.loaded && Covers(r, k, x, z)
  }

  /**
   * `isPositionInLoadedChunk`: looks up the chunk under the point, which is
   * the one chunk whose square holds it.
   */
  method IsInLoadedChunk(w: World, r: Rules, x: real, z: real) returns (b: bool)
    ensures b == InLoadedChunk(w.Data(), r, x, z)
  {
    ChunkUnderSpans(r, x, z);
    b := ChunkUnder(r, x, z) in w.loaded;
  }

  /**
   * The chunk under a point is the one chunk whose square holds it, and its
   * indices are the floors of the real quotients by the chunk size.
   */
  lemma ChunkUnderSpans(r: Rules, x: real, z: real)
    ensures Covers(r, ChunkUnder(r, x, z), x, z)
    ensures forall k :: Covers(r, k, x, z) ==> k == ChunkUnder(r, x, z)
    ensures ChunkUnder(r, x, z) == ChunkKey(Floor(x / r.chunkSize as real), Floor(z / r.chunkSize as real))
  {
    var u := ChunkUnder(r, x, z);
    IntSpan(x, r.chunkSize);
    IntSpan(z, r.chunkSize);
    FloorOfSpan(x, r.chunkSize, u.cx);
    FloorOfSpan(z, r.chunkSize, u.cz);
    forall k | Covers(r, k, x, z) ensures k == u {
      FloorOfSpan(x, r.chunkSize, k.cx);
      FloorOfSpan(z, r.chunkSize, k.cz);
    }
  }

  /** floor(floor(v) / size) covers v. */
  lemma IntSpan(v: real, size: int)
    requires size > 0
    ensures InSpan(v, size, FloorDiv(Floor(v), size))
  {
    var q := FloorDiv(Floor(v), size);
    assert q * size <= Floor(v) < (q + 1) * size;
  }

  /** Multiplying by a positive factor preserves order, and cancelling it does too. */
  lemma MulMonotone(a: real, b: real, s: real)
    requires s > 0.0
    ensures a <= b <==> a * s <= b * s
    ensures a < b <==> a * s < b * s
  {
  }

  /** A chunk index whose span covers v is floor(v / size). */
  lemma FloorOfSpan(v: real, size: int, a: int)
    requires size > 0 && InSpan(v, size, a)
    ensures Floor(v / size as real) == a
  {
    var s := size as real;
    var q := v / s;
    assert q * s == v;
    assert (a * size) as real == a as real * s;
    assert ((a + 1) * size) as real == (a as real + 1.0) * s;
    MulMonotone(a as real, q, s);
    assert a as real * s <= q * s;
    assert a as real <= q;
    MulMonotone(q, a as real + 1.0, s);
    assert q * s < (a as real + 1.0) * s;
    assert q < a as real + 1.0;
  }

  /** The unit cell c contains the point (x, y, z). */
  predicate CellHolds(c: Pos, x: real, y: real, z: real)
  {
    c.x as real <= x < c.x as real + 1.0 &&
    c.y as real <= y < c.y as real + 1.0 &&
    c.z as real <= z < c.z as real + 1.0
  }

  /** `isPositionInsideBlock`: the unit cell containing the point is occupied. */
  function InsideBlock(t: Tables, x: real, y: real, z: real): (b: bool)
    ensures b <==> (exists c :: c in t.occupied && CellHolds(c, x, y, z))
  {
    var c := Pos(Floor(x), Floor(y), Floor(z));
    assert CellHolds(c, x, y, z);
    assert forall d: Pos | CellHolds(d, x, y, z) :: d == c;
    c in t.occupied
  }

  /**
   * `isPositionColliding`: the bounds test, then the scan of the 17×17×17
   * cube of cells around the rounded position, stopping at the first solid
   * cell whose box meets the player box.
   */
  method IsPositionColliding(w: World, r: Rules, x: real, y: real, z: real) returns (hit: bool)
    ensures hit == Colliding(w.Data(), r, x, y, z)
  {
    if OutsidePlane(r, x, z) {
      return true;
    }
    var px, py, pz := Round(x), Round(y), Round(z);
    var i := px - SCAN_RADIUS;
    while i <= px + SCAN_RADIUS
      invariant px - SCAN_RADIUS <= i <= px + SCAN_RADIUS + 1
      invariant forall c: Pos | InWindow(c, x, y, z) && c.x < i :: !(Solid(w.Data(), r, c) && Touches(r, c, x, y, z))
    {
      hit := ScanPlane(w, r, x, y, z, i);
      if hit {
        return;
      }
      i := i + 1;
    }
    forall c: Pos | Solid(w.Data(), r, c) && Touches(r, c, x, y, z) ensures false {
      TouchingInWindow(r, c, x, y, z);
    }
    return false;
  }

  /** The cells of the scanned cube with x-coordinate i. */
  method ScanPlane(w: World, r: Rules, x: real, y: real, z: real, i: int) returns (hit: bool)
    ensures hit <==> exists c: Pos :: InWindow(c, x, y, z) && c.x == i && Solid(w.Data(), r, c) && Touches(r, c, x, y, z)
  {
    var py, pz := Round(y), Round(z);
    var j := py - SCAN_RADIUS;
    while j <= py + SCAN_RADIUS
      invariant py - SCAN_RADIUS <= j <= py + SCAN_RADIUS + 1
      invariant forall c: Pos | InWindow(c, x, y, z) && c.x == i && c.y < j ::
        !(Solid(w.Data(), r, c) && Touches(r, c, x, y, z))
    {
      var k := pz - SCAN_RADIUS;
      while k <= pz + SCAN_RADIUS
        invariant pz - SCAN_RADIUS <= k <= pz + SCAN_RADIUS + 1
        invariant forall c: Pos | InWindow(c, x, y, z) && c.x == i && (c.y < j || (c.y == j && c.z < k)) ::
          !(Solid(w.Data(), r, c) && Touches(r, c, x, y, z))
      {
        var c := Pos(i, j, k);
        if c in w.occupied {
          if !(r.waterPasses && c in w.types && w.types[c] == Water) {
            if Touches(r, c, x, y, z) {
              if InWindow(c, x, y, z) {
                return true;
              }
            }
          }
        }
        k := k + 1;
      }
      j := j + 1;
    }
    return false;
  }
}

module Movement {
  import opened Wrappers
  import opened Voxel
  import opened Store
  import opened Physics
  import opened Motion

  /** `model.position`, `velocity` and `canJump`, updated in place every frame. */
  class Player {
    var x: real
    var y: real
    var z: real
    var vx: real
    var vy: real
    var vz: real
    var canJump: bool

    function State(): Body
      reads this
    {
      Body(x, y, z, vx, vy, vz, canJump)
    }

    constructor (x0: real, y0: real, z0: real)
      ensures State() == Body(x0, y0, z0, 0.0, 0.0, 0.0, false)
    {
      x, y, z := x0, y0, z0;
      vx, vy, vz := 0.0, 0.0, 0.0;
      canJump := false;
    }
  }

  /** A position the player may move to: its chunk is loaded and it collides with nothing. */
  ghost predicate Free(t: Tables, r: Rules, x: real, y: real, z: real)
  {
    InLoadedChunk(t, r, x, z) && !Colliding(t, r, x, y, z)
  }

  /** How far from the centre the final clamp lets the player stand. */
  function Reach(r: Rules): real
  {
    r.halfPlane - PLAYER_HALF_WIDTH
  }

  /** The positions a world lets the player occupy under the given rules. */
  ghost function FreeSpots(t: Tables, r: Rules): iset<Spot>
  {
    iset s: Spot | Free(t, r, s.x, s.y, s.z)
  }

  /**
   * `handleMovement(delta)`: the player's position, velocity and jump flag
   * are advanced by one frame in place.
   */
  method HandleMovement(w: World, p: Player, r: Rules, delta: real, intent: Option<(real, real)>)
    modifies p
    ensures p.State() == Step(FreeSpots(w.Data(), r), Reach(r), old(p.State()), delta, intent)
  {
    var b := Frame(w, r, p.State(), delta, intent);
    p.x, p.y, p.z := b.x, b.y, b.z;
    p.vx, p.vy, p.vz := b.vx, b.vy, b.vz;
    p.canJump := b.canJump;
  }

  /**
   * The body of `handleMovement`: gravity and input first, then the X, Y
   * and Z moves in turn, each tested against the world, then the clamp.
   */
  method Frame(w: World, r: Rules, b0: Body, delta: real, intent: Option<(real, real)>) returns (b: Body)
    ensures b == Step(FreeSpots(w.Data(), r), Reach(r), b0, delta, intent)
  {
    ghost var free := FreeSpots(w.Data(), r);
    b := b0;
    if intent.Some? {
      b := b.(vx := intent.value.0, vz := intent.value.1);
    } else {
      b := b.(vx := b.vx * DAMPING, vz := b.vz * DAMPING);
    }
    b := b.(vy := b.vy - GRAVITY * delta);
    ghost var b1 := b;
    assert b1 == Accelerate(b0, delta, intent);
    b := TryMoveX(w, r, b, delta, free);
    ghost var b2 := b;
    b := TryMoveY(w, r, b, delta, free);
    ghost var b3 := b;
    b := TryMoveZ(w, r, b, delta, free);
    ghost var b4 := b;
    StepOf(free, Reach(r), b0, delta, intent, b1, b2, b3, b4);
    b := b.(x := Clamp(b.x, -Reach(r), Reach(r)), z := Clamp(b.z, -Reach(r), Reach(r)));
  }

  /** The X step of `handleMovement`: towards where the X velocity carries the player in delta seconds. */
  method TryMoveX(w: World, r: Rules, b: Body, delta: real, ghost free: iset<Spot>) returns (m: Body)
    requires free == FreeSpots(w.Data(), r)
    ensures m == StepX(free, b, delta)
  {
    var newX := b.x + b.vx * delta;
    var ok := CanMoveTo(w, r, newX, b.y, b.z, free);
    if ok {
      m := b.(x := newX);
    } else {
      m := b.(vx := 0.0);
    }
  }

  /** The Y step of `handleMovement`, likewise: landing on something restores the jump. */
  method TryMoveY(w: World, r: Rules, b: Body, delta: real, ghost free: iset<Spot>) returns (m: Body)
    requires free == FreeSpots(w.Data(), r)
    ensures m == StepY(free, b, delta)
  {
    var newY := b.y + b.vy * delta;
    var ok := CanMoveTo(w, r, b.x, newY, b.z, free);
    if ok {
      m := b.(y := newY, canJump := false);
    } else {
      m := b.(vy := 0.0, canJump := if b.vy < 0.0 then true else b.canJump);
    }
  }

  /** The Z step of `handleMovement`, likewise. */
  method TryMoveZ(w: World, r: Rules, b: Body, delta: real, ghost free: iset<Spot>) returns (m: Body)
    requires free == FreeSpots(w.Data(), r)
    ensures m == StepZ(free, b, delta)
  {
    var newZ := b.z + b.vz * delta;
    var ok := CanMoveTo(w, r, b.x, b.y, newZ, free);
    if ok {
      m := b.(z := newZ);
    } else {
      m := b.(vz := 0.0);
    }
  }

  /** The test each axis move makes: the target's chunk is loaded and the target collides with nothing. */
  method CanMoveTo(w: World, r: Rules, x: real, y: real, z: real, ghost free: iset<Spot>) returns (ok: bool)
    requires free == FreeSpots(w.Data(), r)
    ensures ok == (Spot(x, y, z) in free)
  {
    var loaded := IsInLoadedChunk(w, r, x, z);
    var hit := IsPositionColliding(w, r, x, y, z);
    ok := loaded && !hit;
  }

  /** A free position is never outside the clamp square. */
  lemma FreeWithinReach(t: Tables, r: Rules)
    ensures forall s :: s in FreeSpots(t, r) ==> -Reach(r) <= s.x <= Reach(r) && -Reach(r) <= s.z <= Reach(r)
  {
  }
}
