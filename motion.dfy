/**
 * The per-frame motion rule of `handleMovement`, over an abstract set of
 * free positions: gravity and input first, then one move per axis, then the
 * clamp into the plane.
 */
module Motion {
  import opened Wrappers
  import opened Voxel

  /** Horizontal velocity factor applied on a frame without movement input. */
  const DAMPING: real := 0.8

  /** The player's position (feet), velocity and jump flag. */
  datatype Body = Body(x: real, y: real, z: real, vx: real, vy: real, vz: real, canJump: bool)

  /** A candidate player position. */
  datatype Spot = Spot(x: real, y: real, z: real)

  /** `THREE.MathUtils.clamp`. */
  function Clamp(v: real, lo: real, hi: real): (r: real)
    requires lo <= hi
    ensures lo <= r <= hi
    ensures lo <= v <= hi ==> r == v
  {
    if v < lo then lo else if v > hi then hi else v
  }

  /**
   * One frame of `handleMovement` given the set of free positions and the
   * clamp bound. `intent` is the horizontal velocity the keys and camera
   * ask for, or None when no movement key is held.
   */
  function Step(free: iset<Spot>, reach: real, b: Body, delta: real, intent: Option<(real, real)>): Body
    requires reach >= 0.0
  {
    ClampBody(StepZ(free, StepY(free, StepX(free, Accelerate(b, delta, intent), delta), delta), delta), reach)
  }

  /** The X move of a frame lasting delta seconds. */
  function StepX(free: iset<Spot>, b: Body, delta: real): Body
  {
    MoveX(free, b, b.x + b.vx * delta)
  }

  /** The Y move of a frame lasting delta seconds. */
  function StepY(free: iset<Spot>, b: Body, delta: real): Body
  {
    MoveY(free, b, b.y + b.vy * delta)
  }

  /** The Z move of a frame lasting delta seconds. */
  function StepZ(free: iset<Spot>, b: Body, delta: real): Body
  {
    MoveZ(free, b, b.z + b.vz * delta)
  }

  /** The keys set (or damping decays) the horizontal velocity; gravity lowers the vertical one. */
  function Accelerate(b: Body, delta: real, intent: Option<(real, real)>): Body
  {
    var vx := if intent.Some? then intent.value.0 else b.vx * DAMPING;
    var vz := if intent.Some? then intent.value.1 else b.vz * DAMPING;
    b.(vx := vx, vz := vz, vy := b.vy - GRAVITY * delta)
  }

  /** The X move to nx: taken if the target is free, otherwise the X velocity is zeroed. */
  function MoveX(free: iset<Spot>, b: Body, nx: real): Body
  {
    if Spot(nx, b.y, b.z) in free then b.(x := nx) else b.(vx := 0.0)
  }

  /** The Y move to ny: taken (losing the jump) if free; otherwise a falling player may jump again. */
  function MoveY(free: iset<Spot>, b: Body, ny: real): Body
  {
    if Spot(b.x, ny, b.z) in free then b.(y := ny, canJump := false)
    else b.(vy := 0.0, canJump := if b.vy < 0.0 then true else b.canJump)
  }

  /** The Z move to nz: taken if the target is free, otherwise the Z velocity is zeroed. */
  function MoveZ(free: iset<Spot>, b: Body, nz: real): Body
  {
    if Spot(b.x, b.y, nz) in free then b.(z := nz) else b.(vz := 0.0)
  }

  /** The final clamp of x and z into the plane. */
  function ClampBody(b: Body, reach: real): Body
    requires reach >= 0.0
  {
    b.(x := Clamp(b.x, -reach, reach), z := Clamp(b.z, -reach, reach))
  }

  /** Step, given the four intermediate bodies of a frame. */
  lemma StepOf(free: iset<Spot>, reach: real, b: Body, delta: real, intent: Option<(real, real)>,
               b1: Body, b2: Body, b3: Body, b4: Body)
    requires reach >= 0.0
    requires b1 == Accelerate(b, delta, intent)
    requires StepX(free, b1, delta) == b2
    requires StepY(free, b2, delta) == b3
    requires StepZ(free, b3, delta) == b4
    ensures Step(free, reach, b, delta, intent) == ClampBody(b4, reach)
  {
  }

  /**
   * What one frame guarantees: the player ends inside the clamp square;
   * the vertical velocity is either zeroed or exactly the gravity-updated
   * one; a blocked downward move grants the jump and a completed vertical
   * move takes it away; and, when every free position lies inside the
   * clamp square (as FreeWithinReach shows of every world), a player who
   * starts the frame in a free position ends it in one.
   */
  lemma StepSafe(free: iset<Spot>, reach: real, b: Body, delta: real, intent: Option<(real, real)>)
    requires reach >= 0.0
    ensures var m := Step(free, reach, b, delta, intent);
      -reach <= m.x <= reach && -reach <= m.z <= reach &&
      (m.vy == 0.0 || m.vy == b.vy - GRAVITY * delta) &&
      (m.vy != 0.0 ==> !m.canJump) &&
      (m.vy == 0.0 && b.vy - GRAVITY * delta < 0.0 ==> m.canJump)
    ensures ((forall s :: s in free ==> -reach <= s.x <= reach && -reach <= s.z <= reach) &&
      Spot(b.x, b.y, b.z) in free) ==>
      var m := Step(free, reach, b, delta, intent);
      Spot(m.x, m.y, m.z) in free
  {
  }
}
