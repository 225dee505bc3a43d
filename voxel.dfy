/**
 * Shared vocabulary of the voxel world (T3/scripts/config.js): block types,
 * integer cell and column coordinates, chunk keys and the game constants.
 */
module Voxel {

  /** The closed block-type enumeration, codes 0..13 in declaration order. */
  datatype BlockType =
    | Grass | Dirt | Stone | Trunk | Leaves | Snow | PurpleLeaves
    | Sand | Water | Bedrock | Torch | Glass | WhiteWood | Brick

  /** The numeric code the source stores for a block type. */
  function Code(b: BlockType): (n: nat)
    ensures n < 14
  {
    match b
    case Grass => 0 case Dirt => 1 case Stone => 2 case Trunk => 3
    case Leaves => 4 case Snow => 5 case PurpleLeaves => 6 case Sand => 7
    case Water => 8 case Bedrock => 9 case Torch => 10 case Glass => 11
    case WhiteWood => 12 case Brick => 13
  }

  /** A cell of the world: the source's `"x,y,z"` key. */
  datatype Pos = Pos(x: int, y: int, z: int)

  /** A column of the world: the source's `"x,z"` key. */
  datatype Col = Col(x: int, z: int)

  /** A chunk: the source's `"cx,cz"` key. */
  datatype ChunkKey = ChunkKey(cx: int, cz: int)

  const CHUNK_SIZE: int := 6
  const SEA_LEVEL: int := 10
  const PLANE_SIZE: int := 250
  const HALF_PLANE: real := 125.0
  const GRAVITY: real := 25.0
  const PLAYER_HALF_WIDTH: real := 0.3
  const PLAYER_HEIGHT: real := 1.6
  const TOTAL_TREES: nat := 50

  function Min(a: int, b: int): int { if a <= b then a else b }
  function Max(a: int, b: int): int { if a >= b then a else b }

  /**
   * `Math.floor(n / size)` for an integer n and a positive size. Dafny's
   * integer division is Euclidean, which agrees with flooring here.
   */
  function FloorDiv(n: int, size: int): (q: int)
    requires size > 0
    ensures q * size <= n < q * size + size
  {
    n / size
  }

  /** `Math.floor` of a real. */
  function Floor(v: real): (r: int)
    ensures r as real <= v < r as real + 1.0
  {
    v.Floor
  }

  /** `Math.ceil` of a real. */
  function Ceil(v: real): (r: int)
    ensures r as real - 1.0 < v <= r as real
  {
    -((-v).Floor)
  }

  /** `Math.round`: nearest integer, halves rounded up. */
  function Round(v: real): (r: int)
    ensures v - 0.5 < r as real <= v + 0.5
  {
    (v + 0.5).Floor
  }

  /** The chunk that holds an integer column coordinate. */
  function ChunkOf(x: int, z: int, size: int): (k: ChunkKey)
    requires size > 0
    ensures k.cx * size <= x < k.cx * size + size
    ensures k.cz * size <= z < k.cz * size + size
  {
    ChunkKey(FloorDiv(x, size), FloorDiv(z, size))
  }
}
