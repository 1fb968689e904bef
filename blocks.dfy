/**
 * World coordinates: block positions, chunk coordinates, the render window
 * of chunks around the viewer and the interaction reach around the viewer.
 */
module Blocks {

  /** Edge length of a chunk, in blocks (CHUNK_SIZE). */
  const ChunkSize: int := 16
  /** Chebyshev radius, in chunks, of the render window (RENDER_DISTANCE). */
  const RenderDistance: int := 3
  /** Euclidean radius, in blocks, within which blocks get colliders (INTERACTION_DISTANCE). */
  const InteractionDistance: int := 5
  /** Side of the square render window, in chunks. */
  const WindowSide: int := 2 * RenderDistance + 1

  /** An integer block position (x, y, z). */
  datatype Block = Block(x: int, y: int, z: int)

  /** A chunk coordinate (cx, cz): the horizontal grid cell a block lies in. */
  datatype ChunkCoord = ChunkCoord(cx: int, cz: int)

  /** A floating-point position of the player or of a hovered entity, as exact reals. */
  datatype Position = Position(x: real, y: real, z: real)

  /**
   * get_chunk: floor division of x and z by the chunk edge. Dafny's `/` with a
   * positive divisor rounds towards minus infinity, as Python's `//` does.
   */
  function GetChunk(b: Block): (c: ChunkCoord)
    ensures ChunkSize * c.cx <= b.x < ChunkSize * c.cx + ChunkSize
    ensures ChunkSize * c.cz <= b.z < ChunkSize * c.cz + ChunkSize
  {
    ChunkCoord(b.x / ChunkSize, b.z / ChunkSize)
  }

  /**
   * A block lies in exactly one chunk, the one whose 16 x 16 column holds its
   * x and z; its height y plays no part.
   */
  lemma ChunkOfIsUnique(b: Block, c: ChunkCoord)
    ensures GetChunk(b) == c <==>
              (ChunkSize * c.cx <= b.x < ChunkSize * c.cx + ChunkSize &&
               ChunkSize * c.cz <= b.z < ChunkSize * c.cz + ChunkSize)
  {
  }

  /**
   * The chunk of a floating-point position (the player's): Python's `x // 16`
   * on a float is the floor of x / 16, which is the floor of floor(x) / 16.
   */
  function PlayerChunk(p: Position): (c: ChunkCoord)
    ensures (ChunkSize * c.cx) as real <= p.x < (ChunkSize * c.cx + ChunkSize) as real
    ensures (ChunkSize * c.cz) as real <= p.z < (ChunkSize * c.cz + ChunkSize) as real
  {
    GetChunk(Block(p.x.Floor, p.y.Floor, p.z.Floor))
  }

  /**
   * Python 3's round() of a float to an int: to the nearest integer, and on a
   * tie to the even one.
   */
  function PyRound(r: real): (n: int)
    ensures (n as real) - 0.5 <= r <= (n as real) + 0.5
    ensures r == (n as real) - 0.5 || r == (n as real) + 0.5 ==> n % 2 == 0
  {
    var f := r.Floor;
    var frac := r - f as real;
    if frac < 0.5 then f
    else if frac > 0.5 then f + 1
    else if f % 2 == 0 then f
    else f + 1
  }

  /** Python's int() of a float: truncation towards zero. */
  function Truncate(r: real): (n: int)
    ensures 0.0 <= r ==> (n as real) <= r < (n as real) + 1.0
    ensures r < 0.0 ==> (n as real) - 1.0 < r <= (n as real)
  {
    if 0.0 <= r then r.Floor else -((-r).Floor)
  }

  function Abs(v: int): nat {
    if v < 0 then -v else v
  }

  /** Chebyshev distance between two chunk coordinates on the chunk grid. */
  function Chebyshev(a: ChunkCoord, b: ChunkCoord): nat {
    var dx := Abs(a.cx - b.cx);
    var dz := Abs(a.cz - b.cz);
    if dx < dz then dz else dx
  }

  /** Whether chunk c lies in the square render window around `center`. */
  predicate InWindow(c: ChunkCoord, center: ChunkCoord) {
    Chebyshev(c, center) <= RenderDistance
  }

  /**
   * The render window as the source enumerates it: dx, then dz, each over
   * range(-RENDER_DISTANCE, RENDER_DISTANCE + 1). Its members are exactly the
   * chunks within Chebyshev distance RENDER_DISTANCE of the center.
   */
  function Window(center: ChunkCoord): (w: seq<ChunkCoord>)
    ensures |w| == WindowSide * WindowSide
    ensures forall c :: c in w <==> InWindow(c, center)
  {
    var w := seq(WindowSide * WindowSide, i requires 0 <= i < WindowSide * WindowSide =>
                 ChunkCoord(center.cx + i / WindowSide - RenderDistance,
                            center.cz + i % WindowSide - RenderDistance));
    assert forall c :: InWindow(c, center) ==> c in w by {
      forall c | InWindow(c, center) ensures c in w {
        var i := (c.cx - center.cx + RenderDistance) * WindowSide + (c.cz - center.cz + RenderDistance);
        assert 0 <= i < WindowSide * WindowSide;
        assert i / WindowSide == c.cx - center.cx + RenderDistance;
        assert i % WindowSide == c.cz - center.cz + RenderDistance;
        assert w[i] == c;
      }
    }
    w
  }

  /**
   * Squared length of the vector from the flattened player position
   * (px, 0, pz) to block b: the block's own height counts.
   */
  function DistanceSquared(b: Block, px: int, pz: int): (d: nat)
    ensures d >= Square(b.y)
    ensures d == 0 <==> b == Block(px, 0, pz)
  {
    Square(b.x - px) + Square(b.y) + Square(b.z - pz)
  }

  /** n squared: never negative, and zero only for zero. */
  function Square(n: int): (s: nat)
    ensures s == 0 <==> n == 0
  {
    n * n
  }

  /**
   * Whether block b is within the interaction radius of (px, 0, pz):
   * `(Vec3(*pos) - player_pos).length() <= INTERACTION_DISTANCE`, squared.
   * Because the block's height is measured from y = 0, not from the player,
   * only blocks at most five levels from y = 0 can ever be within reach.
   */
  predicate WithinReach(b: Block, px: int, pz: int)
    ensures WithinReach(b, px, pz) ==> -InteractionDistance <= b.y <= InteractionDistance
  {
    DistanceSquared(b, px, pz) <= InteractionDistance * InteractionDistance
  }
}
