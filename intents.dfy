/**
 * Outgoing intents: the position update sent every tick and the place and
 * remove messages a mouse click sends. They only travel outward; nothing in
 * the local cache changes when one is sent.
 */
module Intents {
  import opened Wrappers
  import opened Blocks

  /** The three outbound message shapes. */
  datatype Intent =
    | UpdatePos(playerPos: Position)                    // type 'update_pos'
    | PlaceBlock(position: Block, chunk: ChunkCoord)    // type 'place_block'
    | RemoveBlock(position: Block, chunk: ChunkCoord)   // type 'remove_block'

  /** The key events input() reacts to; every other key is OtherKey. */
  datatype Key = LeftMouseDown | RightMouseDown | OtherKey

  /** Whether a float holds a whole number, as the components of a face normal do. */
  predicate Integral(r: real) {
    r == r.Floor as real
  }

  /** The hovered entity's position rounded componentwise with round(). */
  function HitBlock(p: Position): (b: Block)
    ensures (b.x as real) - 0.5 <= p.x <= (b.x as real) + 0.5
    ensures (b.y as real) - 0.5 <= p.y <= (b.y as real) + 0.5
    ensures (b.z as real) - 0.5 <= p.z <= (b.z as real) + 0.5
  {
    Block(PyRound(p.x), PyRound(p.y), PyRound(p.z))
  }

  /**
   * place_block: the hit block moved by the surface normal, each sum cut to an
   * int, and tagged with the chunk of the HIT block, not of the new position.
   */
  function PlaceIntent(hit: Block, normal: Position): (r: Intent)
    ensures r.PlaceBlock? && r.chunk == GetChunk(hit)
    ensures Integral(normal.x) && Integral(normal.y) && Integral(normal.z) ==>
              r.position == Block(hit.x + normal.x.Floor, hit.y + normal.y.Floor, hit.z + normal.z.Floor)
  {
    PlaceBlock(Block(Truncate(hit.x as real + normal.x),
                     Truncate(hit.y as real + normal.y),
                     Truncate(hit.z as real + normal.z)),
               GetChunk(hit))
  }

  /** remove_block: the hit block itself, tagged with its own chunk. */
  function RemoveIntent(hit: Block): (r: Intent)
    ensures r.RemoveBlock? && r.position == hit && GetChunk(r.position) == r.chunk
  {
    RemoveBlock(hit, GetChunk(hit))
  }

  /**
   * The message input() sends for a key press: left click places, right
   * click removes, and nothing is sent for other keys or when nothing is
   * hovered.
   */
  function IntentForKey(key: Key, hovered: Option<Position>, normal: Position): (r: Option<Intent>)
    ensures r.Some? <==> key != OtherKey && hovered.Some?
    ensures r.Some? && key == LeftMouseDown ==> r.value == PlaceIntent(HitBlock(hovered.value), normal)
    ensures r.Some? && key == LeftMouseDown && Integral(normal.x) && Integral(normal.y) && Integral(normal.z) ==>
              var hit := HitBlock(hovered.value);
              r.value.position == Block(hit.x + normal.x.Floor, hit.y + normal.y.Floor, hit.z + normal.z.Floor)
    ensures r.Some? && key == RightMouseDown ==>
              r.value == RemoveBlock(HitBlock(hovered.value), GetChunk(HitBlock(hovered.value)))
  {
    match hovered
    case None => None
    case Some(p) =>
      match key
      case LeftMouseDown => Some(PlaceIntent(HitBlock(p), normal))
      case RightMouseDown => Some(RemoveIntent(HitBlock(p)))
      case OtherKey => None
  }

  /**
   * Placing against the face of a block on a chunk border puts the new block
   * in the neighbouring chunk, yet the message names the hit block's chunk.
   */
  lemma PlaceChunkCanDifferFromPlaced()
    ensures var r := PlaceIntent(Block(15, 0, 0), Position(1.0, 0.0, 0.0));
            r.position == Block(16, 0, 0) && r.chunk == ChunkCoord(0, 0)
            && GetChunk(r.position) == ChunkCoord(1, 0)
  {
  }

  /**
   * For a block and normal inside one chunk column the two chunks agree: the
   * hit (4, 5, 6) with normal (0, 1, 0) places at (4, 6, 6) in chunk (0, 0).
   */
  lemma PlaceInsideChunk()
    ensures var r := PlaceIntent(Block(4, 5, 6), Position(0.0, 1.0, 0.0));
            r == PlaceBlock(Block(4, 6, 6), ChunkCoord(0, 0)) && GetChunk(r.position) == r.chunk
  {
  }
}
