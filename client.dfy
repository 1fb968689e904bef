/**
 * The client's synchronisation state: the chunk cache and player map that
 * snapshots replace, the dirty set, the materialised chunk meshes, the block
 * colliders, and the intents sent so far.
 */
module Client {
  import opened Wrappers
  import opened Blocks
  import opened Meshes
  import opened Intents
  import opened Framing

  /** CHUNK_BLOCKS: chunk coordinate to the set of blocks it holds. */
  type ChunkMap = map<ChunkCoord, set<Block>>
  /** PLAYERS: player identifier to last known position. */
  type PlayerMap = map<string, Position>

  /**
   * A decoded inbound message: the None that recv_msg returns, or a
   * dictionary. Only its two keys the client reads are kept; `otherKeys`
   * counts any further entries (they only matter for truthiness).
   */
  datatype Inbound =
    | NoMessage
    | Dict(chunkBlocks: Option<ChunkMap>, players: Option<PlayerMap>, otherKeys: nat)

  /**
   * Python truthiness of the message: a dictionary with at least one entry.
   * Only a failed decode and the empty dictionary are falsy.
   */
  predicate Truthy(m: Inbound)
    ensures !Truthy(m) <==> m == NoMessage || m == Dict(None, None, 0)
  {
    m.Dict? && (m.chunkBlocks.Some? || m.players.Some? || m.otherKeys > 0)
  }

  /** What becomes of the listener thread after one round of its loop. */
  datatype ListenerOutcome =
    | KeepListening   // the loop goes round again
    | ListenerDied    // an exception ended the thread

  /** The part of the client state the network listener writes. */
  datatype SyncState = SyncState(chunkBlocks: ChunkMap, players: PlayerMap,
                                 dirty: set<ChunkCoord>, worldLoaded: bool)

  /** Whether chunk c appeared, disappeared or had its block set replaced. */
  predicate Changed(before: ChunkMap, after: ChunkMap, c: ChunkCoord) {
    (c in before) != (c in after) || (c in before && c in after && before[c] != after[c])
  }

  /**
   * The listener's handling of one message. A falsy message changes nothing.
   * Otherwise the chunk map and player map become exactly the message's
   * (missing keys giving empty maps), every key of the old or the new cache
   * is added to the dirty set (so every changed chunk is marked, and so is
   * every unchanged one), and the world counts as loaded.
   */
  function ApplySnapshot(s: SyncState, m: Inbound): (r: SyncState)
    ensures !Truthy(m) ==> r == s
    ensures Truthy(m) ==> && r.chunkBlocks == m.chunkBlocks.GetOr(map[])
                          && r.players == m.players.GetOr(map[])
                          && r.worldLoaded
    ensures Truthy(m) ==> r.dirty == s.dirty + s.chunkBlocks.Keys + r.chunkBlocks.Keys
    // a corollary of the line above, kept because it is what the marking is for
    ensures Truthy(m) ==> forall c :: Changed(s.chunkBlocks, r.chunkBlocks, c) ==> c in r.dirty
  {
    if !Truthy(m) then s
    else
      var newChunks := m.chunkBlocks.GetOr(map[]);
      SyncState(newChunks, m.players.GetOr(map[]),
                s.dirty + (newChunks.Keys + s.chunkBlocks.Keys), true)
  }

  /**
   * A pass of update_chunk_meshes from meshes `before` and dirty set
   * `dirtyBefore` to meshes `after`, for the player in chunk pc: exactly the
   * window chunks that were materialised or are cached stay or become
   * materialised; a cached one that was dirty or had no mesh gets a fresh
   * mesh of its current blocks; every other one keeps its mesh.
   */
  ghost predicate Streamed(before: map<ChunkCoord, Mesh>, dirtyBefore: set<ChunkCoord>, cache: ChunkMap,
                     pc: ChunkCoord, after: map<ChunkCoord, Mesh>)
  {
    && (forall c :: c in after <==> InWindow(c, pc) && (c in before || c in cache))
    && (forall c :: c in after ==>
          if c in cache && (c in dirtyBefore || c !in before) then MeshOf(after[c], cache[c])
          else c in before && after[c] == before[c])
  }

  /** CHUNK_BLOCKS.get(chunk, []): the blocks of a chunk, none if it is not cached. */
  function BlocksIn(cache: ChunkMap, c: ChunkCoord): (bs: set<Block>)
    ensures c !in cache ==> bs == {}
  {
    if c in cache then cache[c] else {}
  }

  /** The blocks of the chunks `cs` that are within reach of (px, 0, pz). */
  function ReachableBlocks(cache: ChunkMap, cs: set<ChunkCoord>, px: int, pz: int): (r: set<Block>)
    ensures forall b :: b in r ==> WithinReach(b, px, pz)
  {
    set c, b | c in cs && b in BlocksIn(cache, c) && WithinReach(b, px, pz) :: b
  }

  /**
   * The colliders after a pass of update_block_colliders: the old ones still
   * within reach, plus every reachable block of a materialised chunk.
   */
  function CollidersAfter(before: set<Block>, cache: ChunkMap, materialised: set<ChunkCoord>,
                          px: int, pz: int): (r: set<Block>)
    ensures forall b :: b in r ==> WithinReach(b, px, pz)
    ensures forall c, b :: c in materialised && b in BlocksIn(cache, c) && WithinReach(b, px, pz) ==> b in r
    ensures forall b :: b in before && WithinReach(b, px, pz) ==> b in r
    ensures forall b :: b in r && b !in before ==> exists c :: c in materialised && b in BlocksIn(cache, c)
  {
    (set b | b in before && WithinReach(b, px, pz)) + ReachableBlocks(cache, materialised, px, pz)
  }

  class ClientState {
    var chunkBlocks: ChunkMap
    var players: PlayerMap
    var dirty: set<ChunkCoord>
    var worldLoaded: bool
    /** CHUNKS: the materialised chunks; the renderer entity is represented by its mesh. */
    var chunks: map<ChunkCoord, Mesh>
    /** BLOCK_COLLIDERS: the positions that have an invisible box collider. */
    var colliders: set<Block>
    /** The intents sent so far, in order. */
    var outbox: seq<Intent>

    function Sync(): SyncState
      reads this
    {
      SyncState(chunkBlocks, players, dirty, worldLoaded)
    }

    /**
     * Before the first snapshot nothing is cached, materialised or sent;
     * every mesh is laid out from its own blocks; and a materialised chunk
     * that is cached and not dirty shows exactly its cached blocks.
     */
    ghost predicate Valid()
      reads this
    {
      && (!worldLoaded ==> chunkBlocks == map[] && players == map[] && dirty == {}
                           && chunks == map[] && colliders == {} && outbox == [])
      && (forall c :: c in chunks ==> WellFormed(chunks[c]))
      && (forall c :: c in chunks && c in chunkBlocks && c !in dirty ==> MeshOf(chunks[c], chunkBlocks[c]))
    }

    constructor ()
      ensures Valid()
      ensures Sync() == SyncState(map[], map[], {}, false)
      ensures chunks == map[] && colliders == {} && outbox == []
    {
      chunkBlocks, players, dirty, worldLoaded := map[], map[], {}, false;
      chunks, colliders, outbox := map[], {}, [];
    }

    /** The body of network_listener's loop for one decoded message. */
    method OnSnapshot(m: Inbound)
      requires Valid()
      modifies this
      ensures Valid()
      ensures Sync() == ApplySnapshot(old(Sync()), m)
      ensures chunks == old(chunks) && colliders == old(colliders) && outbox == old(outbox)
    {
      if Truthy(m) {
        var oldChunks := chunkBlocks.Keys;
        chunkBlocks := m.chunkBlocks.GetOr(map[]);
        players := m.players.GetOr(map[]);
        var newChunks := chunkBlocks.Keys;
        var changedChunks := newChunks + oldChunks;
        dirty := dirty + changedChunks;
        if !worldLoaded {
          worldLoaded := true;
        }
      }
    }

    /**
     * One round of network_listener's loop: recv_msg, then the snapshot
     * handling. When the header cannot be read recv_msg returns None and the
     * loop simply goes round again; when the payload is cut short or empty,
     * or the deserialiser (pickle.loads, a parameter here) rejects it, the
     * exception ends the thread. Only a decoded message changes the state.
     */
    method ListenOnce(sock: Socket, deserialise: seq<byte> -> Option<Inbound>)
      returns (outcome: ListenerOutcome, after: Socket)
      requires Valid()
      modifies this
      ensures Valid()
      ensures chunks == old(chunks) && colliders == old(colliders) && outbox == old(outbox)
      ensures var (r, rest) := ReadFrame(Pending(sock.segments));
              && Pending(after.segments) == rest
              && match r
                 case Closed => outcome == KeepListening && Sync() == old(Sync())
                 case ShortPayload => outcome == ListenerDied && Sync() == old(Sync())
                 case Payload(bytes) =>
                   if bytes == [] then outcome == ListenerDied && Sync() == old(Sync())
                   else match deserialise(bytes)
                   case None => outcome == ListenerDied && Sync() == old(Sync())
                   case Some(m) => outcome == KeepListening && Sync() == ApplySnapshot(old(Sync()), m)
    {
      var received;
      received, after := RecvMsg(sock);
      match received
      case Closed =>
        outcome := KeepListening;
      case ShortPayload =>
        outcome := ListenerDied;
      case Payload(bytes) =>
        if bytes == [] {
          // unpickling an empty byte string raises
          return ListenerDied, after;
        }
        var state := deserialise(bytes);
        if state.None? {
          outcome := ListenerDied;
        } else {
          OnSnapshot(state.value);
          outcome := KeepListening;
        }
    }

    /**
     * build_chunk_mesh: nothing for a chunk that is not cached; otherwise the
     * chunk's mesh is (re)built from its cached blocks, and no other mesh
     * changes.
     */
    method BuildChunkMesh(c: ChunkCoord)
      requires Valid()
      modifies this`chunks
      ensures Valid()
      ensures c !in chunkBlocks ==> chunks == old(chunks)
      ensures c in chunkBlocks ==> && c in chunks
                                   && chunks == old(chunks)[c := chunks[c]]
                                   && MeshOf(chunks[c], chunkBlocks[c])
    {
      if c !in chunkBlocks {
        return;
      }
      var mesh := BuildMesh(chunkBlocks[c]);
      chunks := chunks[c := mesh];
    }

    /** First step of update_chunk_meshes: rebuild every dirty cached chunk and consume the dirty set. */
    method RebuildDirty()
      requires Valid()
      modifies this`chunks, this`dirty
      ensures Valid()
      ensures dirty == {}
      ensures chunks.Keys == old(chunks).Keys + (old(dirty) * chunkBlocks.Keys)
      ensures forall c :: c in chunks ==>
                if c in chunkBlocks && c in old(dirty) then MeshOf(chunks[c], chunkBlocks[c])
                else chunks[c] == old(chunks)[c]
    {
      var todo := dirty;
      while todo != {}
        invariant Valid()
        invariant dirty == todo
        invariant todo <= old(dirty)
        invariant chunks.Keys == old(chunks).Keys + ((old(dirty) - todo) * chunkBlocks.Keys)
        invariant forall c :: c in chunks ==>
                    if c in chunkBlocks && c in old(dirty) - todo then MeshOf(chunks[c], chunkBlocks[c])
                    else chunks[c] == old(chunks)[c]
        decreases todo
      {
        var c :| c in todo;
        if c in chunkBlocks {
          BuildChunkMesh(c);
        }
        dirty := dirty - {c};
        todo := todo - {c};
      }
    }

    /** Second step of update_chunk_meshes: build every cached chunk of the window that has no mesh. */
    method MaterialiseWindow(pc: ChunkCoord)
      requires Valid()
      modifies this`chunks
      ensures Valid()
      ensures forall c :: c in chunks <==> c in old(chunks) || (c in chunkBlocks && InWindow(c, pc))
      ensures forall c :: c in chunks ==>
                if c in old(chunks) then chunks[c] == old(chunks)[c] else MeshOf(chunks[c], chunkBlocks[c])
    {
      for dx := -RenderDistance to RenderDistance + 1
        invariant Valid()
        invariant forall c :: c in chunks <==>
                    c in old(chunks) || (c in chunkBlocks && ScannedBefore(c, pc, dx, -RenderDistance))
        invariant forall c :: c in chunks ==>
                    if c in old(chunks) then chunks[c] == old(chunks)[c] else MeshOf(chunks[c], chunkBlocks[c])
      {
        MaterialiseRow(pc, dx);
      }
    }

    /** The inner dz loop of the second step, for one dx. */
    method MaterialiseRow(pc: ChunkCoord, dx: int)
      requires Valid()
      modifies this`chunks
      ensures Valid()
      ensures forall c :: c in chunks <==>
                c in old(chunks) || (c in chunkBlocks && c.cx - pc.cx == dx && Abs(c.cz - pc.cz) <= RenderDistance)
      ensures forall c :: c in chunks ==>
                if c in old(chunks) then chunks[c] == old(chunks)[c] else MeshOf(chunks[c], chunkBlocks[c])
    {
      for dz := -RenderDistance to RenderDistance + 1
        invariant Valid()
        invariant forall c :: c in chunks <==>
                    c in old(chunks) || (c in chunkBlocks && c.cx - pc.cx == dx && -RenderDistance <= c.cz - pc.cz < dz)
        invariant forall c :: c in chunks ==>
                    if c in old(chunks) then chunks[c] == old(chunks)[c] else MeshOf(chunks[c], chunkBlocks[c])
      {
        var chunk := ChunkCoord(pc.cx + dx, pc.cz + dz);
        if chunk in chunkBlocks && chunk !in chunks {
          BuildChunkMesh(chunk);
        }
      }
    }

    /** Third step of update_chunk_meshes: destroy every mesh outside the window. */
    method DestroyFar(pc: ChunkCoord)
      requires Valid()
      modifies this`chunks
      ensures Valid()
      ensures forall c :: c in chunks <==> c in old(chunks) && InWindow(c, pc)
      ensures forall c :: c in chunks ==> chunks[c] == old(chunks)[c]
    {
      var window := Window(pc);
      var todo := chunks.Keys;
      while todo != {}
        invariant Valid()
        invariant todo <= old(chunks).Keys
        invariant forall c :: c in chunks <==> c in old(chunks) && (c in todo || InWindow(c, pc))
        invariant forall c :: c in chunks ==> chunks[c] == old(chunks)[c]
        decreases todo
      {
        var c :| c in todo;
        if c !in window {
          chunks := chunks - {c};
        }
        todo := todo - {c};
      }
    }

    /**
     * update_chunk_meshes for the player in chunk pc: nothing before the
     * world is loaded; afterwards the dirty set is consumed, the meshes
     * follow Streamed, and every materialised cached chunk shows exactly its
     * cached blocks.
     */
    method UpdateChunkMeshes(pc: ChunkCoord)
      requires Valid()
      modifies this`chunks, this`dirty
      ensures Valid()
      ensures !worldLoaded ==> chunks == old(chunks) && dirty == old(dirty)
      ensures worldLoaded ==> && dirty == {}
                              && Streamed(old(chunks), old(dirty), chunkBlocks, pc, chunks)
                              && forall c :: c in chunks && c in chunkBlocks ==> MeshOf(chunks[c], chunkBlocks[c])
    {
      if !worldLoaded {
        return;
      }
      RebuildDirty();
      MaterialiseWindow(pc);
      DestroyFar(pc);
    }

    /** First loop of update_block_colliders: add a collider for every reachable block of a materialised chunk. */
    method AddNearColliders(px: int, pz: int)
      requires Valid()
      modifies this`colliders
      ensures Valid()
      ensures colliders == old(colliders) + ReachableBlocks(chunkBlocks, chunks.Keys, px, pz)
    {
      var chunkTodo := chunks.Keys;
      ghost var chunksDone: set<ChunkCoord> := {};
      while chunkTodo != {}
        invariant Valid()
        invariant chunkTodo + chunksDone == chunks.Keys && chunkTodo !! chunksDone
        invariant colliders == old(colliders) + ReachableBlocks(chunkBlocks, chunksDone, px, pz)
        decreases chunkTodo
      {
        var chunk :| chunk in chunkTodo;
        AddChunkColliders(chunk, px, pz);
        ReachableBlocksAdd(chunkBlocks, chunksDone, chunk, px, pz);
        chunkTodo := chunkTodo - {chunk};
        chunksDone := chunksDone + {chunk};
      }
    }

    /** The inner loop of the first collider loop, over the cached blocks of one chunk. */
    method AddChunkColliders(chunk: ChunkCoord, px: int, pz: int)
      requires Valid()
      modifies this`colliders
      ensures Valid()
      ensures colliders == old(colliders) + (set b | b in BlocksIn(chunkBlocks, chunk) && WithinReach(b, px, pz))
    {
      var blockTodo := BlocksIn(chunkBlocks, chunk);
      ghost var blocksDone: set<Block> := {};
      while blockTodo != {}
        invariant blockTodo + blocksDone == BlocksIn(chunkBlocks, chunk) && blockTodo !! blocksDone
        invariant colliders == old(colliders) + (set b | b in blocksDone && WithinReach(b, px, pz))
        decreases blockTodo
      {
        var pos :| pos in blockTodo;
        if pos !in colliders && WithinReach(pos, px, pz) {
          colliders := colliders + {pos};
        }
        blockTodo := blockTodo - {pos};
        blocksDone := blocksDone + {pos};
      }
    }

    /** Second loop of update_block_colliders: delete every collider out of reach. */
    method RemoveFarColliders(px: int, pz: int)
      requires Valid()
      modifies this`colliders
      ensures Valid()
      ensures colliders == set b | b in old(colliders) && WithinReach(b, px, pz)
    {
      var todo := colliders;
      while todo != {}
        invariant todo <= old(colliders)
        invariant colliders == set b | b in old(colliders) && (b in todo || WithinReach(b, px, pz))
        decreases todo
      {
        var pos :| pos in todo;
        if !WithinReach(pos, px, pz) {
          colliders := colliders - {pos};
        }
        todo := todo - {pos};
      }
    }

    /**
     * update_block_colliders around the rounded player position (px, pz):
     * nothing before the world is loaded; afterwards the colliders are
     * CollidersAfter of the old ones.
     */
    method UpdateBlockColliders(px: int, pz: int)
      requires Valid()
      modifies this`colliders
      ensures Valid()
      ensures !worldLoaded ==> colliders == old(colliders)
      ensures worldLoaded ==> colliders == CollidersAfter(old(colliders), chunkBlocks, chunks.Keys, px, pz)
    {
      if !worldLoaded {
        return;
      }
      AddNearColliders(px, pz);
      RemoveFarColliders(px, pz);
    }

    /** input(): send the intent of a click, if any, once the world is loaded; nothing local changes. */
    method Input(key: Key, hovered: Option<Position>, normal: Position)
      requires Valid()
      modifies this`outbox
      ensures Valid()
      ensures outbox == old(outbox) + (match IntentForKey(key, hovered, normal)
                                       case Some(i) => if worldLoaded then [i] else []
                                       case None => [])
    {
      if !worldLoaded {
        return;
      }
      var intent := IntentForKey(key, hovered, normal);
      if intent.Some? {
        outbox := outbox + [intent.value];
      }
    }

    /**
     * update(), one tick with the player at p: before the world is loaded
     * nothing happens; afterwards the position is sent, then the mesh pass
     * runs for the player's chunk and the collider pass for the rounded x
     * and z. The cache itself is never changed by a tick.
     */
    method Tick(p: Position)
      requires Valid()
      modifies this
      ensures Valid()
      ensures Sync().(dirty := old(dirty)) == old(Sync())
      ensures !worldLoaded ==> && dirty == old(dirty) && chunks == old(chunks)
                               && colliders == old(colliders) && outbox == old(outbox)
      ensures worldLoaded ==> && outbox == old(outbox) + [UpdatePos(p)]
                              && dirty == {}
                              && Streamed(old(chunks), old(dirty), chunkBlocks, PlayerChunk(p), chunks)
                              && colliders == CollidersAfter(old(colliders), chunkBlocks, chunks.Keys,
                                                             PyRound(p.x), PyRound(p.z))
    {
      if !worldLoaded {
        return;
      }
      outbox := outbox + [UpdatePos(p)];
      UpdateChunkMeshes(PlayerChunk(p));
      UpdateBlockColliders(PyRound(p.x), PyRound(p.z));
    }
  }

  /**
   * Whether the nested dx, dz loops over the window around pc have visited
   * chunk c before reaching (dx, dz).
   */
  predicate ScannedBefore(c: ChunkCoord, pc: ChunkCoord, dx: int, dz: int) {
    var ox, oz := c.cx - pc.cx, c.cz - pc.cz;
    && -RenderDistance <= ox && -RenderDistance <= oz <= RenderDistance
    && (ox < dx || (ox == dx && oz < dz))
  }

  /** Going through one more materialised chunk adds its reachable blocks. */
  lemma ReachableBlocksAdd(cache: ChunkMap, done: set<ChunkCoord>, c: ChunkCoord, px: int, pz: int)
    ensures ReachableBlocks(cache, done + {c}, px, pz)
            == ReachableBlocks(cache, done, px, pz) + (set b | b in BlocksIn(cache, c) && WithinReach(b, px, pz))
  {
  }

  /**
   * With the player standing still and no new snapshot, a second pass
   * changes nothing: the window is already materialised and nothing is
   * dirty.
   */
  lemma StreamingConverges(c0: map<ChunkCoord, Mesh>, d0: set<ChunkCoord>, cache: ChunkMap, pc: ChunkCoord,
                           c1: map<ChunkCoord, Mesh>, c2: map<ChunkCoord, Mesh>)
    requires Streamed(c0, d0, cache, pc, c1)
    requires Streamed(c1, {}, cache, pc, c2)
    ensures c2 == c1
  {
  }

  /**
   * A materialised chunk whose coordinate left the cache stays materialised,
   * with its old mesh, as long as it is inside the window: the pass only
   * rebuilds cached chunks and only destroys chunks outside the window.
   */
  lemma StaleMeshKept(before: map<ChunkCoord, Mesh>, dirtyBefore: set<ChunkCoord>, cache: ChunkMap,
                      pc: ChunkCoord, after: map<ChunkCoord, Mesh>, c: ChunkCoord)
    requires Streamed(before, dirtyBefore, cache, pc, after)
    requires c in before && c !in cache && InWindow(c, pc)
    ensures c in after && after[c] == before[c]
  {
  }

  /**
   * A snapshot holding block (1, 0, 1) in chunk (0, 0), a pass, then an
   * empty snapshot: the second snapshot marks (0, 0) dirty and empties the
   * cache. A pass near the chunk keeps its now stale mesh; a pass with the
   * player far away destroys it.
   */
  lemma SnapshotThenEmptySnapshot(meshed: map<ChunkCoord, Mesh>, near: map<ChunkCoord, Mesh>,
                                  far: map<ChunkCoord, Mesh>)
    requires var s1 := ApplySnapshot(SyncState(map[], map[], {}, false),
                                     Dict(Some(map[ChunkCoord(0, 0) := {Block(1, 0, 1)}]), None, 0));
             Streamed(map[], s1.dirty, s1.chunkBlocks, ChunkCoord(0, 0), meshed)
    requires Streamed(meshed, {ChunkCoord(0, 0)}, map[], ChunkCoord(0, 0), near)
    requires Streamed(meshed, {ChunkCoord(0, 0)}, map[], ChunkCoord(10, 0), far)
    ensures var s1 := ApplySnapshot(SyncState(map[], map[], {}, false),
                                    Dict(Some(map[ChunkCoord(0, 0) := {Block(1, 0, 1)}]), None, 0));
            var s2 := ApplySnapshot(s1.(dirty := {}), Dict(Some(map[]), None, 0));
            && s1.worldLoaded && s1.dirty == {ChunkCoord(0, 0)}
            && s2.dirty == {ChunkCoord(0, 0)} && s2.chunkBlocks == map[]
    ensures meshed.Keys == {ChunkCoord(0, 0)} && MeshOf(meshed[ChunkCoord(0, 0)], {Block(1, 0, 1)})
    ensures near == meshed
    ensures far == map[]
  {
  }

  /**
   * With the player standing still, a second collider pass changes nothing:
   * its first loop adds only blocks it already added and its second loop
   * finds nothing out of reach.
   */
  lemma CollidersConverge(before: set<Block>, cache: ChunkMap, materialised: set<ChunkCoord>, px: int, pz: int)
    ensures CollidersAfter(CollidersAfter(before, cache, materialised, px, pz), cache, materialised, px, pz)
            == CollidersAfter(before, cache, materialised, px, pz)
  {
  }

  /**
   * When no stale collider is left over, a collider pass gives exactly the
   * reachable blocks of the materialised chunks.
   */
  lemma CollidersMatchReach(before: set<Block>, cache: ChunkMap, materialised: set<ChunkCoord>, px: int, pz: int)
    requires before <= ReachableBlocks(cache, materialised, px, pz)
    ensures CollidersAfter(before, cache, materialised, px, pz) == ReachableBlocks(cache, materialised, px, pz)
  {
  }

  /**
   * When no materialised window chunk has left the cache, a pass leaves
   * exactly the cached chunks of the window materialised.
   */
  lemma StreamedMatchesWindow(before: map<ChunkCoord, Mesh>, dirtyBefore: set<ChunkCoord>, cache: ChunkMap,
                              pc: ChunkCoord, after: map<ChunkCoord, Mesh>)
    requires Streamed(before, dirtyBefore, cache, pc, after)
    requires forall c :: c in before && InWindow(c, pc) ==> c in cache
    ensures forall c :: c in after <==> InWindow(c, pc) && c in cache
  {
  }
}
