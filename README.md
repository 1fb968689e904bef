# Voxel client synchronisation core, in Dafny

A model of the client-side synchronisation core of `minecraft.py`, a voxel
world client that keeps a local copy of a world pushed to it by a server and
renders only the part near the player. The model covers:

- **Chunk coordinates** (`blocks.dfy`): `get_chunk` floor-divides x and z by
  `CHUNK_SIZE = 16`; the render window is the Chebyshev square of radius
  `RENDER_DISTANCE = 3` around the player's chunk; a block is within reach
  when its squared distance to the flattened player position `(px, 0, pz)` is
  at most `INTERACTION_DISTANCE² = 25`. Python's `round()` (ties to even) and
  `int()` (truncation) are written out on exact reals.
- **Length-prefixed framing** (`framing.dfy`): a 4-byte big-endian unsigned
  length header (`struct.pack('!I')`) then the payload; `recvall` over a
  socket modelled as the sequence of segments its bytes arrive in;
  `recv_msg` up to the deserialiser.
- **Mesh index layout** (`meshes.dfy`): `build_chunk_mesh` gives every block
  24 vertices and 36 triangle indices shifted by the running offset `24*k`.
- **Intents** (`intents.dfy`): the `place_block`, `remove_block` and
  `update_pos` messages built by `input` and `update`.
- **Client state** (`client.dfy`): class `ClientState` with the chunk cache
  `chunkBlocks`, the player map, the dirty set, `worldLoaded`, the
  materialised chunk meshes `chunks`, the block `colliders` and the `outbox`
  of sent intents. Its methods are the listener's loop body, the mesh
  streaming pass, the collider pass, `input` and the per-frame `update`. Each
  is proved against a specification function or predicate (`ApplySnapshot`,
  `Streamed`, `CollidersAfter`, `IntentForKey`), and the class invariant
  `Valid` says that nothing is cached, materialised or sent before the first
  snapshot, and that every materialised chunk that is cached and not dirty
  shows exactly its cached blocks.

The listener thread and the frame loop are modelled as atomic method calls on
the one state object.

### Behaviour of the code that may be unexpected

The model follows the code in each of these cases:

- A materialised chunk that has left the cache keeps its stale mesh while it
  is inside the window (`minecraft.py:118`, `:131`). One might expect it to be
  destroyed as soon as it leaves the cache. `StaleMeshKept` and
  `SnapshotThenEmptySnapshot` show this.
- Colliders of removed blocks stay while they are within reach
  (`minecraft.py:149-152`). So the colliders equal the reachable blocks of the
  materialised chunks only when nothing stale is left (`CollidersMatchReach`).
- The reach test uses the block's own height: the player is flattened to
  `y = 0`, but the block is not (`minecraft.py:139`, `:142`). It is not a 2D
  horizontal radius, and no block more than 5 levels from `y = 0` ever gets a
  collider (`WithinReach`).
- Each snapshot marks every chunk of the old and the new cache dirty, not only
  the chunks that changed (`minecraft.py:43-50`). So every cached chunk's mesh
  is rebuilt after each snapshot (`ApplySnapshot`).
- A place message carries the chunk of the hit block, not of the placed
  position (`minecraft.py:161`, `:163`). The two differ when a block is placed
  across a chunk border (`PlaceChunkCanDifferFromPlaced`).
- When the header read fails, `recv_msg` returns `None` and the listener loop
  goes round again rather than ending. After the peer has closed, it spins.
  A short or empty payload or a deserialisation error raises and ends the listener
  thread (`ClientState.ListenOnce`).
- A dirty chunk is rebuilt even when it is outside the window, and destroyed
  again in the same pass.

## Model

| member | source | states |
|---|---|---|
| Blocks.GetChunk | minecraft.py:89-91 | the chunk (cx, cz) of a block satisfies 16·cx ≤ x < 16·cx+16 and 16·cz ≤ z < 16·cz+16 |
| Blocks.ChunkOfIsUnique | minecraft.py:89-91 | get_chunk(b) == c exactly when b's x and z lie in c's 16×16 column; y plays no part |
| Blocks.PlayerChunk | minecraft.py:114 | the player's chunk is the column holding the float position: 16·cx ≤ x < 16·cx+16, same for z |
| Blocks.PyRound | minecraft.py:139 | round() gives the nearest integer, and the even one on a tie |
| Blocks.Truncate | minecraft.py:163 | int() of a float truncates towards zero |
| Blocks.Window | minecraft.py:131-133 | the 49-entry window list holds exactly the chunks within Chebyshev distance 3 of the player's chunk |
| Blocks.DistanceSquared | minecraft.py:139-150 | the squared distance from (round(x), 0, round(z)) counts the block's own height and is zero exactly at that point |
| Blocks.WithinReach | minecraft.py:139-150 | a block within reach lies at most 5 levels from y = 0, whatever the player's height |
| Framing.UnpackLength | minecraft.py:35 | a 4-byte header reads as an unsigned value below 2^32 |
| Framing.PackLength | minecraft.py:20 | packing succeeds exactly for lengths below 2^32, gives 4 bytes, and reads back as the same length |
| Framing.UnpackThenPack | minecraft.py:20 | every 4-byte header is the packing of the length it reads as (the header codec is a bijection) |
| Framing.Frame | minecraft.py:18-21 | a frame exists exactly for payloads shorter than 2^32; it is 4 + n bytes, its header reads n and the rest is the payload |
| Framing.Recv | minecraft.py:26 | a receive returns at most k bytes, which are the next pending bytes; it is empty exactly when the peer has closed or k is 0 |
| Framing.RecvAll | minecraft.py:23-30 | succeeds exactly when n bytes are pending; then returns the first n pending bytes and leaves the rest pending; otherwise the peer has closed and all pending bytes were consumed |
| Framing.ReadFrame | minecraft.py:32-36 | the frame at the front of a stream consumes a prefix; it is Closed exactly when fewer than 4 bytes are pending, ShortPayload exactly when the header is complete but the body is shorter than it says, and otherwise a payload exactly as long as its header says; a failed read leaves nothing |
| Framing.RecvMsg | minecraft.py:32-36 | recv_msg yields ReadFrame of the pending bytes and leaves the rest pending |
| Framing.FrameRoundTrip | minecraft.py:18-36 | reading back a framed payload followed by more bytes gives the payload and leaves the more bytes |
| Meshes.CubeTrianglesInRange | minecraft.py:78-81 | cube_triangles has 36 entries, each naming one of the 24 cube corners |
| Meshes.BuildMesh | minecraft.py:95-105 | the mesh lists every block of the chunk once, in some order, with the layout of 24 vertices and 36 offset indices per block |
| Meshes.BlockCorners | minecraft.py:99-100 | one block adds 24 vertices |
| Meshes.BlockIndices | minecraft.py:101-102 | one block adds 36 indices |
| Meshes.LayoutVertices | minecraft.py:97-100 | n blocks give 24n vertices |
| Meshes.LayoutIndices | minecraft.py:97-105 | n blocks give 36n indices |
| Meshes.LayoutVertexAt | minecraft.py:97-100 | vertex j of the k-th group of 24 is corner j of the k-th block |
| Meshes.LayoutIndexAt | minecraft.py:101-105 | index j of the k-th group of 36 is cube_triangles[j] + 24k |
| Meshes.DistinctCardinality | minecraft.py:97 | iterating a set visits as many blocks as the set holds |
| Meshes.AppendCorners | minecraft.py:99-100 | the loop appends exactly the block's 24 corners |
| Meshes.AppendIndices | minecraft.py:101-102 | the loop appends exactly cube_triangles shifted by the offset |
| Meshes.MeshSize | minecraft.py:95-105 | a chunk of n blocks gives 24n vertices and 36n indices |
| Meshes.IndexStaysInBlock | minecraft.py:101-105 | every index of block k lies in [24k, 24k+24), is below the vertex count, and names a corner of block k |
| Meshes.EmptyChunkMesh | minecraft.py:94-106 | a chunk with no blocks gets an empty mesh |
| Intents.HitBlock | minecraft.py:160 | the hit position is rounded componentwise, each within one half of the float |
| Intents.PlaceIntent | minecraft.py:161-163 | place carries the hit position plus the normal, componentwise, and the chunk of the hit block |
| Intents.RemoveIntent | minecraft.py:161-165 | remove carries the hit position and its own chunk |
| Intents.IntentForKey | minecraft.py:157-165 | a message is sent exactly for a left or right click with something hovered; left places at the rounded hit position plus the normal, tagged with the hit block's chunk; right removes the hit block |
| Intents.PlaceChunkCanDifferFromPlaced | minecraft.py:161-163 | hitting (15,0,0) on its +x face places at (16,0,0) in chunk (1,0) but sends chunk (0,0) |
| Intents.PlaceInsideChunk | minecraft.py:161-163 | hit (4,5,6) with normal (0,1,0) places at (4,6,6) in chunk (0,0) |
| Client.Truthy | minecraft.py:42 | `if state:` rejects exactly a failed decode and the empty dictionary |
| Client.ApplySnapshot | minecraft.py:42-54 | a falsy message changes nothing; otherwise the chunk and player maps become exactly the message's, every key of the old or the new cache is added to the dirty set (unchanged chunks included, so every cached chunk is rebuilt on each snapshot), and the world is loaded |
| Client.Streamed | minecraft.py:112-135 | a mesh pass: exactly the window chunks that had a mesh or are cached end up materialised; a cached one that was dirty or had no mesh gets a fresh mesh of its blocks; every other one keeps its mesh |
| Client.BlocksIn | minecraft.py:141 | a chunk missing from the cache has no blocks |
| Client.ReachableBlocks | minecraft.py:140-142 | every block it yields is within reach |
| Client.CollidersAfter | minecraft.py:137-152 | every collider is within reach; every reachable block of a materialised chunk has one; colliders within reach are kept; a new one comes from a materialised chunk |
| Client.ReachableBlocksAdd | minecraft.py:140-142 | one more materialised chunk adds exactly its reachable blocks |
| Client.StreamingConverges | minecraft.py:112-135 | with the player still and no snapshot, a second mesh pass changes nothing |
| Client.StreamedMatchesWindow | minecraft.py:112-135 | when no materialised window chunk has left the cache, a pass leaves exactly the cached window chunks materialised |
| Client.StaleMeshKept | minecraft.py:116-135 | a materialised chunk gone from the cache keeps its old mesh while inside the window |
| Client.SnapshotThenEmptySnapshot | minecraft.py:42-135 | chunk (0,0) cached then emptied: it is dirty, its mesh is kept by a pass near it and destroyed by a pass far from it |
| Client.CollidersConverge | minecraft.py:137-152 | with the player still, a second collider pass changes nothing |
| Client.CollidersMatchReach | minecraft.py:137-152 | without stale colliders, a pass gives exactly the reachable blocks of the materialised chunks |
| Client.ClientState.constructor | minecraft.py:12-15 | the client starts with empty cache, dirty set, meshes (`CHUNKS`, minecraft.py:60), colliders (`BLOCK_COLLIDERS`, minecraft.py:61) and outbox, and the world not loaded |
| Client.ClientState.OnSnapshot | minecraft.py:42-54 | the state becomes ApplySnapshot of the old state; meshes, colliders and outbox are untouched |
| Client.ClientState.ListenOnce | minecraft.py:40-54 | one listener round: a closed header keeps listening with no change; a short or empty payload or a deserialiser error ends the listener with no change; a decoded message is applied |
| Client.ClientState.BuildChunkMesh | minecraft.py:93-110 | nothing for an uncached chunk; otherwise that chunk's mesh is built from its cached blocks and no other mesh changes |
| Client.ClientState.RebuildDirty | minecraft.py:116-120 | every dirty cached chunk gets a fresh mesh, the others keep theirs, and the dirty set ends empty |
| Client.ClientState.MaterialiseWindow | minecraft.py:122-127 | every cached window chunk without a mesh gets one; existing meshes are untouched |
| Client.ClientState.MaterialiseRow | minecraft.py:124-127 | for one dx, every cached chunk of that window column without a mesh gets one; existing meshes are untouched |
| Client.ClientState.DestroyFar | minecraft.py:129-135 | exactly the meshes outside the window are destroyed |
| Client.ClientState.UpdateChunkMeshes | minecraft.py:112-135 | no-op before load; afterwards the dirty set is empty, the meshes are Streamed from the old ones, and every cached materialised chunk shows exactly its cached blocks |
| Client.ClientState.AddNearColliders | minecraft.py:140-148 | every reachable block of a materialised chunk gains a collider; nothing else is added |
| Client.ClientState.AddChunkColliders | minecraft.py:141-148 | every reachable cached block of one chunk gains a collider; nothing else is added |
| Client.ClientState.RemoveFarColliders | minecraft.py:149-152 | exactly the colliders out of reach are removed |
| Client.ClientState.UpdateBlockColliders | minecraft.py:137-152 | no-op before load; afterwards the colliders are CollidersAfter of the old ones |
| Client.ClientState.Input | minecraft.py:155-165 | once loaded, a click appends IntentForKey to the outbox; nothing else changes |
| Client.ClientState.Tick | minecraft.py:179-183 | no-op before load; afterwards sends the position, runs the mesh pass for the player's chunk and the collider pass for the rounded x, z, and never changes the cache |

## Left out

- Socket creation, `connect` and `sendall` (`minecraft.py:9-10`, `:21`): network I/O. Sending is appending an intent to `outbox`; receiving reads a socket value whose future bytes are a parameter.
- `pickle.dumps` and `pickle.loads`: a foreign serialiser. Payloads are opaque bytes. Decoding a non-empty payload is a function parameter of `ClientState.ListenOnce` that may fail; the empty payload of a zero-length frame always fails, as `pickle.loads(b'')` raises.
- The listener thread, its `while True` loop, and its concurrency with the frame loop (`minecraft.py:38-41`, `:56`). One round of the loop is one atomic method call.
- Ursina rendering: `Entity`, `Mesh`, `destroy`, `load_texture`, `FirstPersonController` and `app.run`. A materialised chunk is a map entry holding its mesh value, and a collider is set membership. Whether a rebuild reuses the entity (`minecraft.py:107-110`) is not distinguished.
- Float geometry: the ±0.5 vertex offsets and the UVs (`minecraft.py:69-86`, `:100`, `:104`). A vertex is the pair (block, cube corner), and UVs are not kept.
- Float precision: player and hit positions are exact reals. `Vec3.length()` is compared as an exact squared integer distance, and Ursina's single-precision vectors are not modelled.
- `mouse.hovered_entity`, `mouse.normal` and key handling are input capture. They are parameters of `Input`.
- The `print` on first load (`minecraft.py:53`).
- Client.ClientState.ListenOnce: messages that are not dictionaries, or that hold a non-map under `CHUNK_BLOCKS`, are not modelled. The inbound message keeps only the two keys the client reads.
