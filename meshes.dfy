/**
 * The geometry of a chunk mesh as build_chunk_mesh lays it out: every block
 * contributes the 24 corners of a cube (four per face) and 36 triangle
 * indices (two triangles per face) shifted by 24 times the block's place.
 */
module Meshes {
  import opened Blocks

  /** Vertices each block adds (len(cube_vertices)). */
  const VerticesPerBlock: int := 24
  /** Triangle indices each block adds (len(cube_triangles)). */
  const IndicesPerBlock: int := 36

  /** cube_triangles: two triangles per face over that face's four corners. */
  const CubeTriangles: seq<int> :=
    [0, 1, 2, 2, 3, 0, 4, 5, 6, 6, 7, 4, 8, 9, 10, 10, 11, 8,
     12, 13, 14, 14, 15, 12, 16, 17, 18, 18, 19, 16, 20, 21, 22, 22, 23, 20]

  /**
   * A mesh vertex: corner `corner` of cube_vertices moved to `block`. The
   * corner's float offsets (plus or minus one half) are not modelled.
   */
  datatype Vertex = Vertex(block: Block, corner: int)

  /**
   * A chunk mesh: the blocks in the order the chunk's set was iterated, the
   * vertex list and the triangle index list. UVs are not modelled.
   */
  datatype Mesh = Mesh(order: seq<Block>, vertices: seq<Vertex>, triangles: seq<int>)

  predicate Distinct(s: seq<Block>) {
    forall i, j :: 0 <= i < j < |s| ==> s[i] != s[j]
  }

  function Elements(s: seq<Block>): set<Block> {
    set b | b in s
  }

  /** The 24 vertices one block adds: the cube's corners moved to the block. */
  function BlockCorners(b: Block): (vs: seq<Vertex>)
    ensures |vs| == VerticesPerBlock
  {
    seq(VerticesPerBlock, k requires 0 <= k < VerticesPerBlock => Vertex(b, k))
  }

  /** The 36 indices one block adds: cube_triangles shifted by the running offset. */
  function BlockIndices(offset: int): (ts: seq<int>)
    ensures |ts| == IndicesPerBlock
  {
    seq(IndicesPerBlock, k requires 0 <= k < IndicesPerBlock => CubeTriangles[k] + offset)
  }

  /** The vertex list of build_chunk_mesh for blocks visited in `order`. */
  function LayoutVertices(order: seq<Block>): (vs: seq<Vertex>)
    ensures |vs| == VerticesPerBlock * |order|
  {
    if order == [] then []
    else LayoutVertices(order[..|order| - 1]) + BlockCorners(order[|order| - 1])
  }

  /** The index list of build_chunk_mesh for n blocks, the k-th shifted by 24k. */
  function LayoutIndices(n: nat): (ts: seq<int>)
    ensures |ts| == IndicesPerBlock * n
  {
    if n == 0 then []
    else LayoutIndices(n - 1) + BlockIndices(VerticesPerBlock * (n - 1))
  }

  /** The layout of build_chunk_mesh for the mesh's own block order. */
  predicate LaidOut(m: Mesh) {
    m.vertices == LayoutVertices(m.order) && m.triangles == LayoutIndices(|m.order|)
  }

  /** m is a mesh built from the block set `blocks`, each block once. */
  predicate MeshOf(m: Mesh, blocks: set<Block>) {
    LaidOut(m) && Distinct(m.order) && Elements(m.order) == blocks
  }

  /** A mesh laid out from some iteration order of its own blocks. */
  predicate WellFormed(m: Mesh) {
    MeshOf(m, Elements(m.order))
  }

  lemma CubeTrianglesInRange()
    ensures |CubeTriangles| == IndicesPerBlock
    ensures forall j :: 0 <= j < IndicesPerBlock ==> 0 <= CubeTriangles[j] < VerticesPerBlock
  {
  }

  /** Vertex j of the k-th block's group of 24 is corner j of that block. */
  lemma {:induction false} LayoutVertexAt(order: seq<Block>, k: int, j: int)
    requires 0 <= k < |order| && 0 <= j < VerticesPerBlock
    ensures LayoutVertices(order)[VerticesPerBlock * k + j] == Vertex(order[k], j)
  {
    var n := |order| - 1;
    var front := order[..n];
    assert LayoutVertices(order) == LayoutVertices(front) + BlockCorners(order[n]);
    if k < n {
      LayoutVertexAt(front, k, j);
      assert order[k] == front[k];
    }
  }

  /** Index j of the k-th block's group of 36 is cube_triangles[j] shifted by 24k. */
  lemma {:induction false} LayoutIndexAt(n: nat, k: int, j: int)
    requires 0 <= k < n && 0 <= j < IndicesPerBlock
    ensures LayoutIndices(n)[IndicesPerBlock * k + j] == CubeTriangles[j] + VerticesPerBlock * k
  {
    assert LayoutIndices(n) == LayoutIndices(n - 1) + BlockIndices(VerticesPerBlock * (n - 1));
    if k < n - 1 {
      LayoutIndexAt(n - 1, k, j);
    }
  }

  /** A sequence without repetitions has as many elements as its set. */
  lemma {:induction false} DistinctCardinality(s: seq<Block>)
    requires Distinct(s)
    ensures |Elements(s)| == |s|
  {
    if s != [] {
      var t := s[..|s| - 1];
      var last := s[|s| - 1];
      assert Distinct(t);
      DistinctCardinality(t);
      assert last !in Elements(t);
      assert Elements(s) == Elements(t) + {last} by {
        assert s == t + [last];
      }
    }
  }

  /** A chunk of n blocks gives 24n vertices and 36n triangle indices. */
  lemma MeshSize(m: Mesh, blocks: set<Block>)
    requires MeshOf(m, blocks)
    ensures |m.vertices| == VerticesPerBlock * |blocks|
    ensures |m.triangles| == IndicesPerBlock * |blocks|
  {
    DistinctCardinality(m.order);
  }

  /**
   * The j-th index of the k-th block lies in [24k, 24k + 24), below the
   * vertex count, and names a corner of that same block.
   */
  lemma IndexStaysInBlock(m: Mesh, k: int, j: int)
    requires LaidOut(m)
    requires 0 <= k < |m.order| && 0 <= j < IndicesPerBlock
    ensures IndicesPerBlock * k + j < |m.triangles|
    ensures VerticesPerBlock * k <= m.triangles[IndicesPerBlock * k + j] < VerticesPerBlock * k + VerticesPerBlock
    ensures m.triangles[IndicesPerBlock * k + j] < |m.vertices|
    ensures m.vertices[m.triangles[IndicesPerBlock * k + j]].block == m.order[k]
  {
    CubeTrianglesInRange();
    LayoutIndexAt(|m.order|, k, j);
    var c := CubeTriangles[j];
    assert m.triangles[IndicesPerBlock * k + j] == VerticesPerBlock * k + c;
    LayoutVertexAt(m.order, k, c);
  }

  /** A chunk with no blocks gets an empty mesh. */
  lemma EmptyChunkMesh(m: Mesh)
    requires MeshOf(m, {})
    ensures m.vertices == [] && m.triangles == []
  {
    MeshSize(m, {});
  }

  /** `for v in cube_vertices: vertices.append(v + block)`: the block's 24 corners, appended. */
  method AppendCorners(vertices: seq<Vertex>, b: Block) returns (r: seq<Vertex>)
    ensures r == vertices + BlockCorners(b)
  {
    r := vertices;
    for j := 0 to VerticesPerBlock
      invariant r == vertices + BlockCorners(b)[..j]
    {
      r := r + [Vertex(b, j)];
      assert BlockCorners(b)[..j + 1] == BlockCorners(b)[..j] + [Vertex(b, j)];
    }
    assert BlockCorners(b)[..VerticesPerBlock] == BlockCorners(b);
  }

  /** `for t in cube_triangles: triangles.append(t + offset)`: 36 shifted indices, appended. */
  method AppendIndices(triangles: seq<int>, offset: int) returns (r: seq<int>)
    ensures r == triangles + BlockIndices(offset)
  {
    r := triangles;
    for j := 0 to IndicesPerBlock
      invariant r == triangles + BlockIndices(offset)[..j]
    {
      r := r + [CubeTriangles[j] + offset];
      assert BlockIndices(offset)[..j + 1] == BlockIndices(offset)[..j] + [CubeTriangles[j] + offset];
    }
    assert BlockIndices(offset)[..IndicesPerBlock] == BlockIndices(offset);
  }

  /**
   * build_chunk_mesh's loop: for each block of the set, append its 24
   * vertices and its 36 indices shifted by the running offset, then add 24
   * to the offset.
   */
  method BuildMesh(blocks: set<Block>) returns (m: Mesh)
    ensures MeshOf(m, blocks)
  {
    var order: seq<Block> := [];
    var vertices: seq<Vertex> := [];
    var triangles: seq<int> := [];
    var offset := 0;
    var remaining := blocks;
    while remaining != {}
      invariant Elements(order) + remaining == blocks
      invariant Elements(order) !! remaining
      invariant Distinct(order)
      invariant offset == VerticesPerBlock * |order|
      invariant vertices == LayoutVertices(order)
      invariant triangles == LayoutIndices(|order|)
      decreases remaining
    {
      var b :| b in remaining;
      vertices := AppendCorners(vertices, b);
      triangles := AppendIndices(triangles, offset);
      ghost var order0 := order;
      order := order + [b];
      assert order[..|order| - 1] == order0;
      assert Elements(order) == Elements(order0) + {b} by {
        assert forall x :: x in order <==> x in order0 || x == b;
      }
      remaining := remaining - {b};
      offset := offset + VerticesPerBlock;
    }
    m := Mesh(order, vertices, triangles);
  }
}
