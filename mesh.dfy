/**
 * The index-based triangle mesh: vertices carry a 3D position and an
 * optional distance from the boundary, edges name two vertices by index,
 * and triangles name three edges by index.
 */
module Meshes {
  import opened Results
  import opened RealMath
  import opened Vectors
  import VectorLaws

  // The `NewType` ids are plain indices into the mesh's lists. Negative
  // indices, which Python would count from the end, are not modelled.
  type VertexId = nat
  type EdgeId = nat
  type TriangleId = nat

  datatype Vertex = Vertex(position: Vec3, d: Option<real>)

  datatype Edge = Edge(start: VertexId, end: VertexId)

  /** The three edge ids of a triangle, as a tuple of exactly three. */
  type EdgeTriple = s: seq<EdgeId> | |s| == 3 witness [0, 0, 0]

  datatype Triangle = Triangle(edges: EdgeTriple)

  datatype Mesh = Mesh(vertices: seq<Vertex>, edges: seq<Edge>, faces: seq<Triangle>)

  /** The lookups `get_edge_length` makes all index into their lists. */
  predicate EdgeResolves(m: Mesh, e: EdgeId) {
    && e < |m.edges|
    && m.edges[e].start < |m.vertices|
    && m.edges[e].end < |m.vertices|
  }

  /** `get_edge_length`: the length of the difference of the end positions. */
  ghost function EdgeLength(m: Mesh, e: EdgeId): (r: real)
    requires EdgeResolves(m, e)
    ensures r >= 0.0
  {
    var edge := m.edges[e];
    var v1 := m.vertices[edge.start];
    var v2 := m.vertices[edge.end];
    v1.position.Sub(Vector3(v2.position)).value.Length()
  }

  /** The same mesh with every vertex moved by the offset `d`. */
  function Translated(m: Mesh, d: Vec3): Mesh {
    m.(vertices := seq(|m.vertices|, i requires 0 <= i < |m.vertices| =>
                         Vertex(m.vertices[i].position.Add(Vector3(d)).value, m.vertices[i].d)))
  }

  /** The same mesh with edge `e` running the other way. */
  function Reversed(m: Mesh, e: EdgeId): Mesh
    requires e < |m.edges|
  {
    m.(edges := m.edges[e := Edge(m.edges[e].end, m.edges[e].start)])
  }

  // ---------------------------------------------------------------------
  // Properties of edge lengths

  /** Moving the whole mesh by one offset leaves every edge length unchanged. */
  lemma EdgeLengthTranslationInvariant(m: Mesh, d: Vec3, e: EdgeId)
    requires EdgeResolves(m, e)
    ensures EdgeResolves(Translated(m, d), e)
    ensures EdgeLength(Translated(m, d), e) == EdgeLength(m, e)
  {
    var p := m.vertices[m.edges[e].start].position;
    var q := m.vertices[m.edges[e].end].position;
    var t := Translated(m, d);
    assert t.vertices[t.edges[e].start].position == p.Add(Vector3(d)).value;
    assert t.vertices[t.edges[e].end].position == q.Add(Vector3(d)).value;
    assert p.Add(Vector3(d)).value.Sub(Vector3(q.Add(Vector3(d)).value)) == p.Sub(Vector3(q));
  }

  /** Running an edge the other way leaves its length unchanged. */
  lemma EdgeLengthReversed(m: Mesh, e: EdgeId)
    requires EdgeResolves(m, e)
    ensures EdgeResolves(Reversed(m, e), e)
    ensures EdgeLength(Reversed(m, e), e) == EdgeLength(m, e)
  {
    var p := m.vertices[m.edges[e].start].position;
    var q := m.vertices[m.edges[e].end].position;
    VectorLaws.LengthOfDifferenceSymmetric3(p, q);
  }

  /** An edge whose two ends are at the same position has length 0. */
  lemma CoincidentEndsHaveZeroLength(m: Mesh, e: EdgeId)
    requires EdgeResolves(m, e)
    requires m.vertices[m.edges[e].start].position == m.vertices[m.edges[e].end].position
    ensures EdgeLength(m, e) == 0.0
  {
    var p := m.vertices[m.edges[e].start].position;
    assert p.Sub(Vector3(p)).value == Vec3(0.0, 0.0, 0.0);
    SqrtOfSquare(0.0);
  }
}
