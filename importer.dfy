/**
 * Building a `Mesh` from a triangle soup: a list of vertex positions and a
 * list of faces, each three vertex indices. Every face contributes its three
 * sides as edges; a side shared by several faces is stored once, under the
 * key `(min, max)` of its two vertex indices, in order of first appearance.
 */
module Importer {
  import opened Results
  import opened Vectors
  import opened Meshes

  /** A face of the input: three vertex indices, as a row of the face array. */
  type FaceIndices = s: seq<VertexId> | |s| == 3 witness [0, 0, 0]

  /** The dictionary key of a side: the two vertex indices, smaller first. */
  function Key(a: VertexId, b: VertexId): (k: (VertexId, VertexId))
    ensures k.0 <= k.1
  {
    if a < b then (a, b) else (b, a)
  }

  function KeyEdge(k: (VertexId, VertexId)): Edge {
    Edge(k.0, k.1)
  }

  function EdgeKey(e: Edge): (VertexId, VertexId) {
    (e.start, e.end)
  }

  /** The `i`-th side of a face, from corner `i` to corner `i + 1` (mod 3), as an edge. */
  function FaceEdge(face: FaceIndices, i: nat): Edge
    requires i < 3
  {
    KeyEdge(Key(face[i], face[(i + 1) % 3]))
  }

  function FaceEdges(face: FaceIndices): seq<Edge> {
    [FaceEdge(face, 0), FaceEdge(face, 1), FaceEdge(face, 2)]
  }

  /** The sides of all faces, face by face, with repetitions. */
  function AllFaceEdges(faces: seq<FaceIndices>): seq<Edge> {
    if |faces| == 0 then [] else AllFaceEdges(faces[..|faces| - 1]) + FaceEdges(faces[|faces| - 1])
  }

  /** The elements of `es` in order of first appearance, each once. */
  function FirstOccurrences(es: seq<Edge>): seq<Edge> {
    if |es| == 0 then []
    else
      var firsts := FirstOccurrences(es[..|es| - 1]);
      if es[|es| - 1] in firsts then firsts else firsts + [es[|es| - 1]]
  }

  predicate NoDuplicates(es: seq<Edge>) {
    forall i, j :: 0 <= i < j < |es| ==> es[i] != es[j]
  }

  predicate Ordered(es: seq<Edge>) {
    forall i :: 0 <= i < |es| ==> es[i].start <= es[i].end
  }

  /** `edge_map` and `edge_list` agree: the keys are exactly the listed edges, at their ids. */
  predicate TableAgrees(edgeMap: map<(VertexId, VertexId), EdgeId>, edgeList: seq<Edge>) {
    && (forall k {:trigger edgeMap[k]} :: k in edgeMap ==> edgeMap[k] < |edgeList| && edgeList[edgeMap[k]] == KeyEdge(k))
    && (forall i :: 0 <= i < |edgeList| ==> EdgeKey(edgeList[i]) in edgeMap)
  }

  /** `edges` are ids into `edgeList` of the edges `sides`, in order. */
  predicate NamesSides(edges: seq<EdgeId>, edgeList: seq<Edge>, sides: seq<Edge>) {
    && |edges| == |sides|
    && forall k :: 0 <= k < |edges| ==> edges[k] < |edgeList| && edgeList[edges[k]] == sides[k]
  }

  predicate Extends(longer: seq<Edge>, shorter: seq<Edge>) {
    |shorter| <= |longer| && longer[..|shorter|] == shorter
  }

  /** The first `n` sides of a face, in the order the loop visits them. */
  function SidesUpTo(face: FaceIndices, n: nat): (r: seq<Edge>)
    requires n <= 3
    ensures |r| == n
  {
    if n == 0 then [] else SidesUpTo(face, n - 1) + [FaceEdge(face, n - 1)]
  }

  /**
   * The table step for one side, given by its key: an unseen key gets the
   * next edge id and its edge is appended; either way the id now stored for
   * the key is returned.
   */
  method LookupOrAdd(edgeMap: map<(VertexId, VertexId), EdgeId>, edgeList: seq<Edge>, key: (VertexId, VertexId),
                 ghost seen: seq<Edge>)
    returns (edgeMap': map<(VertexId, VertexId), EdgeId>, edgeList': seq<Edge>, edgeId: EdgeId)
    requires TableAgrees(edgeMap, edgeList)
    requires edgeList == FirstOccurrences(seen)
    ensures TableAgrees(edgeMap', edgeList')
    ensures edgeList' == FirstOccurrences(seen + [KeyEdge(key)])
    ensures Extends(edgeList', edgeList)
    ensures edgeId < |edgeList'| && edgeList'[edgeId] == KeyEdge(key)
  {
    FirstOccurrencesAppend(seen, KeyEdge(key));
    edgeMap', edgeList' := edgeMap, edgeList;
    if key !in edgeMap' {
      forall i | 0 <= i < |edgeList|
        ensures edgeList[i] != KeyEdge(key)
      {
        assert EdgeKey(edgeList[i]) in edgeMap;
      }
      edgeId := |edgeList'|;
      edgeMap' := edgeMap'[key := edgeId];
      edgeList' := edgeList' + [Edge(key.0, key.1)];
      assert edgeList'[..|edgeList|] == edgeList;
      forall k | k in edgeMap'
        ensures edgeMap'[k] < |edgeList'| && edgeList'[edgeMap'[k]] == KeyEdge(k)
      {
        if k != key {
          assert edgeList'[edgeMap[k]] == edgeList[edgeMap[k]];
        }
      }
    } else {
      assert edgeList[edgeMap[key]] == KeyEdge(key);
    }
    edgeId := edgeMap'[key];
  }

  /**
   * The body of the loop over `range(3)`: side `i` of `face` runs from
   * corner `i` to corner `i + 1` (mod 3); its id is looked up or added and
   * appended to the triangle's ids.
   */
  method VisitSide(edgeMap: map<(VertexId, VertexId), EdgeId>, edgeList: seq<Edge>, triEdges: seq<EdgeId>,
                   face: FaceIndices, i: nat, ghost processed: seq<Edge>)
    returns (edgeMap': map<(VertexId, VertexId), EdgeId>, edgeList': seq<Edge>, triEdges': seq<EdgeId>)
    requires i < 3
    requires TableAgrees(edgeMap, edgeList)
    requires edgeList == FirstOccurrences(processed + SidesUpTo(face, i))
    requires NamesSides(triEdges, edgeList, SidesUpTo(face, i))
    ensures TableAgrees(edgeMap', edgeList')
    ensures edgeList' == FirstOccurrences(processed + SidesUpTo(face, i + 1))
    ensures Extends(edgeList', edgeList)
    ensures NamesSides(triEdges', edgeList', SidesUpTo(face, i + 1))
  {
    var a, b := face[i], face[(i + 1) % 3];
    var key := if a < b then (a, b) else (b, a);
    assert KeyEdge(key) == FaceEdge(face, i);
    var edgeId;
    edgeMap', edgeList', edgeId := LookupOrAdd(edgeMap, edgeList, key, processed + SidesUpTo(face, i));
    SidesUpToStep(processed, face, i);
    KeepsNames(triEdges, edgeList, edgeList', SidesUpTo(face, i));
    NamesSidesAppend(triEdges, edgeList', SidesUpTo(face, i), edgeId, FaceEdge(face, i));
    triEdges' := triEdges + [edgeId];
  }

  /**
   * One pass of the loop over `faces`: the three sides of `face` are
   * looked up or added in turn, and their ids collected into a triangle.
   */
  method AddFace(edgeMap: map<(VertexId, VertexId), EdgeId>, edgeList: seq<Edge>, face: FaceIndices,
                 ghost processed: seq<Edge>)
    returns (edgeMap': map<(VertexId, VertexId), EdgeId>, edgeList': seq<Edge>, triangle: Triangle)
    requires TableAgrees(edgeMap, edgeList)
    requires edgeList == FirstOccurrences(processed)
    ensures TableAgrees(edgeMap', edgeList')
    ensures edgeList' == FirstOccurrences(processed + FaceEdges(face))
    ensures Extends(edgeList', edgeList)
    ensures NamesSides(triangle.edges, edgeList', FaceEdges(face))
  {
    edgeMap', edgeList' := edgeMap, edgeList;
    var triEdges: seq<EdgeId> := [];
    assert processed + SidesUpTo(face, 0) == processed;
    var i := 0;
    while i < 3
      invariant 0 <= i <= 3
      invariant edgeList' == FirstOccurrences(processed + SidesUpTo(face, i))
      invariant TableAgrees(edgeMap', edgeList')
      invariant Extends(edgeList', edgeList)
      invariant |triEdges| == i
      invariant NamesSides(triEdges, edgeList', SidesUpTo(face, i))
    {
      var edgeList0 := edgeList';
      edgeMap', edgeList', triEdges := VisitSide(edgeMap', edgeList', triEdges, face, i, processed);
      ExtendsTransitive(edgeList', edgeList0, edgeList);
      i := i + 1;
    }
    SidesUpToAll(face);
    assert [triEdges[0], triEdges[1], triEdges[2]] == triEdges;
    triangle := Triangle([triEdges[0], triEdges[1], triEdges[2]]);
  }

  /** One vertex per position, with no distance assigned yet. */
  function InitialVertices(positions: seq<Vec3>): (vs: seq<Vertex>)
    ensures |vs| == |positions|
    ensures forall i :: 0 <= i < |positions| ==> vs[i] == Vertex(positions[i], None)
  {
    seq(|positions|, i requires 0 <= i < |positions| => Vertex(positions[i], None))
  }

  /**
   * `build_mesh_from_trimesh`, with the positions and faces given directly.
   * The vertices carry no distance yet; the edges are the faces' sides
   * without repetition, in order of first appearance; triangle `i` names the
   * edges of the sides of face `i`.
   */
  method BuildMesh(positions: seq<Vec3>, faces: seq<FaceIndices>) returns (m: Mesh)
    ensures |m.vertices| == |positions|
    ensures forall i :: 0 <= i < |positions| ==> m.vertices[i] == Vertex(positions[i], None)
    ensures m.edges == FirstOccurrences(AllFaceEdges(faces))
    ensures |m.faces| == |faces|
    ensures forall i, k :: 0 <= i < |faces| && 0 <= k < 3 ==>
              m.faces[i].edges[k] < |m.edges| && m.edges[m.faces[i].edges[k]] == FaceEdge(faces[i], k)
    ensures NoDuplicates(m.edges) && Ordered(m.edges)
    ensures |m.edges| <= 3 * |faces|
  {
    var vertices := InitialVertices(positions);

    var edgeMap: map<(VertexId, VertexId), EdgeId> := map[];
    var edgeList: seq<Edge> := [];
    var triangles: seq<Triangle> := [];

    var f := 0;
    while f < |faces|
      invariant 0 <= f <= |faces|
      invariant edgeList == FirstOccurrences(AllFaceEdges(faces[..f]))
      invariant TableAgrees(edgeMap, edgeList)
      invariant FacesNamed(triangles, edgeList, faces[..f])
    {
      var edgeList0 := edgeList;
      var triangle;
      edgeMap, edgeList, triangle := AddFace(edgeMap, edgeList, faces[f], AllFaceEdges(faces[..f]));
      AllFaceEdgesStep(faces, f);
      FacesNamedAppend(triangles, edgeList0, edgeList, faces[..f], triangle, faces[f]);
      assert faces[..f + 1] == faces[..f] + [faces[f]];
      triangles := triangles + [triangle];
      f := f + 1;
    }

    assert faces[..|faces|] == faces;
    m := Mesh(vertices, edgeList, triangles);
    FirstOccurrencesNoDuplicates(AllFaceEdges(faces));
    AllFaceEdgesOrdered(faces);
    FirstOccurrencesOrdered(AllFaceEdges(faces));
    FirstOccurrencesLength(AllFaceEdges(faces));
    AllFaceEdgesLength(faces);
    FacesNamedSides(triangles, edgeList, faces);
  }

  /** Triangle `j` names the sides of face `j`, for every face. */
  predicate FacesNamed(triangles: seq<Triangle>, edgeList: seq<Edge>, faces: seq<FaceIndices>) {
    && |triangles| == |faces|
    && forall j :: 0 <= j < |faces| ==> NamesSides(triangles[j].edges, edgeList, FaceEdges(faces[j]))
  }

  lemma FacesNamedAppend(triangles: seq<Triangle>, shorter: seq<Edge>, longer: seq<Edge>,
                         faces: seq<FaceIndices>, triangle: Triangle, face: FaceIndices)
    requires FacesNamed(triangles, shorter, faces) && Extends(longer, shorter)
    requires NamesSides(triangle.edges, longer, FaceEdges(face))
    ensures FacesNamed(triangles + [triangle], longer, faces + [face])
  {
    var triangles', faces' := triangles + [triangle], faces + [face];
    forall j | 0 <= j < |faces'|
      ensures NamesSides(triangles'[j].edges, longer, FaceEdges(faces'[j]))
    {
      if j < |faces| {
        assert triangles'[j] == triangles[j] && faces'[j] == faces[j];
        KeepsNames(triangles[j].edges, shorter, longer, FaceEdges(faces[j]));
      }
    }
  }

  lemma FacesNamedSides(triangles: seq<Triangle>, edgeList: seq<Edge>, faces: seq<FaceIndices>)
    requires FacesNamed(triangles, edgeList, faces)
    ensures forall i, k :: 0 <= i < |faces| && 0 <= k < 3 ==>
              triangles[i].edges[k] < |edgeList| && edgeList[triangles[i].edges[k]] == FaceEdge(faces[i], k)
  {
    forall i, k | 0 <= i < |faces| && 0 <= k < 3
      ensures triangles[i].edges[k] < |edgeList| && edgeList[triangles[i].edges[k]] == FaceEdge(faces[i], k)
    {
      assert NamesSides(triangles[i].edges, edgeList, FaceEdges(faces[i]));
      FaceEdgesAt(faces[i], k);
    }
  }

  lemma AllFaceEdgesStep(faces: seq<FaceIndices>, f: nat)
    requires f < |faces|
    ensures AllFaceEdges(faces[..f + 1]) == AllFaceEdges(faces[..f]) + FaceEdges(faces[f])
  {
    assert faces[..f + 1][..f] == faces[..f];
  }

  lemma NamesSidesAppend(edges: seq<EdgeId>, edgeList: seq<Edge>, sides: seq<Edge>, id: EdgeId, e: Edge)
    requires NamesSides(edges, edgeList, sides)
    requires id < |edgeList| && edgeList[id] == e
    ensures NamesSides(edges + [id], edgeList, sides + [e])
  {
  }

  lemma KeepsNames(edges: seq<EdgeId>, shorter: seq<Edge>, longer: seq<Edge>, sides: seq<Edge>)
    requires NamesSides(edges, shorter, sides) && Extends(longer, shorter)
    ensures NamesSides(edges, longer, sides)
  {
    forall k | 0 <= k < |edges|
      ensures edges[k] < |longer| && longer[edges[k]] == sides[k]
    {
      assert longer[..|shorter|][edges[k]] == shorter[edges[k]];
    }
  }

  // ---------------------------------------------------------------------
  // Properties of the specification functions

  /** The key names the same two vertices, and does not depend on the direction of the side. */
  lemma KeyIsUnordered(a: VertexId, b: VertexId)
    ensures multiset{Key(a, b).0, Key(a, b).1} == multiset{a, b}
    ensures Key(a, b) == Key(b, a)
  {
  }

  lemma FaceEdgesAt(face: FaceIndices, k: nat)
    requires k < 3
    ensures FaceEdges(face)[k] == FaceEdge(face, k)
  {
    if k == 0 {
    } else if k == 1 {
    } else {
    }
  }

  lemma SidesUpToAll(face: FaceIndices)
    ensures SidesUpTo(face, 3) == FaceEdges(face)
  {
    assert SidesUpTo(face, 1) == [FaceEdge(face, 0)];
    assert SidesUpTo(face, 2) == [FaceEdge(face, 0), FaceEdge(face, 1)];
  }

  lemma SidesUpToStep(processed: seq<Edge>, face: FaceIndices, i: nat)
    requires i < 3
    ensures processed + SidesUpTo(face, i) + [FaceEdge(face, i)] == processed + SidesUpTo(face, i + 1)
  {
  }

  lemma ExtendsTransitive(a: seq<Edge>, b: seq<Edge>, c: seq<Edge>)
    requires Extends(a, b) && Extends(b, c)
    ensures Extends(a, c)
  {
    assert a[..|c|] == a[..|b|][..|c|];
  }

  lemma FirstOccurrencesAppend(es: seq<Edge>, e: Edge)
    ensures FirstOccurrences(es + [e]) ==
            if e in FirstOccurrences(es) then FirstOccurrences(es) else FirstOccurrences(es) + [e]
  {
    assert (es + [e])[..|es|] == es;
  }

  lemma {:induction false} FirstOccurrencesSameElements(es: seq<Edge>)
    ensures forall e :: e in FirstOccurrences(es) <==> e in es
  {
    if |es| > 0 {
      var init := es[..|es| - 1];
      FirstOccurrencesSameElements(init);
      assert es == init + [es[|es| - 1]];
    }
  }

  lemma {:induction false} FirstOccurrencesNoDuplicates(es: seq<Edge>)
    ensures NoDuplicates(FirstOccurrences(es))
  {
    if |es| > 0 {
      FirstOccurrencesNoDuplicates(es[..|es| - 1]);
    }
  }

  lemma {:induction false} FirstOccurrencesLength(es: seq<Edge>)
    ensures |FirstOccurrences(es)| <= |es|
  {
    if |es| > 0 {
      FirstOccurrencesLength(es[..|es| - 1]);
    }
  }

  lemma {:induction false} FirstOccurrencesOfDistinct(es: seq<Edge>)
    requires NoDuplicates(es)
    ensures FirstOccurrences(es) == es
  {
    if |es| > 0 {
      var init := es[..|es| - 1];
      FirstOccurrencesOfDistinct(init);
      FirstOccurrencesSameElements(init);
      assert es == init + [es[|es| - 1]];
    }
  }

  lemma {:induction false} AllFaceEdgesLength(faces: seq<FaceIndices>)
    ensures |AllFaceEdges(faces)| == 3 * |faces|
  {
    if |faces| > 0 {
      AllFaceEdgesLength(faces[..|faces| - 1]);
    }
  }

  lemma {:induction false} AllFaceEdgesOrdered(faces: seq<FaceIndices>)
    ensures Ordered(AllFaceEdges(faces))
  {
    if |faces| > 0 {
      AllFaceEdgesOrdered(faces[..|faces| - 1]);
    }
  }

  lemma FirstOccurrencesOrdered(es: seq<Edge>)
    requires Ordered(es)
    ensures Ordered(FirstOccurrences(es))
  {
    FirstOccurrencesSameElements(es);
    var firsts := FirstOccurrences(es);
    forall i | 0 <= i < |firsts|
      ensures firsts[i].start <= firsts[i].end
    {
      assert firsts[i] in es;
    }
  }
}
