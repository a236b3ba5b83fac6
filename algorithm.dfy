/**
 * The propagation scheduler's building blocks: seeding one linear window on
 * every boundary edge of a mesh, and the binary-heap priority queue that
 * hands windows out in order of their priority.
 */
module Algorithm {
  import opened Results
  import opened RealMath
  import opened Meshes
  import opened Windows

  // ---------------------------------------------------------------------
  // Boundary seeding

  /** How many of the first `k` edge slots of a triangle hold `e`. */
  function SlotCount(edges: EdgeTriple, e: EdgeId, k: nat): (n: nat)
    requires k <= 3
    ensures n == 0 <==> e !in edges[..k]
  {
    if k == 0 then 0
    else
      assert edges[..k] == edges[..k - 1] + [edges[k - 1]];
      SlotCount(edges, e, k - 1) + (if edges[k - 1] == e then 1 else 0)
  }

  /**
   * How often `e` occurs across the edge tuples of `faces`: the length of
   * the list of triangle ids the incidence table collects for `e`.
   */
  function Occurrences(faces: seq<Triangle>, e: EdgeId): nat {
    if |faces| == 0 then 0
    else Occurrences(faces[..|faces| - 1], e) + SlotCount(faces[|faces| - 1].edges, e, 3)
  }

  /** A boundary edge's id occurs exactly once across the triangles' edge tuples. */
  predicate IsBoundary(m: Mesh, e: EdgeId) {
    Occurrences(m.faces, e) == 1
  }

  /** The seed window of a boundary edge: the whole edge, at distance 0, front along the edge. */
  function Seed(e: EdgeId): (w: Window)
    ensures w.Linear? && w.edgeId == e
    ensures w.startT == 0.0 && w.endT == 1.0
    ensures w.startDistance == 0.0 && Cos(w.sourceDirection) == 0.0
  {
    CosHalfPi();
    Linear(e, 0.0, 1.0, Pi / 2.0, 0.0)
  }

  /** The seeds of the boundary edges among the first `n` edges. */
  function SeedsBelow(m: Mesh, n: nat): set<Window> {
    set e | 0 <= e < n && IsBoundary(m, e) :: Seed(e)
  }

  /** The boundary edges among the first `n` edges. */
  function BoundaryBelow(m: Mesh, n: nat): set<EdgeId> {
    set e | 0 <= e < n && IsBoundary(m, e)
  }

  /** Reads the incidence table the way the `defaultdict` does: a missing key has an empty list. */
  function Incident(table: map<EdgeId, seq<TriangleId>>, e: EdgeId): seq<TriangleId> {
    if e in table then table[e] else []
  }

  /**
   * `create_windows_at_boundaries`: the triangles of each edge are collected
   * in a table, then every edge whose list holds exactly one triangle id gets
   * a seed window.
   */
  method CreateWindowsAtBoundaries(m: Mesh) returns (windows: set<Window>)
    ensures windows == SeedsBelow(m, |m.edges|)
  {
    var trianglesByEdge: map<EdgeId, seq<TriangleId>> := map[];
    var f := 0;
    while f < |m.faces|
      invariant 0 <= f <= |m.faces|
      invariant forall e :: |Incident(trianglesByEdge, e)| == Occurrences(m.faces[..f], e)
    {
      var face := m.faces[f];
      var k := 0;
      while k < 3
        invariant 0 <= k <= 3
        invariant forall e :: |Incident(trianglesByEdge, e)| ==
                             Occurrences(m.faces[..f], e) + SlotCount(face.edges, e, k)
      {
        var edgeId := face.edges[k];
        trianglesByEdge := trianglesByEdge[edgeId := Incident(trianglesByEdge, edgeId) + [f]];
        k := k + 1;
      }
      assert m.faces[..f + 1][..f] == m.faces[..f];
      f := f + 1;
    }
    assert m.faces[..|m.faces|] == m.faces;

    windows := {};
    var e := 0;
    while e < |m.edges|
      invariant 0 <= e <= |m.edges|
      invariant windows == SeedsBelow(m, e)
    {
      SeedsBelowStep(m, e);
      if |Incident(trianglesByEdge, e)| == 1 {
        windows := windows + {Seed(e)};
      }
      e := e + 1;
    }
  }

  lemma SeedsBelowStep(m: Mesh, n: nat)
    ensures SeedsBelow(m, n + 1) == SeedsBelow(m, n) + (if IsBoundary(m, n) then {Seed(n)} else {})
    ensures BoundaryBelow(m, n + 1) == BoundaryBelow(m, n) + (if IsBoundary(m, n) then {n} else {})
  {
    var next := SeedsBelow(m, n) + (if IsBoundary(m, n) then {Seed(n)} else {});
    forall w | w in SeedsBelow(m, n + 1)
      ensures w in next
    {
      var e :| 0 <= e < n + 1 && IsBoundary(m, e) && w == Seed(e);
      if e < n {
        assert w in SeedsBelow(m, n);
      }
    }
  }

  /**
   * A window is a seed below `n` exactly when it is the seed of a boundary
   * edge below `n`: only linear windows over a whole edge at distance 0 with
   * the front along the edge, on edges whose id occurs exactly once.
   */
  lemma SeedMembership(m: Mesh, n: nat, w: Window)
    ensures w in SeedsBelow(m, n) <==> w.Linear? && w.edgeId < n && IsBoundary(m, w.edgeId) && w == Seed(w.edgeId)
  {
    if w.Linear? && w.edgeId < n && IsBoundary(m, w.edgeId) && w == Seed(w.edgeId) {
      assert w in SeedsBelow(m, n);
    }
  }

  /** Every boundary edge gets exactly one window, so there are as many windows as boundary edges. */
  lemma {:induction false} SeedCount(m: Mesh, n: nat)
    ensures |SeedsBelow(m, n)| == |BoundaryBelow(m, n)|
  {
    if n > 0 {
      SeedCount(m, n - 1);
      SeedsBelowStep(m, n - 1);
      SeedMembership(m, n - 1, Seed(n - 1));
      assert n - 1 !in BoundaryBelow(m, n - 1);
    }
  }

  /** An edge that occurs in no triangle, or in two or more, gets no window. */
  lemma InteriorEdgesGetNoSeed(m: Mesh, e: EdgeId, w: Window)
    requires Occurrences(m.faces, e) != 1
    requires w.edgeId == e
    ensures w !in SeedsBelow(m, |m.edges|)
  {
    SeedMembership(m, |m.edges|, w);
  }

  /** Every seed window whose edge resolves is at distance 0 at both ends of its edge. */
  lemma SeedsStartAtZero(m: Mesh, w: Window)
    requires w in SeedsBelow(m, |m.edges|)
    requires EdgeResolves(m, w.edgeId)
    ensures StartDistance(w, m) == 0.0 && EndDistance(w, m) == 0.0
  {
    SeedMembership(m, |m.edges|, w);
    CosHalfPi();
    PerpendicularFrontIsLevel(w, EdgeLength(m, w.edgeId), w.startT);
    PerpendicularFrontIsLevel(w, EdgeLength(m, w.edgeId), w.endT);
  }

  // ---------------------------------------------------------------------
  // The priority queue

  /** A queued window with its priority, as the `(priority, window)` tuples on the heap. */
  datatype Entry = Entry(priority: real, window: Window)

  function Parent(i: nat): nat
    requires i > 0
  {
    (i - 1) / 2
  }

  /** The `heapq` invariant: no entry has a smaller priority than its parent. */
  predicate IsHeap(h: seq<Entry>) {
    forall i :: 0 < i < |h| ==> h[Parent(i)].priority <= h[i].priority
  }

  /** The parent of `k`, if any, is no larger than the children of `k`. */
  predicate Bridged(h: seq<Entry>, k: nat) {
    k > 0 ==> forall c :: 0 < c < |h| && Parent(c) == k && k < |h| ==> h[Parent(k)].priority <= h[c].priority
  }

  /** The heap invariant, except between `k` and its parent. */
  predicate HeapBelow(h: seq<Entry>, k: nat) {
    && (forall i :: 0 < i < |h| && i != k ==> h[Parent(i)].priority <= h[i].priority)
    && Bridged(h, k)
  }

  /** The heap invariant, except between `k` and its parent or its children. */
  predicate HeapAround(h: seq<Entry>, k: nat) {
    && (forall i :: 0 < i < |h| && i != k && Parent(i) != k ==> h[Parent(i)].priority <= h[i].priority)
    && Bridged(h, k)
  }

  /** The list with the entries at `i` and `j` exchanged. */
  function Swap(h: seq<Entry>, i: nat, j: nat): (r: seq<Entry>)
    requires i < |h| && j < |h|
    ensures |r| == |h| && multiset(r) == multiset(h)
    ensures r[i] == h[j] && r[j] == h[i]
    ensures forall x :: 0 <= x < |h| && x != i && x != j ==> r[x] == h[x]
  {
    h[i := h[j]][j := h[i]]
  }

  /** Exchanging an entry with a larger parent moves the fault one level up. */
  lemma StepUp(h: seq<Entry>, k: nat)
    requires 0 < k < |h| && HeapBelow(h, k)
    requires h[k].priority < h[Parent(k)].priority
    ensures HeapBelow(Swap(h, k, Parent(k)), Parent(k))
  {
  }

  /** Exchanging an entry with its smaller child moves the fault one level down. */
  lemma StepDown(h: seq<Entry>, k: nat, child: nat)
    requires k < |h| && HeapAround(h, k)
    requires child < |h| && (child == 2 * k + 1 || child == 2 * k + 2)
    requires forall c :: 0 < c < |h| && Parent(c) == k ==> h[child].priority <= h[c].priority
    ensures HeapAround(Swap(h, k, child), child)
  {
  }

  /** At a leaf, the only fault left is with the parent. */
  lemma LeafIsBelow(h: seq<Entry>, k: nat)
    requires k < |h| && 2 * k + 1 >= |h| && HeapAround(h, k)
    ensures HeapBelow(h, k)
  {
  }

  /** The root of a heap holds a minimal priority. */
  lemma {:induction false} RootIsMinimal(h: seq<Entry>, i: nat)
    requires IsHeap(h) && i < |h|
    ensures h[0].priority <= h[i].priority
    decreases i
  {
    if i > 0 {
      RootIsMinimal(h, Parent(i));
    }
  }

  lemma RootIsMinimalEntry(h: seq<Entry>)
    requires IsHeap(h) && |h| > 0
    ensures forall e :: e in multiset(h) ==> h[0].priority <= e.priority
  {
    forall e | e in multiset(h)
      ensures h[0].priority <= e.priority
    {
      var i :| 0 <= i < |h| && h[i] == e;
      RootIsMinimal(h, i);
    }
  }

  /**
   * Two pops with no push in between come out in non-decreasing priority:
   * the second pop takes the root of what the first one left.
   */
  lemma PopsAreOrdered(before: seq<Entry>, after: seq<Entry>)
    requires |before| > 0 && |after| > 0 && IsHeap(before) && IsHeap(after)
    requires multiset(after) + multiset{before[0]} == multiset(before)
    ensures before[0].priority <= after[0].priority
  {
    RootIsMinimalEntry(before);
    assert after[0] in multiset(after);
  }

  /** `PropagationQueue`: a min-heap of entries kept in a list, as `heapq` keeps it. */
  class PropagationQueue {
    var heap: seq<Entry>

    ghost predicate Valid()
      reads this
    {
      IsHeap(heap)
    }

    constructor()
      ensures Valid()
      ensures heap == []
    {
      heap := [];
    }

    /** `__len__`: the number of queued entries. */
    function Len(): (n: nat)
      reads this
      ensures n == |multiset(heap)|
    {
      |heap|
    }

    /** `empty`: whether nothing is queued. */
    function Empty(): (b: bool)
      reads this
      ensures b <==> Len() == 0
    {
      |heap| == 0
    }

    /**
     * `push` through `heappush`: the entry is appended and moved towards the
     * root. The priority is supplied by the caller.
     */
    method Push(priority: real, window: Window)
      requires Valid()
      modifies this
      ensures Valid()
      ensures multiset(heap) == old(multiset(heap)) + multiset{Entry(priority, window)}
      ensures Len() == old(Len()) + 1
    {
      heap := heap + [Entry(priority, window)];
      SiftUp(|heap| - 1);
    }

    /**
     * `heapq._siftdown(heap, 0, pos)`: moves the entry at `pos` towards the
     * root while it is strictly smaller than its parent.
     */
    method SiftUp(pos: nat)
      requires pos < |heap| && HeapBelow(heap, pos)
      modifies this
      ensures IsHeap(heap)
      ensures multiset(heap) == old(multiset(heap))
      ensures |heap| == old(|heap|)
    {
      var k: nat := pos;
      while k > 0 && heap[k].priority < heap[Parent(k)].priority
        invariant k < |heap| && HeapBelow(heap, k)
        invariant multiset(heap) == old(multiset(heap))
        invariant |heap| == old(|heap|)
        decreases k
      {
        var p := Parent(k);
        StepUp(heap, k);
        heap := Swap(heap, k, p);
        k := p;
      }
    }

    /**
     * `heapq._siftup(heap, 0)`: moves the root entry down to a leaf, always
     * along the smaller child (the right one when they are equal), then back
     * towards the root as `_siftdown` does.
     */
    method SiftDown()
      requires |heap| > 0 && HeapAround(heap, 0)
      modifies this
      ensures IsHeap(heap)
      ensures multiset(heap) == old(multiset(heap))
      ensures |heap| == old(|heap|)
    {
      var k: nat := 0;
      while 2 * k + 1 < |heap|
        invariant k < |heap| && HeapAround(heap, k)
        invariant multiset(heap) == old(multiset(heap))
        invariant |heap| == old(|heap|)
        decreases |heap| - k
      {
        var child := 2 * k + 1;
        if child + 1 < |heap| && heap[child + 1].priority <= heap[child].priority {
          child := child + 1;
        }
        StepDown(heap, k, child);
        heap := Swap(heap, k, child);
        k := child;
      }
      LeafIsBelow(heap, k);
      SiftUp(k);
    }

    /**
     * `pop` through `heappop`: the root's window is returned; the last entry
     * takes the root's place and sifts down. Popping an empty queue is the
     * `IndexError` that `heappop` raises.
     */
    method Pop() returns (r: Result<Window>)
      requires Valid()
      modifies this
      ensures Valid()
      ensures old(Len()) == 0 ==> r == Err(IndexError) && heap == old(heap)
      ensures old(Len()) > 0 ==>
                && r == Ok(old(heap[0]).window)
                && (forall e :: e in old(multiset(heap)) ==> old(heap[0]).priority <= e.priority)
                && multiset(heap) + multiset{old(heap[0])} == old(multiset(heap))
                && Len() == old(Len()) - 1
    {
      if |heap| == 0 {
        return Err(IndexError);
      }
      RootIsMinimalEntry(heap);
      var top := heap[0];
      var last := heap[|heap| - 1];
      assert heap == heap[..|heap| - 1] + [last];
      heap := heap[..|heap| - 1];
      if |heap| > 0 {
        heap := heap[0 := last];
        SiftDown();
      }
      r := Ok(top.window);
    }
  }
}
