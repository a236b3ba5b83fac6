# contour_toolpath, modelled in Dafny

contour_toolpath is meant to compute a geodesic distance field over a
triangle mesh. It would measure distance from the mesh boundary with the
continuous-Dijkstra "window" method, as a basis for contour toolpaths. Its
propagation step is unfinished: `window_propagation.py` has a function with
no body, and `merge_windows`/`refine_mesh` raise `NotImplementedError`. This
project models the finished, discrete and closed-form layer under that method.

- **Vector algebra.** `Vec2D`/`Vec3D`: an operator with a float operand or a
  same-dimension vector operand, and `TypeError` for any other operand.
  `__truediv__` refuses zero with `ValueError`. Also `length`, `normalized`,
  `dot`, `cross` and `project`.
- **The index-based mesh.** Vertices, edges and triangles refer to each other
  by list index. `get_edge_length` is the distance between an edge's two end
  positions.
- **Windows.** `WindowCircular` and `WindowLinear` are the two kinds of
  distance front on an edge. `get_start_distance`/`get_end_distance` give the
  distance at the two ends of a window's interval.
- **Mesh import.** `build_mesh_from_trimesh` stores every side shared by
  several faces once. Its key is `(min, max)` of the side's vertex indices.
  Edges are kept in order of first appearance.
- **Boundary seeding and the priority queue.** `create_windows_at_boundaries`
  puts one linear seed window on every edge id that occurs exactly once
  across the triangles' edge tuples.
  `PropagationQueue` is a `heapq` min-heap.

## How the model is built

| module | file | flavour |
|---|---|---|
| `Results` | `results.dfy` | `Option`, and `Result` with the exceptions the model represents (`TypeError`, `ValueError`, `IndexError`) |
| `RealMath` | `realmath.dfy` | reals for floats; `**2` as `Sq`, `** 0.5` as `Sqrt`, `math.cos` as `Cos`, `math.pi` as the literal `Pi` |
| `Vectors` | `vector.dfy` | datatypes with member functions; a Python right operand is an `Operand` value |
| `VectorLaws` | `vector_laws.dfy` | lemmas about the vector operations |
| `Meshes` | `mesh.dfy` | datatypes for the mesh records, `EdgeLength` and its lemmas |
| `Windows` | `window.dfy` | the `Window` sum type, both distance functions, and the test cases of `window_test.py` |
| `Importer` | `importer.dfy` | imperative: the two nested loops as methods over the key table and the edge list |
| `Algorithm` | `algorithm.dfy` | imperative: the seeding loops, and `PropagationQueue` as a class whose `heap` field is a `seq` |

**Square roots and cosine.** Real arithmetic cannot prove that a square root
exists. So `Sqrt` is a function chosen to be non-negative, and to be a square
root wherever one exists (`HasSqrt`). Lemmas that need `Sqrt(x)² == x` assume
`HasSqrt(x)`. `Sqrt(r²) == r` for `r >= 0` is proved outright.

`Cos` is only known at two angles: `cos(π/2) = 0`, the seed direction in
`algorithm.py`, and `cos(π/4) = √2/2`, used by `window_test.py`. It is chosen from the functions with those two values. A
witness shows that such functions exist.

**How the importer is specified.** `build_mesh_from_trimesh` is stated in
terms of two functions:

- `AllFaceEdges`: the faces' sides, with repeats;
- `FirstOccurrences(AllFaceEdges(faces))`: the edges the loops produce.

The method is proved to build exactly those edges. Separate lemmas give that
list its properties: no duplicates, ordered end points, and at most three
edges per face.

**How seeding is specified.** `create_windows_at_boundaries` is stated in terms of
`Occurrences`, the number of times an edge id appears across all triangles'
edge tuples. The incidence table collects that many triangle ids for the edge.

**The queue.** The queue's `Valid()` is the `heapq` invariant.
`SiftUp`/`SiftDown` make the same choices as `heapq._siftdown`/`heapq._siftup`.
heapq moves a hole and writes the entry once; the model swaps at each step.
The choices are:
- the downward pass always chooses the smaller child, the right one when they
  are equal;
- the entry then moves back up.

`push` as written (`algorithm.py:68-69`) raises `AttributeError` for every
window. It reads `start_distance` and `end_distance`, and `WindowLinear` has
no `end_distance`, while `WindowCircular` has neither. So the model's `Push`
takes the priority as an argument.

## Model

| member | source | states |
|---|---|---|
| `Vectors.Vec2.Add` | mathutil/vector.py:10-16 | succeeds exactly for a float or a 2D vector operand; anything else, an int included, is `TypeError` |
| `Vectors.Vec2.Sub` | mathutil/vector.py:18-24 | succeeds exactly for a float or a 2D vector operand; anything else is `TypeError` |
| `Vectors.Vec2.Mul` | mathutil/vector.py:26-32 | succeeds exactly for a float or a 2D vector operand; anything else is `TypeError` |
| `Vectors.Vec2.Div` | mathutil/vector.py:34-37 | succeeds exactly for a nonzero float or int; a zero number, and only a zero number, is `ValueError` |
| `Vectors.Vec2.Length` | mathutil/vector.py:42-44 | the length is never negative |
| `Vectors.Vec2.Normalized` | mathutil/vector.py:46-51 | fails, with `ValueError`, exactly for a zero-length vector; otherwise the result times the length is the vector again, so it is the vector scaled by `1/length` |
| `Vectors.Vec2.Project` | mathutil/vector.py:57-61 | fails exactly when the target has length 0, and then with `ValueError`; otherwise the result is parallel to the target (`p.x·o.y == p.y·o.x`) |
| `Vectors.Vec2.Dot` | mathutil/vector.py:53-55 | a vector's dot product with itself is never negative |
| `Vectors.Vec3.Add` | mathutil/vector.py:69-75 | succeeds exactly for a float or a 3D vector operand; anything else is `TypeError` |
| `Vectors.Vec3.Sub` | mathutil/vector.py:77-83 | succeeds exactly for a float or a 3D vector operand; anything else is `TypeError` |
| `Vectors.Vec3.Mul` | mathutil/vector.py:89-95 | succeeds exactly for a float or a 3D vector operand; anything else is `TypeError` |
| `Vectors.Vec3.Div` | mathutil/vector.py:97-100 | succeeds exactly for a nonzero float or int; a zero number, and only a zero number, is `ValueError` |
| `Vectors.Vec3.Length` | mathutil/vector.py:105-107 | the length is never negative |
| `Vectors.Vec3.Normalized` | mathutil/vector.py:109-114 | fails, with `ValueError`, exactly for a zero-length vector; otherwise the result times the length is the vector again |
| `Vectors.Vec3.Project` | mathutil/vector.py:128-132 | fails exactly when the target has length 0, and then with `ValueError`; otherwise the result is parallel to the target (its cross product with the target is zero) |
| `Vectors.Vec3.Dot` | mathutil/vector.py:116-118 | a vector's dot product with itself is never negative |
| `Vectors.Vec3.Cross` | mathutil/vector.py:120-126 | a vector crossed with itself is the zero vector |
| `Vectors.Vec3.Neg` | mathutil/vector.py:85-87 | `-v` is the same as `v * -1.0` |
| `VectorLaws.AddThenSubRoundTrip2` | mathutil/vector.py:10-24 | adding and then subtracting the same float or 2D vector gives back the original |
| `VectorLaws.AddThenSubRoundTrip3` | mathutil/vector.py:69-83 | adding and then subtracting the same float or 3D vector gives back the original |
| `VectorLaws.FloatActsOnEveryComponent2` | mathutil/vector.py:10-32 | a float operand acts like the vector with that float in every component, for +, - and * |
| `VectorLaws.FloatActsOnEveryComponent3` | mathutil/vector.py:69-95 | the same for 3D vectors |
| `VectorLaws.NonFloatScalarsRejected` | mathutil/vector.py:10-95 | an int operand makes +, - and * raise `TypeError`, and so does a vector of the other dimension for + and *; an int divisor acts like the same float |
| `VectorLaws.MulByVectorIsComponentwise2` | mathutil/vector.py:29-30 | multiplying by a 2D vector is componentwise (and so symmetric), not a dot product |
| `VectorLaws.MulByVectorIsComponentwise3` | mathutil/vector.py:92-93 | multiplying by a 3D vector is componentwise (and so symmetric) |
| `VectorLaws.DivThenMulRoundTrip2` | mathutil/vector.py:34-37 | dividing by a nonzero float divides every component: multiplying back restores the vector |
| `VectorLaws.DivThenMulRoundTrip3` | mathutil/vector.py:97-100 | the same for 3D vectors |
| `VectorLaws.DotCommutative2` | mathutil/vector.py:53-55 | `a.dot(b) == b.dot(a)` |
| `VectorLaws.DotCommutative3` | mathutil/vector.py:116-118 | `a.dot(b) == b.dot(a)` |
| `VectorLaws.DotSelfIsLengthSquared2` | mathutil/vector.py:42-55 | `v.dot(v)` is the square of `v.length()` |
| `VectorLaws.DotSelfIsLengthSquared3` | mathutil/vector.py:105-118 | `v.dot(v)` is the square of `v.length()` |
| `VectorLaws.DotSelfPositive2` | mathutil/vector.py:53-55 | `v.dot(v) > 0` for every nonzero vector |
| `VectorLaws.DotSelfPositive3` | mathutil/vector.py:116-118 | `v.dot(v) > 0` for every nonzero vector |
| `VectorLaws.LengthZeroIffZero2` | mathutil/vector.py:42-44 | the length is 0 exactly for the zero vector |
| `VectorLaws.LengthZeroIffZero3` | mathutil/vector.py:105-107 | the length is 0 exactly for the zero vector |
| `VectorLaws.NormalizeZeroFails2` | mathutil/vector.py:46-51 | normalising the zero vector raises `ValueError` |
| `VectorLaws.NormalizeZeroFails3` | mathutil/vector.py:109-114 | normalising the zero vector raises `ValueError` |
| `VectorLaws.NormalizedHasUnitLength2` | mathutil/vector.py:46-51 | a nonzero vector normalises, to a vector of length 1 |
| `VectorLaws.NormalizedHasUnitLength3` | mathutil/vector.py:109-114 | a nonzero vector normalises, to a vector of length 1 |
| `VectorLaws.ProjectOntoZeroFails2` | mathutil/vector.py:57-61 | projecting onto the zero vector raises `ValueError` |
| `VectorLaws.ProjectOntoZeroFails3` | mathutil/vector.py:128-132 | projecting onto the zero vector raises `ValueError` |
| `VectorLaws.ProjectionResidualOrthogonal2` | mathutil/vector.py:57-61 | for a nonzero target `o`, `(v - v.project(o)).dot(o) == 0` |
| `VectorLaws.ProjectionResidualOrthogonal3` | mathutil/vector.py:128-132 | for a nonzero target `o`, `(v - v.project(o)).dot(o) == 0` |
| `VectorLaws.CrossOrthogonal` | mathutil/vector.py:120-126 | `a×b` is orthogonal to both `a` and `b` |
| `VectorLaws.CrossAntiCommutative` | mathutil/vector.py:85-126 | `a×b == -(b×a)` |
| `VectorLaws.NegIsAdditiveInverse` | mathutil/vector.py:85-87 | `v + (-v)` is zero, and negating twice is the identity |
| `VectorLaws.LengthOfNegation3` | mathutil/vector.py:85-107 | `(-v).length() == v.length()` |
| `VectorLaws.LengthOfDifferenceSymmetric2` | mathutil/vector.py:18-44 | `(a - b).length() == (b - a).length()` |
| `VectorLaws.LengthOfDifferenceSymmetric3` | mathutil/vector.py:77-107 | `(a - b).length() == (b - a).length()` |
| `RealMath.Sqrt` | mathutil/vector.py:44 | `** 0.5` is never negative, and is a square root wherever one exists |
| `RealMath.SqrtOfSquare` | mathutil/vector.py:107 | the root of `r²` is `r` for `r >= 0` |
| `RealMath.CosHalfPi` | contour_toolpath/algorithm.py:28 | `cos(π/2) == 0` |
| `RealMath.CosQuarterPi` | contour_toolpath/window_test.py:36-40 | `cos(π/4) == √2/2` |
| `Meshes.EdgeLength` | contour_toolpath/mesh.py:36-43 | defined when the edge id and both vertex ids index their lists; never negative |
| `Meshes.EdgeLengthTranslationInvariant` | contour_toolpath/mesh.py:40-43 | moving every vertex by the same offset leaves every edge length unchanged |
| `Meshes.EdgeLengthReversed` | contour_toolpath/mesh.py:41-43 | swapping `start` and `end` leaves the length unchanged |
| `Meshes.CoincidentEndsHaveZeroLength` | contour_toolpath/mesh.py:43 | ends at the same position give length 0 |
| `Windows.DistanceAlong` | contour_toolpath/window.py:79-104 | the distance of a window at parameter `t` on an edge of length `L`; for a circular window never below `cumulative_distance` |
| `Windows.StartDistance` | contour_toolpath/window.py:79-90 | `get_start_distance`; for a circular window never below `cumulative_distance` |
| `Windows.EndDistance` | contour_toolpath/window.py:93-104 | `get_end_distance`; for a circular window never below `cumulative_distance` |
| `Windows.LinearAtEdgeStart` | contour_toolpath/window.py:88-90 | a linear window at `t = 0` has distance `start_distance` |
| `Windows.LinearSpan` | contour_toolpath/window.py:88-104 | for a linear window, the difference of two distances is `L·(t₂ - t₁)·cos(source_direction)` |
| `Windows.PerpendicularFrontIsLevel` | contour_toolpath/window.py:88-104 | when `cos(source_direction) = 0` a linear window has distance `start_distance` everywhere |
| `Windows.CircularSourceAtEdgeStart` | contour_toolpath/window.py:83-87 | with the source at the edge start, the distance at `t` is `cumulative_distance + t·L` |
| `Windows.CircularSourceAboveEdgeStart` | contour_toolpath/window.py:83-87 | with the source at height `h` above the edge start, the distance is `σ + h` at `t = 0` and `σ + √((tL)² + h²)` at `t` |
| `Windows.DegenerateWindowIsLevel` | contour_toolpath/window.py:79-104 | when `start_t == end_t` the start and end distances agree, for both variants |
| `Windows.UnitEdgeHasLengthOne` | contour_toolpath/window_test.py:10-19 | the test mesh's edge 0 resolves and has length 1 |
| `Windows.LinearPerpendicularExample` | contour_toolpath/window_test.py:20-29 | perpendicular front, `start_distance = 1`: both distances are 1 |
| `Windows.LinearDiagonalExample` | contour_toolpath/window_test.py:31-40 | front at π/4 over `[0, 1]`: 1 and `1 + √2/2` |
| `Windows.LinearHalfEdgeExample` | contour_toolpath/window_test.py:44-52 | front at π/4 over `[0, 0.5]`: 1 and `1 + √2/2/2` |
| `Windows.LinearQuarterToHalfExample` | contour_toolpath/window_test.py:54-62 | front at π/4 over `[0.25, 0.5]`: `1 + √2/2/4` and `1 + √2/2/2` |
| `Windows.CircularSourceAtStartExample` | contour_toolpath/window_test.py:79-88 | source at `(0, 0)`, `σ = 1`: 1 and 2 |
| `Windows.CircularSourceAboveStartExample` | contour_toolpath/window_test.py:90-99 | source at `(0, 1)`, `σ = 1`: 2 and `1 + √2` |
| `Importer.Key` | contour_toolpath/importer.py:20 | the key of a side puts the smaller vertex index first |
| `Importer.KeyIsUnordered` | contour_toolpath/importer.py:19-20 | the key holds the side's two vertex indices and does not depend on the side's direction |
| `Importer.InitialVertices` | contour_toolpath/importer.py:7 | one vertex per position, same position, `d = None` |
| `Importer.LookupOrAdd` | contour_toolpath/importer.py:22-27 | an unseen key gets id `len(edge_list)` and its edge is appended; the table invariant `edge_list[edge_map[k]] == Edge(k)` and the first-appearance order are kept; the returned id names the side's edge |
| `Importer.VisitSide` | contour_toolpath/importer.py:18-29 | side `i` runs from corner `i` to corner `(i+1) % 3`; its id is appended and names that side; old edge ids keep their edges |
| `Importer.AddFace` | contour_toolpath/importer.py:15-33 | after a face, the edge list is the first appearances of all sides so far, and the triangle's three ids name the face's three sides in order |
| `Importer.BuildMesh` | contour_toolpath/importer.py:6-35 | vertices from the positions; edges in order of first appearance, without duplicates, each with `start <= end`, at most three per face; triangle `i`'s `k`-th edge is side `k` of face `i`, with an in-range id |
| `Importer.FirstOccurrencesAppend` | contour_toolpath/importer.py:22-25 | one more side adds its edge exactly when the edge is new |
| `Importer.FirstOccurrencesSameElements` | contour_toolpath/importer.py:22-25 | every side's edge is in the edge list, and nothing else is |
| `Importer.FirstOccurrencesNoDuplicates` | contour_toolpath/importer.py:22-25 | no edge appears twice in the list |
| `Importer.FirstOccurrencesLength` | contour_toolpath/importer.py:22-25 | there are no more edges than sides |
| `Importer.FirstOccurrencesOfDistinct` | contour_toolpath/importer.py:22-25 | sides that are all distinct become edges one for one, in order |
| `Importer.AllFaceEdgesLength` | contour_toolpath/importer.py:15-18 | every face contributes exactly three sides |
| `Importer.AllFaceEdgesOrdered` | contour_toolpath/importer.py:20 | every side's edge has `start <= end` |
| `Importer.FirstOccurrencesOrdered` | contour_toolpath/importer.py:25 | deduplication keeps `start <= end` |
| `Algorithm.SlotCount` | contour_toolpath/algorithm.py:16-17 | the number of slots among a triangle's first `k` that hold `e` is 0 exactly when `e` is not among them |
| `Algorithm.Seed` | contour_toolpath/algorithm.py:23-29 | the seed window is linear, covers its whole edge (`t` from 0 to 1), starts at distance 0, and its front is perpendicular to the edge (`cos` of its direction is 0) |
| `Algorithm.CreateWindowsAtBoundaries` | contour_toolpath/algorithm.py:13-31 | the result is the set of seed windows of the edges that occur exactly once across the triangles' edge tuples |
| `Algorithm.SeedMembership` | contour_toolpath/algorithm.py:19-30 | a window is in the result exactly when it is the seed `(e, 0, 1, π/2, 0)` of an in-range edge `e` occurring exactly once |
| `Algorithm.SeedCount` | contour_toolpath/algorithm.py:19-31 | the result has exactly as many windows as there are boundary edges |
| `Algorithm.InteriorEdgesGetNoSeed` | contour_toolpath/algorithm.py:22 | an edge occurring zero times, or two or more times, gets no window |
| `Algorithm.SeedsBelowStep` | contour_toolpath/algorithm.py:20-30 | each further edge adds its seed exactly when it is a boundary edge |
| `Algorithm.SeedsStartAtZero` | contour_toolpath/algorithm.py:23-29 | every seed whose edge resolves is at distance 0 at both ends of its edge |
| `Algorithm.RootIsMinimal` | contour_toolpath/algorithm.py:70-73 | the root of a heap has a priority no larger than any entry |
| `Algorithm.RootIsMinimalEntry` | contour_toolpath/algorithm.py:72-73 | the root's priority is minimal among all queued entries |
| `Algorithm.PopsAreOrdered` | contour_toolpath/algorithm.py:72-73 | two pops with no push between them come out in non-decreasing priority |
| `Algorithm.PropagationQueue.constructor` | contour_toolpath/algorithm.py:64-65 | a new queue is empty and a heap |
| `Algorithm.PropagationQueue.Push` | contour_toolpath/algorithm.py:67-70 | the heap invariant is kept, the entry is added to the contents, and `len` grows by one |
| `Algorithm.PropagationQueue.SiftUp` | contour_toolpath/algorithm.py:70 | `heapq._siftdown` mends a heap broken only above one entry, keeping its contents |
| `Algorithm.PropagationQueue.SiftDown` | contour_toolpath/algorithm.py:73 | `heapq._siftup` mends a heap broken only at the root, keeping its contents |
| `Algorithm.PropagationQueue.Pop` | contour_toolpath/algorithm.py:72-73 | on an empty queue `IndexError` with nothing changed; otherwise returns the window of an entry of minimal priority, removes exactly that entry, keeps the heap invariant, and `len` shrinks by one |
| `Algorithm.PropagationQueue.Len` | contour_toolpath/algorithm.py:78-79 | `len` is the number of queued entries, counted with multiplicity |
| `Algorithm.PropagationQueue.Empty` | contour_toolpath/algorithm.py:75-79 | `empty()` holds exactly when `len` is 0 |

## Left out

- `window_propagation.py` is not part of this model. Its `propagate_window_through_triangle` has no body, and `propagate_window` is a loop over it.
- Algorithm.CreateWindowsAtBoundaries: `algorithm.py` fails at import, because it imports `window_propagation.py` at the top level (`algorithm.py:8`) and that file does not parse. The model describes the function bodies as if the import succeeded.
- Algorithm.PropagationQueue.Push: as for `create_windows_at_boundaries`, the class can only be used if the import of `window_propagation.py` succeeds. The same holds for `Pop`, `Empty` and `Len`.
- `merge_windows` and `refine_mesh` are not part of this model: they raise `NotImplementedError`.
- `propagate_distance_field` is not part of this model. Its loop depends on `merge_windows`, so neither its result nor its termination can be stated.
- Algorithm.PropagationQueue.Push: `push` as written raises `AttributeError` for both window variants: `WindowLinear` has no `end_distance`, and `WindowCircular` has neither `start_distance` nor `end_distance` (`algorithm.py:68-69`). So the model takes the priority as an argument instead of computing it, and the `AttributeError` is not modelled.
- Algorithm.PropagationQueue.Pop: with equal priorities, `heapq` goes on to compare the windows themselves. This model compares priorities only, so which of several entries of equal priority comes out may differ. The one that comes out still has minimal priority. When Python compares two such windows field by field, a `WindowCircular` against a `WindowLinear` can compare a `Vec2D` with a float, which raises `TypeError`. That cannot happen as written, because `push` raises `AttributeError` first.
- Floating point is modelled as exact real arithmetic. Rounding, and the exact `==` float comparisons in `window_test.py`, are not modelled.
- RealMath.CosHalfPi: `Pi` is the float literal of `math.pi`, and the model's `Cos` is 0 at `Pi / 2`. In floating point `math.cos(math.pi / 2)` is about 6.1e-17, so a seed's end distance in Python is the edge length times that, not exactly 0.
- Algorithm.SeedsStartAtZero: it proves distance 0 at both ends of a seed. That is the exact-arithmetic value; Python's end distance carries the rounding error of `math.cos(math.pi / 2)`.
- Vectors.Vec2.Div: the operands modelled are float, int, the two vector types and non-numeric objects. Complex, `Fraction` and `Decimal` operands are not modelled. Python raises `ValueError` for one equal to 0. It divides by a nonzero complex or `Fraction`, but raises `TypeError` for a nonzero `Decimal`, because `float / Decimal` is unsupported.
- Vectors.Vec3.Div: complex, `Fraction` and `Decimal` operands are not modelled, as for `Vectors.Vec2.Div`.
- Vectors.Vec2.Div (and `Vectors.Vec3.Div`): an `int` divisor is converted as an exact real. An `int` too large for a float makes Python raise `OverflowError` in the division, and that error is not modelled.
- Vectors.Vec2.Add (and `Sub` and `Mul`, in both dimensions): numeric operands other than float and int are not modelled. Like an int, they are rejected with `TypeError`, since the `isinstance` check asks for `float`.
- RealMath.Sqrt: it is known to be a square root only where one exists (`HasSqrt`), because real arithmetic cannot prove that roots exist. `Sqrt(r²) = r` is proved for `r >= 0`.
- RealMath.Cos: it is known only at π/2 and π/4, the two angles the source and its tests use.
- VectorLaws.DotSelfIsLengthSquared2: assumes the square root of `v.dot(v)` exists.
- VectorLaws.DotSelfIsLengthSquared3: assumes the square root of `v.dot(v)` exists.
- VectorLaws.LengthZeroIffZero2: assumes the square root of `v.dot(v)` exists.
- VectorLaws.LengthZeroIffZero3: assumes the square root of `v.dot(v)` exists.
- VectorLaws.NormalizedHasUnitLength2: assumes the square root of `v.dot(v)` exists.
- VectorLaws.NormalizedHasUnitLength3: assumes the square root of `v.dot(v)` exists.
- VectorLaws.ProjectionResidualOrthogonal2: assumes the square root of `o.dot(o)` exists.
- VectorLaws.ProjectionResidualOrthogonal3: assumes the square root of `o.dot(o)` exists.
- Windows test cases: they are stated for any mesh whose edge 0 has length 1, rather than for the literal test mesh. `Windows.UnitEdgeHasLengthOne` shows the test mesh is such a mesh.
- `Vec2D(t * edge_length, 0)` in `window.py` builds a point with the int `0` as its `y`; the model uses `0.0`, which is the same number.
- Python's negative list indices are not modelled. Ids are natural numbers, and `get_edge_length` requires its three lookups to be in range.
- `build_mesh_from_trimesh` takes the positions and faces directly, in place of a `trimesh` object. A face has exactly three indices, the shape of `trimesh`'s face array.
- Importer.BuildMesh: face indices are not checked against the number of vertices, since the source does not check them either.
- `edge_faces` in `importer.py` is not modelled: it is filled but never returned or read.
- The `defaultdict` read at `algorithm.py:22` also inserts an empty list for the edge. That insertion is not modelled, because nothing reads the table afterwards.
- `__repr__`, `visualization.py` and `main.py` are not modelled. They are printing, plotting and file loading.
