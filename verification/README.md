# Incremental Delaunay triangulation and Graham-scan hull, in Dafny

This project models the computational core of a small 2D geometry
program. It has three parts.

- **Half-edge mesh.** Half-edges and faces live in growable arrays. A
  half-edge stores its previous, next and twin ("flip") half-edge as
  offsets from its own position, and offset 0 means "none". There are two
  in-place edits:
  - `insertNewVertexInFace` splits one triangle into three;
  - `insertNewVertexOnEdge` splits the two triangles beside an edge into
    four.
- **Incremental Delaunay triangulator.** It seeds one triangle from the
  leftmost point and two sentinel "points at infinity". It then inserts
  every other point, finds the point's face through a face↔point bucket
  index, and restores the Delaunay condition with a worklist of edge
  flips. Finally it removes every face that touches a sentinel and lists
  the remaining triangles.
- **Graham-scan convex hull.** It takes the bottom-most pivot, sorts the
  other indices by angle, and runs a push/pop stack machine over them in
  place.

The leaf arithmetic (`Vector2`, `cross`, `dot`, and the lifted in-circle
determinant) is modelled on exact integers.

Modules follow the source files:

| module | file | models |
|---|---|---|
| `Vector2` | vector2.dfy | `src/Vector2.h` |
| `Utils` | utils.dfy | `src/Utils.h` |
| `HalfEdge` | halfedge.dfy | records, navigation and link helpers of `src/HalfEdge.h` |
| `MeshSplit` | mesh_split.dfy | `src/HalfEdge.cpp` (both splits) |
| `MeshFlip` | mesh_flip.dfy | `flipEdge` |
| `DelaunayPredicates` | delaunay_predicates.dfy | sentinels, `toLeft`/`toRight`/`inCircle`, `onEdge` |
| `PointBuckets` | buckets.dfy | `mBucket`/`mVertexToBucketMap`, `reBucketPoint`, `reBucketFlip`, `reBucketStarSplit` |
| `DriverInvariants` | driver_invariants.dfy | the mesh invariant the driver keeps, and per-edit preservation |
| `Delaunay` | delaunay.dfy | `initFirstTriangle`, `initBucket`, `legalizeEdge`, `insertIntoFace`, `insertAtEdge`, `traversalPts` |
| `Finalize` | finalize.dfy | `finalizeHDS`, `extractTriangleIndices` |
| `Triangulation` | triangulation.dfy | the triangulator's constructor, end to end |
| `ConvexHull` | convex_hull.dfy | `src/ConvexHull.h`, `src/ConvexHull.cpp` |

## Representation choices

- **Offsets and ids.** Offsets are kept as integers, and `Prev`, `Next` and
  `Flip` return position plus offset. The per-class id counters become the
  invariant `index == position`, because the program builds one mesh per
  run and never resets the counters. New records are created with that
  index.
- **Invalid index and sentinels.** `cInvalidIndex` becomes `Index.Invalid`.
  Vertex ids are `Real(n) | NegOne | NegTwo`, and `Encode` maps them to the
  size_t values `2^64 - 1` and `2^64 - 2`. `SentinelTest` proves that the
  source's `>= cVertexIdNegTwo` tests on those values classify the ids as
  the datatype does.
- **Mesh edits.** Each edit is modelled twice:
  - as a method that performs the source's statements in order (for
    example `MeshSplit.InsertNewVertexInFace`);
  - as a direct record-by-record description (`InFaceSplit`, `OnEdgeSplit`,
    `Flipped`).

  A lemma proves the two equal, and validity is proved about the direct
  description.
- **The driver's invariant.** `MeshInv` bundles three facts:
  - the mesh is valid: every half-edge lies on a 3-cycle of one face, twins
    are mutual and endpoint-consistent, and face representatives lie on
    their face;
  - vertex ids name input points;
  - every boundary half-edge has a sentinel endpoint.

  The bucket index is `Consistent` when its two maps describe one relation.
- **Buckets never touched.** A bucket that was never touched reads as
  empty, as `operator[]` of the original's `unordered_map` creates it empty.
- **The `bucket2` alias.** `reBucketStarSplit` binds `bucket2` to
  `mBucket[fid1]` (src/DelaunayTriangulation.cpp:143). The model keeps this
  as written: the dirty list is f0 + f1 + f1, and f2's old contents stay.
  At its only call site, f1 and f2 are the two fresh faces of a three-way
  split, both empty, so the effect is harmless (`StarSplitOfFreshFace`).
- **The on-edge path.** This path re-buckets with two flip re-buckets and
  never removes the inserted vertex from its bucket
  (src/DelaunayTriangulation.cpp:300-301). The model keeps it: `SplitEdge`
  keeps every point `Located`, the inserted one included.
- **`onEdge`.** It tests only near-collinearity with the edge's line, with
  no between-the-endpoints check. The float epsilon is the parameter `eps`.
- **Hull as written.** The hull's two out-of-range reads are explicit
  outcomes of the as-written members. The corrected members are the ones
  the properties are proved about (see Findings).

## Model

| member | source | states |
|---|---|---|
| Vector2.ComponentSelects | src/Vector2.h:12-21 | index 0 selects x and every other index selects y |
| Vector2.SubAddRoundTrip | src/Vector2.h:22-43 | (a − b) + b = a, (a + b) − b = a, −(−a) = a, a + (−a) = 0 and a − b = a + (−b), as the componentwise operators promise |
| Vector2.EqualityOperators | src/Vector2.h:44-51 | `==` holds iff the vectors are equal; `!=` is exactly its negation |
| Vector2.ScaleCommutes | src/Vector2.h:52-61 | s·v = v·s, and each component is multiplied by s |
| Vector2.CrossAlternating | src/Vector2.h:98-102 | cross(a, a) = 0 and cross(a, b) = −cross(b, a) |
| Vector2.DotSymmetric | src/Vector2.h:104-108 | dot is symmetric; lengthSquared(a) = dot(a, a), is non-negative, and is zero only for the zero vector |
| Vector2.SubTranslation | src/Vector2.h:31-34 | translating both operands by d leaves their difference unchanged |
| Utils.ReducedEqualsLifted | src/Utils.h:9-31 | the reduced 3×3 determinant the code evaluates equals the 4×4 lifted determinant in its comment |
| Utils.Det4OnesReduces | src/Utils.h:14-17 | subtracting the last row reduces a 4×4 determinant with a column of ones to the 3×3 of row differences |
| Utils.OnCircleVertexIsNotInside | src/Utils.h:18-33 | when P equals one of A, B, C, the determinant is 0 and the test is false |
| Utils.InCircleSymmetries | src/Utils.h:25-33 | rotating (A, B, C) keeps the determinant and the result; swapping two corners negates the determinant |
| Utils.Det3RowPermutations | src/Utils.h:25-31 | the six-term expansion is invariant under cyclic row rotation and changes sign under a row swap |
| Utils.Det3Linear | src/Utils.h:25-31 | the expansion is linear in each row |
| Utils.Det3RepeatedRow | src/Utils.h:25-31 | the expansion vanishes when two rows are equal |
| HalfEdge.FreshEdges | src/HalfEdge.h:34-35 | default half-edges built in a row carry consecutive indices, zero offsets, an invalid face id and the vertex id cInvalidIndex (the NegOne value) |
| HalfEdge.FreshFaces | src/HalfEdge.h:89 | default faces built in a row carry consecutive indices and an invalid representative |
| HalfEdge.Grow | src/HalfEdge.cpp:12-13 | resizing both arrays keeps every record's index equal to its position |
| HalfEdge.ZeroOffsetIsSelf | src/HalfEdge.h:39-50 | an offset is 0 iff the navigation returns the half-edge itself; isBoundary holds iff the twin is itself |
| HalfEdge.InvalidationSticks | src/HalfEdge.h:53-54 | after setToInvalid a half-edge is invalid (and an invalidated face is invalid), keeping its vid and twin offset |
| HalfEdge.SetFlip | src/HalfEdge.h:56-60 | afterwards a's twin is b and b's twin is a; sizes and faces are unchanged |
| HalfEdge.BreakFlip | src/HalfEdge.h:61-64 | afterwards both the half-edge and its former twin are boundary |
| HalfEdge.LinkHalfEdge | src/HalfEdge.h:160-164 | next of p is n and prev of n is p, with indices preserved |
| HalfEdge.LinkEdgeLoopIsCycle | src/HalfEdge.h:166-171 | three distinct half-edges form a 3-cycle: next three times is the identity, and prev inverts next |
| HalfEdge.LinkFace | src/HalfEdge.h:178-183 | all three half-edges get the face's id, and the face's representative is the first one |
| HalfEdge.ConstructFaceLinks | src/HalfEdge.h:186-194 | constructFace is linkEdgeLoop followed by linkFace |
| HalfEdge.HeFromFace | src/HalfEdge.h:141 | in a valid mesh, the representative of face f is a half-edge of f |
| HalfEdge.FaceFromHe | src/HalfEdge.h:144 | in a valid mesh, the face id of a half-edge names an existing face |
| HalfEdge.CycleFacts | src/HalfEdge.cpp:60-62 | in a valid mesh, next from any half-edge runs round a 3-cycle of distinct half-edges of one face, prev inverts it, and no other half-edge has that face |
| HalfEdge.FlipFacts | src/HalfEdge.cpp:19-25 | an interior half-edge's twin is a distinct interior half-edge of another face, pointing the opposite way |
| MeshSplit.InsertNewVertexInFace | src/HalfEdge.cpp:48-77 | the statement sequence grows the arrays by exactly 6 and 2, returns the first new slots, and yields the three-way split of the face's cycle |
| MeshSplit.InFaceSplitRecords | src/HalfEdge.cpp:60-76 | the split writes the cycles (h0, e+1, e+0), (h1, e+3, e+2), (h2, e+5, e+4) into fId and the two new faces; sets the new vids; pairs twins 1–2, 3–4, 5–0; and leaves every other record unchanged |
| MeshSplit.InFaceSplitValid | src/HalfEdge.cpp:48-77 | splitting a face of a valid mesh yields a valid mesh |
| MeshSplit.InFaceKeepsBoundary | src/HalfEdge.cpp:60-76 | every boundary half-edge after the split was a boundary half-edge before, with the same endpoints |
| MeshSplit.DiamondOf | src/HalfEdge.cpp:19-25 | an interior half-edge, its twin and the four other edges of their two triangles form a diamond |
| MeshSplit.DiamondFacts | src/HalfEdge.cpp:19-25 | the diamond's six half-edges are distinct; they run round two different faces in the stated order; and the twin pair's endpoints match |
| MeshSplit.InsertNewVertexOnEdge | src/HalfEdge.cpp:7-46 | the statement sequence grows the arrays by 6 and 2, returns the first new slots, and yields the four-way split of the edge's diamond |
| MeshSplit.OnEdgeSplitRecords | src/HalfEdge.cpp:27-45 | the split writes the four cycles (reusing he's and hef's faces), the vids and the new twin pairs 0–1, 2–3, 4–5, and leaves every record outside the diamond unchanged |
| MeshSplit.OnEdgeSplitValid | src/HalfEdge.cpp:7-46 | splitting at an interior edge of a valid mesh yields a valid mesh |
| MeshSplit.OnEdgeKeepsBoundary | src/HalfEdge.cpp:27-45 | every boundary half-edge after the split was a boundary half-edge before, with the same endpoints |
| MeshFlip.FlipEdge | src/DelaunayTriangulation.cpp:261-275 | the statement sequence yields the flipped diamond: he takes the old origin of he.prev, hef that of hef.prev, and the cycles become (he, he4, he1) and (hef, he2, he3) in the two unchanged faces |
| MeshFlip.FlippedShape | src/DelaunayTriangulation.cpp:268-274 | record by record, the flip rewrites only the six diamond half-edges and the two face representatives, and keeps he and hef twins |
| MeshFlip.FlippedValid | src/DelaunayTriangulation.cpp:261-275 | flipping an interior edge whose two apexes differ keeps the mesh valid |
| MeshFlip.FlipKeepsBoundary | src/DelaunayTriangulation.cpp:261-275 | every boundary half-edge after a flip was a boundary half-edge before, with the same endpoints |
| DelaunayPredicates.SentinelTest | src/Delaunay.h:68-69 | the sentinels encode as 2^64 − 1 and 2^64 − 2; `>= NegTwo` holds exactly for sentinels; encoding is injective on ids below 2^64 − 2 |
| DelaunayPredicates.SentinelDirections | src/DelaunayTriangulation.cpp:222-231 | toLeft towards NegTwo or NegOne is the strict left test towards a point straight below or above the origin |
| DelaunayPredicates.ToLeftOrientation | src/DelaunayTriangulation.cpp:222-239 | toLeft towards a real point is strict positive orientation; it fails at the origin and at the target, is antisymmetric, and toRight is its negation |
| DelaunayPredicates.InCircleAtFirstCorner | src/DelaunayTriangulation.cpp:241-259 | with the first corner as target, inCircle is false for three real corners and true when the second corner is a sentinel |
| DelaunayPredicates.InCircleOfPoints | src/DelaunayTriangulation.cpp:241-259 | for real corners and target, inCircle is the lifted determinant's sign test, and rotating the corners keeps it |
| DelaunayPredicates.CycleEdgeNext | src/DelaunayTriangulation.cpp:200-218 | the k-th edge from a face's representative steps by next, and returns to the start after three |
| DelaunayPredicates.OnEdge | src/DelaunayTriangulation.cpp:198-220 | the scan returns the first edge of the face's cycle whose endpoints are both real and whose cross product lies strictly within ±eps, otherwise the invalid index |
| DelaunayPredicates.NearLineExact | src/DelaunayTriangulation.cpp:207-215 | with eps = 0 no edge is near; with eps = 1, an edge starting at the point itself is near exactly when its other end is real |
| DelaunayPredicates.NearBeyondEndpoint | src/DelaunayTriangulation.cpp:198-220 | in the triangle over (0,0), (1,0) and a sentinel, the point (2,0) lies beyond the edge's far end, yet it counts as near that edge and `onEdge` returns the edge: there is no between-the-endpoints test |
| PointBuckets.Place | src/DelaunayTriangulation.cpp:80-84 | the point is appended to the face's bucket and mapped to that face; no other bucket changes |
| PointBuckets.ConsistentGet | src/Delaunay.h:54-57 | under the two-way relation, every bucket entry is a point mapped to that bucket's existing face |
| PointBuckets.SidesPartition | src/DelaunayTriangulation.cpp:115-125 | the left and right sides of a point list together are exactly that list, as a multiset |
| PointBuckets.SideMembers | src/DelaunayTriangulation.cpp:115-125 | a point is on a side exactly when it is in the list and toLeft puts it there |
| PointBuckets.ReBucketFlip | src/DelaunayTriangulation.cpp:86-126 | he and its twin lie in distinct faces; both buckets are rebuilt from their concatenation: the left side of the new diagonal goes to he's face and the rest to the twin's, in order; the map follows; other buckets are unchanged; the relation and every located point stay so |
| PointBuckets.RegionMembers | src/DelaunayTriangulation.cpp:163-194 | a point lands in region k exactly when it is gathered, is not the new vertex, and the two-test decision tree picks k |
| PointBuckets.RegionsPartition | src/DelaunayTriangulation.cpp:163-194 | the three regions together are exactly the gathered points minus the new vertex, as a multiset |
| PointBuckets.ReBucketStarSplit | src/DelaunayTriangulation.cpp:128-196 | the result is exactly the one `StarBucketed` describes: the gathered points (f0, f1, f1 as written) are split among the three faces by the two-test decision tree, the new vertex dropped; f0 and f1 are rebuilt and f2 appended to; every other bucket is unchanged; the map sends each gathered point to the face the tree picks; the relation stays consistent and every located point stays so |
| PointBuckets.StarSplitOfFreshFace | src/DelaunayTriangulation.cpp:141-149 | with empty fresh buckets the aliased gather is exactly the old face's bucket, and the regions partition it without the new vertex |
| DriverInvariants.PointEdgeInterior | src/DelaunayTriangulation.cpp:352-362 | under the invariant, an edge whose two endpoints are real has a twin, so the on-edge insertion's requirement holds |
| DriverInvariants.InFaceStep | src/DelaunayTriangulation.cpp:281 | a three-way split keeps the driver's mesh invariant and every vertex, and makes the new point a vertex |
| DriverInvariants.OnEdgeStep | src/DelaunayTriangulation.cpp:297 | an on-edge split keeps the driver's mesh invariant and every vertex, and makes the new point a vertex |
| DriverInvariants.FlipStep | src/DelaunayTriangulation.cpp:261-275 | a flip with distinct apexes keeps the mesh invariant, the sizes and every vertex, and leaves he interior with the near apex as origin |
| DriverInvariants.FlipPushedOpposite | src/DelaunayTriangulation.cpp:333-336 | after the flip, the two pushed edges' predecessors leave the near apex (the inserted point, for an edge that was opposite it), and the flipped edge now starts there |
| Delaunay.FindLeftmost | src/DelaunayTriangulation.cpp:37-51 | the seed is a point no point is lexicographically (x, then y) smaller than, and it is strictly smaller than every earlier point |
| Delaunay.FirstTriangleInv | src/DelaunayTriangulation.cpp:53-63 | the seed triangle (NegTwo, NegOne, seed) satisfies the driver's invariant and has the seed as a vertex |
| Delaunay.InitFirstTriangle | src/DelaunayTriangulation.cpp:31-64 | the statement sequence picks the leftmost seed and builds exactly the seed triangle |
| Delaunay.InitBucket | src/DelaunayTriangulation.cpp:66-78 | the result is `InitialBuckets`: bucket 0 is `Schedule` of the ids, every id but the seed in ascending order, and every map entry is 0; the relation is consistent and every non-seed point is located |
| Delaunay.ScheduleOrder | src/DelaunayTriangulation.cpp:344-352 | an id is in the schedule exactly when it is below the point count and is not the skipped id, and the schedule is strictly increasing, so each id occurs once, in loop order |
| Delaunay.BlockedAtSentinel | src/DelaunayTriangulation.cpp:321-331 | when the near apex is the inserted point, a wanted flip can be blocked only with the inserted point also as far apex and a sentinel at the popped edge's origin |
| Delaunay.FlipTop | src/DelaunayTriangulation.cpp:333-337 | the flipping branch pushes the twin's prev then next, read before the flip, onto the popped stack, flips the diamond and re-buckets across the new diagonal; both pushed edges end opposite the near apex; the invariant, vertices and located points are kept |
| Delaunay.LegalizeStep | src/DelaunayTriangulation.cpp:313-338 | one pass is a `Stepped` transition: the top edge is popped; a boundary edge, or one whose far apex is not in the circle, changes nothing else; a wanted flip is carried out (see FlipTop) unless it is blocked; `DegenerateFlip` is reported exactly for a blocked flip, which changes nothing |
| Delaunay.LegalizeEdge | src/DelaunayTriangulation.cpp:309-340 | the loop passes through a trace of `Stepped` states from the frontier to the result. It ends `Done` exactly when the stack is empty, `OutOfFuel` only after fuel pops with edges left, and `DegenerateFlip` within the fuel at a blocked top edge. An empty frontier changes nothing. The invariant, sizes, vertices and located points are kept |
| Delaunay.SplitFace | src/DelaunayTriangulation.cpp:277-289 | the result is the start state `FaceStart` describes: the mesh is exactly the three-way split of face f at the point (`SplitsFace`); the buckets are exactly the star re-bucketing round the new half-edges e, e+2, e+4 (`StarBucketed`); the frontier is next(e), next(e+2), next(e+4), which is f's old cycle h0, h1, h2 in that order, each edge now opposite the point; the invariant holds, two faces are added, and the three buckets partition f's old bucket without the point (`StarSpread`) |
| Delaunay.FaceStartStack | src/DelaunayTriangulation.cpp:286-289 | in a `FaceStart` state, the stack next(e), next(e+2), next(e+4) is exactly f's old cycle h0, h1, h2, in order |
| Delaunay.InsertIntoFace | src/DelaunayTriangulation.cpp:277-291 | insertion into a face keeps the invariant and every vertex, makes the point a vertex, and keeps every other located point; the first state of its legalization is `FaceStart`: the exact split, the exact star re-bucketing, and the stack f's old cycle in order; the trace then ends as `Ended` says |
| Delaunay.SplitEdge | src/DelaunayTriangulation.cpp:293-306 | the result is the start state `EdgeStart` describes: the mesh is exactly the four-way split of he's diamond at the point (`SplitsEdge`); the buckets are `reBucketFlip` across e+1 and then across e+5 (`TwoFlipsBucketed`); the frontier is prev(e), next(e+1), next(e+3), next(e+5), which is the diamond's outer edges o0, o1, o2, o3 in that order, each now opposite the point; the invariant holds and every located point stays located |
| Delaunay.EdgeStartStack | src/DelaunayTriangulation.cpp:303-306 | in an `EdgeStart` state, the stack prev(e), next(e+1), next(e+3), next(e+5) is exactly the outer edges o0, o1, o2, o3 of he's diamond, in order |
| Delaunay.InsertAtEdge | src/DelaunayTriangulation.cpp:293-307 | insertion on an edge keeps the invariant and every vertex, and makes the point a vertex; the first state of its legalization is `EdgeStart`: the exact four-way split, the two flip re-bucketings in order, and the stack the diamond's outer edges in order; the trace then ends as `Ended` says |
| Delaunay.InsertPoint | src/DelaunayTriangulation.cpp:352-362 | the pass is `PointInserted`: the point is looked up in its bucket's face f; when `onEdge` finds an edge there, the legalization starts at that edge's `EdgeStart`, otherwise at f's `FaceStart`; it ends as `InsertionEnded` says. The invariant and every vertex are kept, the point becomes one, and other located points stay located |
| Delaunay.TraversalPts | src/DelaunayTriangulation.cpp:342-365 | the run is `TraversalEnded`: the ghost passes are `Traversed`, each a `PointInserted` pass from where the one before left the mesh and buckets, all but the last `Done`; the points they insert are exactly `Schedule`, every id but the seed in ascending order, up to the last id or, for a run that stops, up to the id it stopped at; the invariant is kept; a complete run leaves every point a vertex; a stopped run names a non-seed point, every point up to it is a vertex, and its trace ends in the reported outcome |
| Delaunay.TraversalStep | src/DelaunayTriangulation.cpp:352-362 | one more pass extends a `Done` traversal: the new pass is `PointInserted` from where the traversal stood, the traversal with it is `Traversed` ending in its outcome, and its points are the schedule one id further on |
| Delaunay.TraversalNext | src/DelaunayTriangulation.cpp:346-363 | one loop iteration at id v: the seed is passed over and any other id inserted; a `Done` pass carries the walk to v + 1, and any other outcome ends the traversal stopped at v (`TraversalEnded`); either way the invariant and every vertex are kept, and v is a vertex unless it is the seed |
| Finalize.KillEdgeStep | src/DelaunayTriangulation.cpp:377-380 | one invalidate-and-break step on a pending half-edge of a dead face advances the removal state by exactly that half-edge |
| Finalize.DismantleFace | src/DelaunayTriangulation.cpp:371-382 | the walk round a face with a sentinel half-edge invalidates the face and kills all three of its half-edges |
| Finalize.FinalizeHDS | src/DelaunayTriangulation.cpp:367-384 | afterwards a face is invalid iff it has a sentinel vertex; its half-edges are invalidated and unpaired; every other half-edge is exactly as before, except that one whose twin lay in a removed face becomes boundary |
| Finalize.FinalTwins | src/DelaunayTriangulation.cpp:367-384 | after removal, a surviving half-edge is boundary exactly when it was boundary before or its twin's face was removed; otherwise it keeps its twin, which survives and is paired back to it |
| Finalize.KeptIsLive | src/DelaunayTriangulation.cpp:416-431 | a half-edge of a surviving face is still live, and keeps its vid, face and next |
| Finalize.WalkFace | src/DelaunayTriangulation.cpp:421-431 | the do-while from a live face's representative yields the three vids of its cycle, as uint32 |
| Finalize.Extract | src/DelaunayTriangulation.cpp:412-435 | the output is, in face-id order, the three cycle vids of every face still valid |
| Finalize.TrianglesArePoints | src/DelaunayTriangulation.cpp:412-435 | with at most 2^32 points, every emitted index names an input point, since no surviving face has a sentinel |
| Triangulation.Triangulate | src/DelaunayTriangulation.cpp:4-25 | with at most two points nothing is built. Otherwise the build is `Built`: the seed is the leftmost point, and the traversal from the seed triangle and `InitialBuckets` is `Traversed` over exactly the scheduled ids, ending in the mesh before removal; that mesh satisfies the invariant; a complete run has every point as a vertex; a stopped run names its point and the legalization trace that ended it. Removal takes exactly the sentinel faces, and the output is whole triangles of input points |
| Triangulation.Build | src/DelaunayTriangulation.cpp:7-21 | the steps before `finalizeHDS` (first triangle, bucket, traversal) leave a `Built` mesh: the leftmost seed, a `Traversed` run over the scheduled ids from the seed triangle and the initial buckets, the invariant, and the vertex and stop facts; a complete run has every point as a vertex |
| Triangulation.TraversalFromSeed | src/DelaunayTriangulation.cpp:342-365 | a traversal from the seed triangle and the initial buckets, stated about the seed: its passes are `Traversed`, insert the schedule that skips the seed, and end in the final mesh; that mesh satisfies the invariant; the vertex and stop facts of `TraversalEnded` carry over |
| ConvexHull.ToLeftProperties | src/ConvexHull.h:22-31 | toLeft is false when the point is the target; any other collinear point counts as left; the test is translation-invariant |
| ConvexHull.FindBottomPoint | src/ConvexHull.cpp:33-46 | the pivot has minimum y, ties broken by minimum x, and is the earliest such index |
| ConvexHull.InitIndices | src/ConvexHull.cpp:48-59 | slots 1..n−1 hold the non-pivot indices in ascending order; top = 1, pos = 2 |
| ConvexHull.InitIndicesPermutation | src/ConvexHull.cpp:48-59 | the laid-out array is a permutation of 0..n−1 with the pivot first |
| ConvexHull.AngleLessAsymmetric | src/ConvexHull.cpp:64-82 | the comparator is irreflexive and asymmetric |
| ConvexHull.InsertFacts | src/ConvexHull.cpp:61-83 | one insertion step adds exactly the new index and keeps the prefix sorted |
| ConvexHull.Sort | src/ConvexHull.cpp:61-83 | slot 0 is untouched; slots 1.. become a permutation of themselves, with no adjacent pair out of comparator order |
| ConvexHull.Preprocess | src/ConvexHull.cpp:85-92 | the pivot is first, followed by a sorted permutation of the other indices, with top = 1 and pos = 2 |
| ConvexHull.AdvanceAsWritten | src/ConvexHull.cpp:101-119 | stops iff pos ≥ n; reads below the array iff points remain with top = 0; otherwise pushes or pops, lowering 2(n − pos) + top |
| ConvexHull.Advance | src/ConvexHull.cpp:101-119 | the corrected step never reads out of range, stops iff pos ≥ n, and otherwise lowers the measure |
| ConvexHull.AdvanceAgrees | src/ConvexHull.cpp:108-117 | wherever the code as written stays in range, the corrected step is identical |
| ConvexHull.AdvanceKeepsScan | src/ConvexHull.cpp:108-117 | each step keeps the scan invariant: slots from pos on untouched, the pivot at the bottom, stack entries distinct and not yet to come, every turn on the stack a left turn |
| ConvexHull.Process | src/ConvexHull.cpp:94-99 | the loop terminates in a state where advance stops, with the scan invariant kept |
| ConvexHull.ExtractAsWritten | src/ConvexHull.cpp:18-31 | empty for top = 0; a read past the end iff top ≠ 0 and top ≥ n; otherwise the top + 1 entries of slots 0..top |
| ConvexHull.ExtractIndices | src/ConvexHull.cpp:18-31 | the corrected extraction is empty iff top = 0 or top is out of range, and otherwise has top + 1 entries |
| ConvexHull.ExtractAgrees | src/ConvexHull.cpp:18-31 | wherever the code as written stays in range, the corrected extraction yields the same list |
| ConvexHull.StackOutput | src/ConvexHull.cpp:18-31 | the extracted stack of a finished scan starts at the pivot, has at least two distinct in-range indices, and turns left at every inner entry |
| ConvexHull.ComputeHull | src/ConvexHull.cpp:3-12 | fewer than two points give no output; otherwise the output starts at the bottom-most point, has at least two distinct in-range indices, and turns left at every inner entry |
| ConvexHull.ComputeHullAsWritten | src/ConvexHull.cpp:3-12 | a single point always reads past the end; empty input depends on the uninitialised top; any in-range run has the corrected run's properties |
| ConvexHull.DuplicateReadsBelowStack | src/ConvexHull.cpp:108-116 | on (0,0), (1,0), (1,0), the first step pops to top = 0 and the second reads slot −1, where the corrected step pushes |
| ConvexHull.SinglePointReadsPastEnd | src/ConvexHull.cpp:26-29 | with one point the scan stops at once with top = 1, and extraction reads slot 1 of a one-slot array |
| ConvexHull.EmptyInputReadsPastEnd | src/ConvexHull.cpp:3-12 | with no points, any nonzero uninitialised top makes extraction read past the empty array |

## Left out

- The applications are not modelled. This covers `main.cpp`, the
  triangulation, hull and polygon apps, windowing, shaders, input
  callbacks and random point generation: they are I/O and UI.
- `src/Delaunay.cpp` is not part of this model. It is an earlier,
  unfinished version that nothing calls.
- The commented-out `keepInsertion`, `reserve` calls, destructors and
  `printInfo` are not modelled.
- `src/PolygonTriangulation.h` is not modelled: it has declarations only.
- Floating point is not modelled. Coordinates are exact integers.
  - `onEdge`'s `numeric_limits<float>::epsilon()` is the parameter `eps`.
  - `length`, `normalize`, `operator/` and `operator<<` of `Vector2` are
    left out: they use sqrt, float division and streams.
- Rounding in the in-circle determinant is not modelled.
- Delaunay.LegalizeEdge: termination is not proved, because nothing in the
  code bounds the number of flips. The loop runs on `fuel` pops and
  reports `OutOfFuel` when the fuel runs out.
- Delaunay.LegalizeStep: the model stops with `DegenerateFlip` in two
  places where the source goes on to flip. The first is when the far apex
  equals the near apex. The mesh invariant does not itself forbid a
  repeated vertex id, but `FlippedValid` and `FlipStep` prove a flip valid
  only for distinct apexes: with equal apexes, two of the diamond's side
  edges can be twins that the flip puts in one face, which the invariant
  does not allow. The second is when the near apex is a sentinel and the
  two buckets hold points: `reBucketFlip` would then index the point array
  at size_t(-1) or size_t(-2) (src/DelaunayTriangulation.cpp:224-232). The
  geometry of the insertion should rule out both cases, because every
  stacked edge lies opposite the inserted point. That worklist invariant is
  not proved, so neither case is proved impossible. `BlockedAtSentinel`
  narrows the first case to a sentinel at the popped edge's origin.
- Delaunay.TraversalPts: the guarantee that every point ends up a vertex is
  conditional on a `Done` run. A stopped run only names where and why it
  stopped. The geometric claims are not proved:
  - that the point lies in the face its bucket names (needed for the
    split to be a triangulation of the true plane region);
  - that the output is Delaunay;
  - Euler-formula triangle counts.
- ConvexHull.Sort: this states only that no adjacent pair is out of
  comparator order. `std::sort`'s internals are replaced by an insertion
  sort on sequences. The comparator is not proved to be a strict weak
  ordering; `AngleLessAsymmetric` proves only irreflexivity and asymmetry.
- ConvexHull.ComputeHull: this does not claim the output is the convex hull
  (every input point inside it). It proves the output starts at the pivot,
  names distinct in-range points, and turns left at every inner entry.
- Triangulation.Triangulate: the uint32 bound on emitted indices is proved
  only for inputs of at most 2^32 points. Above that, the cast wraps, as in
  the source.

## Findings

| source | as written | input that shows it | evidently intended | confidence | as-written member | corrected member |
|---|---|---|---|---|---|---|
| src/ConvexHull.cpp:108-116 | `advance` reads `mHullIndices[mStackTop - 1]` even when a pop has brought `mStackTop` to 0. The size_t index wraps, so the read falls outside the array. `toLeft` of a point against an exact copy of itself is false, which forces that pop. | points (0,0), (1,0), (1,0): the pivot is 0, the stack is [0, 1], `toLeft` pops to top = 0, and the next call reads slot −1 | with only the pivot on the stack, push the next point without a test | not executed | ConvexHull.DuplicateReadsBelowStack | ConvexHull.Advance |
| src/ConvexHull.cpp:26-29 | `extractLineSegmentIndices` copies slots 0..`mStackTop` whenever `mStackTop` ≠ 0. With one point, `initIndices` sets top = 1 and no advance runs, so slot 1 of a one-slot array is read. With no points, `mStackTop` is never initialised. | a single point; or an empty point list | no segments unless top is a valid slot | not executed | ConvexHull.SinglePointReadsPastEnd | ConvexHull.ExtractIndices |
