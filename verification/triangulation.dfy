/**
  The triangulator's constructor: with more than two points, the first
  triangle, the initial bucket, the insertion of every point, and the
  removal of the sentinel faces; then `extractTriangleIndices` on the
  result. The two ends are connected: the mesh the insertions build is a
  valid triangulation over the input's ids with every point as a vertex,
  and the index list read from its finished form names input points only.
 */
module Triangulation {
  import opened Vector2
  import opened HalfEdge
  import opened DelaunayPredicates
  import opened PointBuckets
  import opened DriverInvariants
  import opened Delaunay
  import opened Finalize

  /**
    Build the triangulation of pts and read its index list. `full` is the
    mesh before sentinel removal, `m` the finished one. A build that stops
    early names the point it stopped at and the legalization that stopped it.
   */
  method Triangulate(pts: seq<Vec2>, eps: nat, fuel: nat)
    returns (ghost full: Mesh, m: Mesh, tris: seq<nat>, out: Outcome, ghost stopped: nat, ghost trace: seq<Legalizing>,
             ghost seed: nat, ghost passes: seq<Pass>)
    ensures |pts| <= 2 ==> m == Mesh([], []) && tris == [] && out == Done
    ensures |pts| > 2 ==> Built(pts, eps, fuel, full, out, stopped, trace, seed, passes)
    ensures |pts| > 2 ==> MeshInv(full, |pts|) && Dismantling(full, m, DeadFaces(full), {})
    ensures |pts| > 2 ==> tris == Triangles(full, m, |m.faces|)
    ensures |tris| % 3 == 0
    ensures |pts| <= 0x1_0000_0000 ==> forall k :: 0 <= k < |tris| ==> tris[k] < |pts|
  {
    if |pts| <= 2 {
      full, m, tris, out, stopped, trace, seed, passes := Mesh([], []), Mesh([], []), [], Done, 0, [], 0, [];
      return;
    }
    var r;
    r, out, stopped, trace, seed, passes := Build(pts, eps, fuel);
    full := r;
    m := FinalizeHDS(r);
    tris := Extract(r, m);
    if |pts| <= 0x1_0000_0000 {
      TrianglesArePoints(r, m, |pts|, |m.faces|);
    }
  }

  /**
    What the constructor's steps before `finalizeHDS` leave in r: the seed
    is the leftmost point (lexicographically least, and the first such);
    the passes are a traversal from the seed triangle and the initial
    buckets over exactly the scheduled ids, ending in r; r satisfies the
    invariant; a complete run has every point as a vertex; a stopped run
    names its point, every point up to it is a vertex, and its trace ends
    in the reported outcome.
   */
  ghost predicate Built(pts: seq<Vec2>, eps: nat, fuel: nat, r: Mesh, out: Outcome, stopped: nat,
                        trace: seq<Legalizing>, seed: nat, passes: seq<Pass>)
  {
    && seed < |pts| && (forall j :: 0 <= j < |pts| ==> !LexLess(pts[j], pts[seed]))
    && (forall j :: 0 <= j < seed ==> LexLess(pts[seed], pts[j]))
    && Traversed(pts, eps, fuel, FirstTriangle(seed), InitialBuckets(|pts|, seed), passes, out)
    && EndOf(FirstTriangle(seed), InitialBuckets(|pts|, seed), passes).0 == r
    && PointsOf(passes) == Schedule(Real(seed), if out == Done then |pts| else stopped + 1)
    && MeshInv(r, |pts|)
    && (out == Done ==> forall q: nat :: q < |pts| ==> HasVertex(r, q))
    && (out != Done ==>
          && stopped < |pts| && (forall q: nat :: q <= stopped ==> HasVertex(r, q))
          && exists lastBuckets :: InsertionEnded(pts, stopped, fuel, trace, out, r, lastBuckets))
  }

  /**
    The constructor's steps before `finalizeHDS`: the first triangle round
    the leftmost point, the initial bucket, and the insertion of every other
    point, all of it a traversal over the scheduled ids.
   */
  method Build(pts: seq<Vec2>, eps: nat, fuel: nat)
    returns (r: Mesh, out: Outcome, ghost stopped: nat, ghost trace: seq<Legalizing>, ghost seed: nat, ghost passes: seq<Pass>)
    requires |pts| > 2
    ensures Built(pts, eps, fuel, r, out, stopped, trace, seed, passes)
    ensures MeshInv(r, |pts|)
    ensures out == Done ==> forall q: nat :: q < |pts| ==> HasVertex(r, q)
  {
    var first, leftmost := InitFirstTriangle(pts);
    var b := InitBucket(|pts|, leftmost);
    var rb;
    r, rb, out, stopped, trace, passes := TraversalPts(pts, first, b, eps, fuel);
    seed := leftmost;
    TraversalFromSeed(pts, eps, fuel, seed, r, rb, out, stopped, trace, passes);
  }

  /** What a traversal from the first triangle and the initial bucket leaves, stated about the seed. */
  lemma TraversalFromSeed(pts: seq<Vec2>, eps: nat, fuel: nat, seed: nat, r: Mesh, rb: Buckets,
                          out: Outcome, stopped: nat, trace: seq<Legalizing>, passes: seq<Pass>)
    requires TraversalEnded(pts, eps, fuel, FirstTriangle(seed), InitialBuckets(|pts|, seed), r, rb, out, stopped, trace, passes)
    ensures Traversed(pts, eps, fuel, FirstTriangle(seed), InitialBuckets(|pts|, seed), passes, out)
    ensures EndOf(FirstTriangle(seed), InitialBuckets(|pts|, seed), passes).0 == r
    ensures PointsOf(passes) == Schedule(Real(seed), if out == Done then |pts| else stopped + 1)
    ensures MeshInv(r, |pts|)
    ensures out == Done ==> forall q: nat :: q < |pts| ==> HasVertex(r, q)
    ensures out != Done ==>
      && stopped < |pts| && (forall q: nat :: q <= stopped ==> HasVertex(r, q))
      && exists lastBuckets :: InsertionEnded(pts, stopped, fuel, trace, out, r, lastBuckets)
  {
    if out != Done {
      assert InsertionEnded(pts, stopped, fuel, trace, out, r, rb);
    }
  }
}
