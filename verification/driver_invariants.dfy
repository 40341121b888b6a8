/**
  What the Delaunay driver keeps true of its mesh between insertions, and
  one step lemma per mesh edit showing that the edit keeps it. Beyond
  validity, the driver needs two facts the original relies on without
  stating: every point id in the mesh names an input point, and every
  boundary half-edge touches a sentinel vertex (so an edge between two
  points, the only kind `onEdge` reports, always has a flip).
 */
module DriverInvariants {
  import opened HalfEdge
  import opened MeshSplit
  import opened MeshFlip
  import opened DelaunayPredicates

  /** Half-edge i starts or ends at a sentinel. */
  predicate SentinelEnd(m: Mesh, i: nat)
    requires i < |m.halfedges|
  {
    !m.halfedges[i].vid.Real? || (InRange(m, Next(m, i)) && !m.halfedges[Next(m, i)].vid.Real?)
  }

  /** Every boundary half-edge touches a sentinel. */
  predicate BoundaryHasSentinel(m: Mesh)
  {
    forall i :: 0 <= i < |m.halfedges| && IsBoundary(m.halfedges[i]) ==> SentinelEnd(m, i)
  }

  /** Point q is a vertex of the mesh: some half-edge leaves it. */
  predicate HasVertex(m: Mesh, q: nat)
  {
    exists j :: 0 <= j < |m.halfedges| && m.halfedges[j].vid == Real(q)
  }

  /** Every vertex of m is a vertex of r. */
  ghost predicate KeepsVertices(m: Mesh, r: Mesh)
  {
    forall q: nat :: HasVertex(m, q) ==> HasVertex(r, q)
  }

  /** The mesh invariant of the driver over n input points. */
  predicate MeshInv(m: Mesh, n: nat)
  {
    Valid(m) && VidsBelow(m, n) && BoundaryHasSentinel(m)
  }

  /** An edit that keeps the boundary keeps the sentinel on it. */
  lemma KeptBoundarySentinel(m: Mesh, r: Mesh)
    requires KeepsBoundary(m, r) && BoundaryHasSentinel(m)
    ensures BoundaryHasSentinel(r)
  {
    forall i | 0 <= i < |r.halfedges| && IsBoundary(r.halfedges[i]) ensures SentinelEnd(r, i) {
      assert BoundaryKept(m, r, i);
      assert SentinelEnd(m, i);
    }
  }

  /** An edge between two points is not on the boundary, so it has a flip. */
  lemma PointEdgeInterior(m: Mesh, i: nat)
    requires Valid(m) && BoundaryHasSentinel(m) && i < |m.halfedges|
    requires InRange(m, Next(m, i)) && m.halfedges[i].vid.Real? && m.halfedges[Next(m, i)].vid.Real?
    ensures !IsBoundary(m.halfedges[i])
  {
    assert IsBoundary(m.halfedges[i]) ==> SentinelEnd(m, i);
  }

  /** An edit that keeps every old vid somewhere keeps every vertex. */
  lemma VerticesFromWitness(m: Mesh, r: Mesh, w: seq<nat>)
    requires |w| == |m.halfedges|
    requires forall j :: 0 <= j < |m.halfedges| ==> w[j] < |r.halfedges| && r.halfedges[w[j]].vid == m.halfedges[j].vid
    ensures KeepsVertices(m, r)
  {
    forall q: nat | HasVertex(m, q) ensures HasVertex(r, q) {
      var j :| 0 <= j < |m.halfedges| && m.halfedges[j].vid == Real(q);
      assert r.halfedges[w[j]].vid == Real(q);
    }
  }

  /** The identity witness: position j of r still holds m's vid. */
  function Identity(n: nat): (w: seq<nat>)
    ensures |w| == n && forall j :: 0 <= j < n ==> w[j] == j
  {
    seq(n, j => j)
  }

  // ---------------------------------------------------------------------
  // insertNewVertexInFace
  // ---------------------------------------------------------------------

  /** The three-way split keeps every old vid in place and adds only v and copies of old vids. */
  lemma InFaceVids(m: Mesh, vId: VertexId, fId: nat, h0: nat, h1: nat, h2: nat, r: Mesh)
    requires Distinct3(m, h0, h1, h2) && InFaceShape(m, vId, fId, h0, h1, h2, r)
    ensures forall j :: 0 <= j < |m.halfedges| ==> r.halfedges[j].vid == m.halfedges[j].vid
    ensures forall j :: |m.halfedges| <= j < |r.halfedges| ==>
      r.halfedges[j].vid == vId || r.halfedges[j].vid in {m.halfedges[h0].vid, m.halfedges[h1].vid, m.halfedges[h2].vid}
    ensures r.halfedges[|m.halfedges|].vid == vId
  {
    var e := |m.halfedges|;
    forall j | e <= j < |r.halfedges|
      ensures r.halfedges[j].vid == vId || r.halfedges[j].vid in {m.halfedges[h0].vid, m.halfedges[h1].vid, m.halfedges[h2].vid}
    {
      assert j - e in {0, 1, 2, 3, 4, 5};
    }
  }

  /**
    Inserting point v < n into a face keeps the driver's invariant, keeps
    every vertex and makes v one.
   */
  lemma InFaceStep(m: Mesh, n: nat, v: nat, fId: nat, h0: nat, h1: nat, h2: nat)
    requires MeshInv(m, n) && v < n && FaceCycle(m, fId, h0, h1, h2)
    ensures var r := InFaceSplit(m, Real(v), fId, h0, h1, h2);
      MeshInv(r, n) && KeepsVertices(m, r) && HasVertex(r, v)
  {
    var r := InFaceSplit(m, Real(v), fId, h0, h1, h2);
    InFaceSplitRecords(m, Real(v), fId, h0, h1, h2);
    InFaceSplitValid(m, Real(v), fId, h0, h1, h2);
    InFaceKeepsBoundary(m, Real(v), fId, h0, h1, h2, r);
    KeptBoundarySentinel(m, r);
    InFaceVids(m, Real(v), fId, h0, h1, h2, r);
    VerticesFromWitness(m, r, Identity(|m.halfedges|));
    assert r.halfedges[|m.halfedges|].vid == Real(v);
  }

  // ---------------------------------------------------------------------
  // insertNewVertexOnEdge
  // ---------------------------------------------------------------------

  /**
    The four-way split keeps every old vid in place except he's, which o2
    still holds; the new records hold v or copies of the diamond's vids.
   */
  lemma OnEdgeVids(m: Mesh, vId: VertexId, d: Diamond, r: Mesh)
    requires IsDiamond(m, d) && DiamondSlots(|m.halfedges|, d) && OnEdgeShape(m, vId, d, r)
    ensures forall j :: 0 <= j < |m.halfedges| && j != d.he ==> r.halfedges[j].vid == m.halfedges[j].vid
    ensures r.halfedges[d.o2].vid == m.halfedges[d.he].vid
    ensures forall j :: |m.halfedges| <= j < |r.halfedges| ==>
      r.halfedges[j].vid == vId || r.halfedges[j].vid in {m.halfedges[d.o1].vid, m.halfedges[d.o2].vid, m.halfedges[d.o3].vid}
    ensures r.halfedges[d.he].vid == vId
  {
    DiamondFacts(m, d);
    var e := |m.halfedges|;
    forall j | e <= j < |r.halfedges|
      ensures r.halfedges[j].vid == vId || r.halfedges[j].vid in {m.halfedges[d.o1].vid, m.halfedges[d.o2].vid, m.halfedges[d.o3].vid}
    {
      assert j - e in {0, 1, 2, 3, 4, 5};
    }
  }

  /**
    Inserting point v < n on a non-boundary edge keeps the driver's
    invariant, keeps every vertex and makes v one.
   */
  lemma OnEdgeStep(m: Mesh, n: nat, v: nat, he: nat)
    requires MeshInv(m, n) && v < n && he < |m.halfedges| && !IsBoundary(m.halfedges[he])
    ensures var r := OnEdgeSplit(m, Real(v), DiamondOf(m, he));
      MeshInv(r, n) && KeepsVertices(m, r) && HasVertex(r, v)
  {
    var d := DiamondOf(m, he);
    var r := OnEdgeSplit(m, Real(v), d);
    OnEdgeSplitRecords(m, Real(v), d);
    OnEdgeSplitValid(m, Real(v), d);
    OnEdgeKeepsBoundary(m, Real(v), d, r);
    KeptBoundarySentinel(m, r);
    OnEdgeVids(m, Real(v), d, r);
    var w := Identity(|m.halfedges|)[d.he := d.o2];
    VerticesFromWitness(m, r, w);
    assert r.halfedges[d.he].vid == Real(v);
  }

  // ---------------------------------------------------------------------
  // flipEdge
  // ---------------------------------------------------------------------

  /** The flip moves he and hef to the apexes, whose vids o1 and o3 keep, and o2 and o0 keep the old ones. */
  lemma FlipVids(m: Mesh, d: Diamond, r: Mesh)
    requires IsDiamond(m, d) && DiamondSlots(|m.halfedges|, d) && FlipShape(m, d, r)
    ensures forall j :: 0 <= j < |m.halfedges| && j != d.he && j != d.hef ==> r.halfedges[j].vid == m.halfedges[j].vid
    ensures r.halfedges[d.he].vid == m.halfedges[d.o1].vid && r.halfedges[d.hef].vid == m.halfedges[d.o3].vid
    ensures r.halfedges[d.o2].vid == m.halfedges[d.he].vid && r.halfedges[d.o0].vid == m.halfedges[d.hef].vid
  {
    DiamondFacts(m, d);
  }

  /** A flip keeps every vertex: he's old origin moves to o2, hef's to o0, and every other slot keeps its own. */
  lemma FlipKeepsVertices(m: Mesh, d: Diamond, r: Mesh)
    requires IsDiamond(m, d) && DiamondSlots(|m.halfedges|, d) && FlipShape(m, d, r)
    ensures KeepsVertices(m, r)
  {
    FlipVids(m, d, r);
    var w := Identity(|m.halfedges|)[d.he := d.o2][d.hef := d.o0];
    VerticesFromWitness(m, r, w);
  }

  /**
    Flipping a non-boundary edge whose two apexes differ keeps the driver's
    invariant and every vertex; he stays paired with hef and now leaves the
    apex of its old triangle.
   */
  lemma FlipStep(m: Mesh, n: nat, he: nat)
    requires MeshInv(m, n) && he < |m.halfedges| && !IsBoundary(m.halfedges[he])
    requires var d := DiamondOf(m, he); m.halfedges[d.o1].vid != m.halfedges[d.o3].vid
    ensures var d := DiamondOf(m, he);
      && DiamondSlots(|m.halfedges|, d) && FaceOfHe(m, d.he) < |m.faces| && FaceOfHe(m, d.hef) < |m.faces|
      && var r := Flipped(m, d);
      && MeshInv(r, n) && KeepsVertices(m, r)
      && |r.halfedges| == |m.halfedges| && |r.faces| == |m.faces|
      && !IsBoundary(r.halfedges[he]) && r.halfedges[he].vid == m.halfedges[d.o1].vid
  {
    var d := DiamondOf(m, he);
    FlippedShape(m, d);
    var r := Flipped(m, d);
    FlippedValid(m, d);
    FlipKeepsBoundary(m, d, r);
    KeptBoundarySentinel(m, r);
    FlipVids(m, d, r);
    FlipKeepsVertices(m, d, r);
  }

  /**
    After the flip the two edges `legalizeEdge` pushes, hef's old next o2 and
    prev o3, both follow an edge leaving the apex of he's old triangle: the
    shape every edge the driver examines has, opposite the inserted point.
   */
  lemma FlipPushedOpposite(m: Mesh, he: nat)
    requires Valid(m) && he < |m.halfedges| && !IsBoundary(m.halfedges[he])
    ensures var d := DiamondOf(m, he);
      && DiamondSlots(|m.halfedges|, d) && FaceOfHe(m, d.he) < |m.faces| && FaceOfHe(m, d.hef) < |m.faces|
      && Prev(m, d.hef) == d.o3 && Next(m, d.hef) == d.o2 && Prev(m, he) == d.o1
    ensures var d := DiamondOf(m, he); var r := Flipped(m, d);
      && Prev(r, d.o3) == d.he && Prev(r, d.o2) == d.o1
      && r.halfedges[d.he].vid == m.halfedges[d.o1].vid && r.halfedges[d.o1].vid == m.halfedges[d.o1].vid
  {
    var d := DiamondOf(m, he);
    DiamondFacts(m, d);
    FlippedShape(m, d);
  }
}
