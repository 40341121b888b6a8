/**
  The geometric predicates of the triangulator, aware of the two sentinel
  points at infinity. A vid is a point id or one of the sentinels
  size_t(-1) and size_t(-2); the original tells them apart by comparing
  against size_t(-2), which `SentinelTest` shows agrees with the datatype.
 */
module DelaunayPredicates {
  import opened Vector2
  import opened HalfEdge
  import Utils
  import opened MeshSplit

  /** 2^64: size_t arithmetic wraps modulo this. */
  const SizeMax: nat := 0x1_0000_0000_0000_0000

  /** The size_t value a vid holds. */
  function Encode(v: VertexId): nat
  {
    match v
    case Real(id) => id
    case NegOne => SizeMax - 1
    case NegTwo => SizeMax - 2
  }

  /**
    The sentinels are the two largest size_t values: distinct from each
    other and from every point id below size_t(-2), so the original's
    `v >= cVertexIdNegTwo` holds exactly for the sentinels and
    `v < cVertexIdNegTwo` exactly for point ids.
   */
  lemma SentinelTest(v: VertexId, w: VertexId)
    requires v.Real? ==> v.id < SizeMax - 2
    requires w.Real? ==> w.id < SizeMax - 2
    ensures Encode(v) >= Encode(NegTwo) <==> !v.Real?
    ensures Encode(v) < Encode(NegTwo) <==> v.Real?
    ensures Encode(v) == Encode(w) <==> v == w
    ensures Encode(NegOne) == SizeMax - 1 && Encode(NegTwo) == SizeMax - 2
  {
  }

  /** Every point id a mesh names is below n. */
  predicate VidsBelow(m: Mesh, n: nat)
  {
    forall i :: 0 <= i < |m.halfedges| && m.halfedges[i].vid.Real? ==> m.halfedges[i].vid.id < n
  }

  /** The vid t names a point of pts, or a sentinel. */
  predicate VidIn(pts: seq<Vec2>, t: VertexId)
  {
    t.Real? ==> t.id < |pts|
  }

  /**
    `toLeft(o, t, p)`: p lies strictly to the left of the line from o towards
    t. The origin o is a point; towards the sentinel size_t(-2) "left" means
    a larger x, towards size_t(-1) a smaller x.
   */
  predicate ToLeft(pts: seq<Vec2>, o: nat, t: VertexId, p: nat)
    requires o < |pts| && p < |pts| && VidIn(pts, t)
  {
    match t
    case NegTwo => pts[p].x > pts[o].x
    case NegOne => pts[p].x < pts[o].x
    case Real(k) => Cross(Sub(pts[k], pts[o]), Sub(pts[p], pts[o])) > 0
  }

  predicate ToRight(pts: seq<Vec2>, o: nat, t: VertexId, p: nat)
    requires o < |pts| && p < |pts| && VidIn(pts, t)
  {
    !ToLeft(pts, o, t, p)
  }

  /** The exact orientation test of three points. */
  predicate LeftOfPoints(o: Vec2, t: Vec2, p: Vec2)
  {
    Cross(Sub(t, o), Sub(p, o)) > 0
  }

  /**
    The sentinels behave as points straight below (size_t(-2)) and straight
    above (size_t(-1)) the origin, at any distance: `toLeft` towards them is
    the ordinary orientation test against such a point.
   */
  lemma SentinelDirections(pts: seq<Vec2>, o: nat, p: nat, k: int)
    requires o < |pts| && p < |pts| && k > 0
    ensures ToLeft(pts, o, NegTwo, p) <==> LeftOfPoints(pts[o], Vec2(pts[o].x, pts[o].y - k), pts[p])
    ensures ToLeft(pts, o, NegOne, p) <==> LeftOfPoints(pts[o], Vec2(pts[o].x, pts[o].y + k), pts[p])
  {
    var dx := pts[p].x - pts[o].x;
    assert Cross(Sub(Vec2(pts[o].x, pts[o].y - k), pts[o]), Sub(pts[p], pts[o])) == k * dx;
    assert Cross(Sub(Vec2(pts[o].x, pts[o].y + k), pts[o]), Sub(pts[p], pts[o])) == -(k * dx);
    if dx > 0 {
      assert k * dx > 0;
    } else if dx < 0 {
      assert k * dx < 0;
    } else {
      assert k * dx == 0;
    }
  }

  /**
    Between points, `toLeft` is the orientation test: a point on the line
    through o and t (in particular o and t themselves) is never to the left,
    and if p is left of o -> t then t is not left of o -> p.
   */
  lemma ToLeftOrientation(pts: seq<Vec2>, o: nat, t: nat, p: nat)
    requires o < |pts| && t < |pts| && p < |pts|
    ensures ToLeft(pts, o, Real(t), p) <==> LeftOfPoints(pts[o], pts[t], pts[p])
    ensures !ToLeft(pts, o, Real(t), o) && !ToLeft(pts, o, Real(t), t)
    ensures ToLeft(pts, o, Real(t), p) ==> !ToLeft(pts, o, Real(p), t)
    ensures ToRight(pts, o, Real(t), p) <==> !ToLeft(pts, o, Real(t), p)
  {
    CrossAlternating(Sub(pts[t], pts[o]), Sub(pts[p], pts[o]));
    CrossAlternating(Sub(pts[t], pts[o]), Sub(pts[t], pts[o]));
  }

  /**
    `inCircle(p0, p1, p2, targ)` for the triangle (p0, p1, p2) whose first
    corner is a point: a sentinel target is never inside; a sentinel corner
    turns the circle into the half-plane beyond the edge between the point
    corners; three points use the lifted determinant.
   */
  predicate InCircle(pts: seq<Vec2>, p0: nat, p1: VertexId, p2: VertexId, targ: VertexId)
    requires p0 < |pts| && VidIn(pts, p1) && VidIn(pts, p2) && VidIn(pts, targ)
  {
    if !targ.Real? then false
    else if !p1.Real? then ToRight(pts, p0, p2, targ.id)
    else if !p2.Real? then ToLeft(pts, p0, p1, targ.id)
    else Utils.InCircle(pts[p0], pts[p1.id], pts[p2.id], pts[targ.id])
  }

  /**
    The first corner itself as target: with three point corners it is on
    the circle and so not inside, but a triangle with a sentinel corner
    counts it as inside, since the half-plane test is not strict.
   */
  lemma InCircleAtFirstCorner(pts: seq<Vec2>, p0: nat, p1: VertexId, p2: VertexId)
    requires p0 < |pts| && VidIn(pts, p1) && VidIn(pts, p2)
    ensures p1.Real? && p2.Real? ==> !InCircle(pts, p0, p1, p2, Real(p0))
    ensures !p1.Real? ==> InCircle(pts, p0, p1, p2, Real(p0))
  {
    if p1.Real? && p2.Real? {
      Utils.OnCircleVertexIsNotInside(pts[p0], pts[p1.id], pts[p2.id], pts[p0]);
    } else if !p1.Real? && p2.Real? {
      ToLeftOrientation(pts, p0, p2.id, p0);
    }
  }

  /** With three point corners, the dispatch is the determinant's verdict, unchanged by rotating the corners. */
  lemma InCircleOfPoints(pts: seq<Vec2>, p0: nat, p1: nat, p2: nat, t: nat)
    requires p0 < |pts| && p1 < |pts| && p2 < |pts| && t < |pts|
    ensures InCircle(pts, p0, Real(p1), Real(p2), Real(t)) <==> Utils.InCircleDet(pts[p0], pts[p1], pts[p2], pts[t]) > 0
    ensures InCircle(pts, p0, Real(p1), Real(p2), Real(t)) <==> InCircle(pts, p1, Real(p2), Real(p0), Real(t))
  {
    Utils.InCircleSymmetries(pts[p0], pts[p1], pts[p2], pts[t]);
  }

  // ---------------------------------------------------------------------
  // onEdge
  // ---------------------------------------------------------------------

  /**
    The k-th half-edge (k < 3) of face f's cycle, counted from the face's
    representative.
   */
  function CycleEdge(m: Mesh, f: nat, k: nat): (h: nat)
    requires Valid(m) && f < |m.faces| && k < 3
    ensures h < |m.halfedges| && m.halfedges[h].fid == At(f)
  {
    FaceCycleOf(m, f);
    var h0 := m.faces[f].heid.pos;
    CycleFacts(m, h0);
    if k == 0 then h0 else if k == 1 then Next(m, h0) else Next(m, Next(m, h0))
  }

  /** Next walks round the cycle and returns to the representative after three steps. */
  lemma CycleEdgeNext(m: Mesh, f: nat, k: nat)
    requires Valid(m) && f < |m.faces| && k < 3
    ensures Next(m, CycleEdge(m, f, k)) == if k < 2 then CycleEdge(m, f, k + 1) else CycleEdge(m, f, 0)
    ensures CycleEdge(m, f, k) == CycleEdge(m, f, 0) <==> k == 0
  {
    FaceCycleOf(m, f);
    CycleFacts(m, m.faces[f].heid.pos);
  }

  /**
    Half-edge h runs between two points and the query point p is on the line
    through them up to the tolerance: the cross product lies strictly
    between -eps and eps.
   */
  predicate NearLine(m: Mesh, pts: seq<Vec2>, eps: nat, p: nat, h: nat)
    requires Valid(m) && VidsBelow(m, |pts|) && p < |pts| && h < |m.halfedges|
  {
    assert EdgeOk(m, h);
    var a, b := m.halfedges[h].vid, m.halfedges[Next(m, h)].vid;
    && a.Real? && b.Real?
    && var area := Cross(Sub(pts[b.id], pts[a.id]), Sub(pts[p], pts[a.id]));
    && -(eps as int) < area < eps
  }

  /** The answer `onEdge` should give: the first edge of the cycle near p, or none. */
  function FirstNearEdge(m: Mesh, pts: seq<Vec2>, eps: nat, p: nat, f: nat): Index
    requires Valid(m) && VidsBelow(m, |pts|) && p < |pts| && f < |m.faces|
  {
    if NearLine(m, pts, eps, p, CycleEdge(m, f, 0)) then At(CycleEdge(m, f, 0))
    else if NearLine(m, pts, eps, p, CycleEdge(m, f, 1)) then At(CycleEdge(m, f, 1))
    else if NearLine(m, pts, eps, p, CycleEdge(m, f, 2)) then At(CycleEdge(m, f, 2))
    else Invalid
  }

  /**
    `onEdge(p, f)` as written: a do-while walk round face f's cycle from its
    representative, returning the first edge between two points whose line
    passes within the tolerance of p. Only the line is checked, not whether p
    lies between the endpoints.
   */
  method OnEdge(m: Mesh, pts: seq<Vec2>, eps: nat, p: nat, f: nat) returns (r: Index)
    requires Valid(m) && VidsBelow(m, |pts|) && p < |pts| && f < |m.faces|
    ensures r == FirstNearEdge(m, pts, eps, p, f)
    ensures r.At? ==> r.pos < |m.halfedges| && m.halfedges[r.pos].fid == At(f) && NearLine(m, pts, eps, p, r.pos)
  {
    FaceCycleOf(m, f);
    var he := HeFromFace(m, f);
    var cur := he;
    var k := 0;
    while true
      invariant k < 3 && cur == CycleEdge(m, f, k)
      invariant forall j :: 0 <= j < k ==> !NearLine(m, pts, eps, p, CycleEdge(m, f, j))
      decreases 3 - k
    {
      if NearLine(m, pts, eps, p, cur) {
        return At(cur);
      }
      CycleEdgeNext(m, f, k);
      cur := Next(m, cur);
      k := k + 1;
      if cur == he {
        return Invalid;
      }
    }
  }

  /**
    With a tolerance of 0 nothing is near; with a tolerance of 1 (exact
    integer coordinates) "near" is exact collinearity, which holds for the
    endpoints themselves whatever the edge.
   */
  lemma NearLineExact(m: Mesh, pts: seq<Vec2>, p: nat, h: nat)
    requires Valid(m) && VidsBelow(m, |pts|) && p < |pts| && h < |m.halfedges|
    ensures !NearLine(m, pts, 0, p, h)
    ensures InRange(m, Next(m, h))
    ensures m.halfedges[h].vid == Real(p) ==> (NearLine(m, pts, 1, p, h) <==> m.halfedges[Next(m, h)].vid.Real?)
  {
    assert EdgeOk(m, h);
  }

  /** An outer triangle: half-edges leaving points 0 and 1 and the sentinel size_t(-2). */
  const OuterTriangle := Mesh([HalfEdge(0, At(0), Real(0), 2, 1, 0),
                               HalfEdge(1, At(0), Real(1), -1, 1, 0),
                               HalfEdge(2, At(0), NegTwo, -1, -2, 0)],
                              [Face(0, At(0))])

  /** Three points on the x-axis: the endpoints (0, 0) and (1, 0), and (2, 0) beyond the second. */
  predicate CollinearPts(pts: seq<Vec2>)
  {
    |pts| == 3 && pts[0] == Vec2(0, 0) && pts[1] == Vec2(1, 0) && pts[2] == Vec2(2, 0)
  }

  /**
    `onEdge` tests the line, not the segment: point 2 lies beyond the end
    (1, 0) of the edge leaving (0, 0), yet with a tolerance of 1 it counts
    as near that edge, which is the first the walk meets.
   */
  lemma NearBeyondEndpoint(pts: seq<Vec2>)
    requires CollinearPts(pts)
    ensures Valid(OuterTriangle) && VidsBelow(OuterTriangle, |pts|)
    ensures NearLine(OuterTriangle, pts, 1, 2, 0)
    ensures FirstNearEdge(OuterTriangle, pts, 1, 2, 0) == At(0)
  {
    OuterTriangleValid();
    FirstEdgeNear(OuterTriangle, pts);
  }

  /**
    In any valid mesh whose face 0 starts with an edge from point 0 to
    point 1, with all three points on the x-axis, point 2 is near that edge.
   */
  lemma FirstEdgeNear(m: Mesh, pts: seq<Vec2>)
    requires Valid(m) && VidsBelow(m, 3) && |pts| == 3 && |m.halfedges| > 1 && |m.faces| > 0
    requires pts[0].y == 0 && pts[1].y == 0 && pts[2].y == 0
    requires m.faces[0].heid == At(0) && Next(m, 0) == 1
    requires m.halfedges[0].vid == Real(0) && m.halfedges[1].vid == Real(1)
    ensures NearLine(m, pts, 1, 2, 0) && FirstNearEdge(m, pts, 1, 2, 0) == At(0)
  {
    CollinearArea(pts);
    assert NearLine(m, pts, 1, 2, 0) by {
      assert EdgeOk(m, 0);
    }
    assert CycleEdge(m, 0, 0) == 0;
    FirstEdgeWins(m, pts, 1, 2, 0);
  }

  /** When the walk's first edge is near, `onEdge` answers with it. */
  lemma FirstEdgeWins(m: Mesh, pts: seq<Vec2>, eps: nat, p: nat, f: nat)
    requires Valid(m) && VidsBelow(m, |pts|) && p < |pts| && f < |m.faces|
    requires NearLine(m, pts, eps, p, CycleEdge(m, f, 0))
    ensures FirstNearEdge(m, pts, eps, p, f) == At(CycleEdge(m, f, 0))
  {
  }

  /** The three points are on one line. */
  lemma CollinearArea(pts: seq<Vec2>)
    requires |pts| == 3 && pts[0].y == 0 && pts[1].y == 0 && pts[2].y == 0
    ensures Cross(Sub(pts[1], pts[0]), Sub(pts[2], pts[0])) == 0
  {
    CrossOnXAxis(Sub(pts[1], pts[0]), Sub(pts[2], pts[0]));
  }

  /** Two vectors along the x-axis have cross product 0. */
  lemma CrossOnXAxis(u: Vec2, w: Vec2)
    requires u.y == 0 && w.y == 0
    ensures Cross(u, w) == 0
  {
  }

  /** The outer triangle is a valid mesh over three points. */
  lemma OuterTriangleValid()
    ensures Valid(OuterTriangle) && VidsBelow(OuterTriangle, 3)
  {
    var m := OuterTriangle;
    EdgeOkIntro(m, 0, 1, 2);
    EdgeOkIntro(m, 1, 2, 0);
    EdgeOkIntro(m, 2, 0, 1);
  }
}
