/**
  The incremental Delaunay driver: a first triangle on the leftmost point
  and the two sentinels, one bucket holding every other point, then each
  point in id order is inserted into the face its bucket names (or onto an
  edge of it), the points of the touched faces are re-bucketed, and the
  edges opposite the new point are legalized by flipping.

  Two things the original leaves to geometry are explicit here: the
  legalization loop runs on fuel, and a flip that would repeat a corner,
  or make `reBucketFlip` read a sentinel as a point, stops the run as
  `DegenerateFlip`. Every run is recorded as a trace of steps.
  Everything else (a valid mesh, point ids below the point count, the
  sentinel on every boundary edge, the bucket relation, every pending point
  in its face's bucket) is kept as a loop invariant.
 */
module Delaunay {
  import opened Vector2
  import opened HalfEdge
  import opened MeshSplit
  import opened MeshFlip
  import opened DelaunayPredicates
  import opened PointBuckets
  import opened DriverInvariants

  /** How a run ended. */
  datatype Outcome = Done | OutOfFuel | DegenerateFlip

  // ---------------------------------------------------------------------
  // initFirstTriangle, initBucket
  // ---------------------------------------------------------------------

  /** The order of the leftmost search: smaller x first, then smaller y. */
  predicate LexLess(a: Vec2, b: Vec2)
  {
    a.x < b.x || (a.x == b.x && a.y < b.y)
  }

  /** The search of `initFirstTriangle`: the first point that no point precedes in (x, y) order. */
  method FindLeftmost(pts: seq<Vec2>) returns (k: nat)
    requires |pts| > 0
    ensures k < |pts|
    ensures forall j :: 0 <= j < |pts| ==> !LexLess(pts[j], pts[k])
    ensures forall j :: 0 <= j < k ==> LexLess(pts[k], pts[j])
  {
    k := 0;
    for i := 1 to |pts|
      invariant k < i
      invariant forall j :: 0 <= j < i ==> !LexLess(pts[j], pts[k])
      invariant forall j :: 0 <= j < k ==> LexLess(pts[k], pts[j])
    {
      if LexLess(pts[i], pts[k]) {
        k := i;
      }
    }
  }

  /**
    The first triangle: half-edge 0 leaves the sentinel size_t(-2), 1 the
    sentinel size_t(-1), 2 the seed point; all three in face 0, linked
    0 -> 1 -> 2 -> 0, none with a flip.
   */
  function FirstTriangle(seed: nat): Mesh
  {
    Mesh([HalfEdge(0, At(0), NegTwo, 2, 1, 0),
          HalfEdge(1, At(0), NegOne, -1, 1, 0),
          HalfEdge(2, At(0), Real(seed), -1, -2, 0)],
         [Face(0, At(0))])
  }

  /** The first triangle satisfies the driver's invariant and has the seed as a vertex. */
  lemma FirstTriangleInv(seed: nat, n: nat)
    requires seed < n
    ensures MeshInv(FirstTriangle(seed), n) && HasVertex(FirstTriangle(seed), seed)
  {
    var m := FirstTriangle(seed);
    EdgeOkIntro(m, 0, 1, 2);
    EdgeOkIntro(m, 1, 2, 0);
    EdgeOkIntro(m, 2, 0, 1);
    assert m.halfedges[2].vid == Real(seed);
  }

  /** `hes[i].fid = f`. */
  function SetFid(m: Mesh, i: nat, f: nat): (r: Mesh)
    requires i < |m.halfedges|
    ensures r.halfedges == m.halfedges[i := m.halfedges[i].(fid := At(f))] && r.faces == m.faces
  {
    m.(halfedges := m.halfedges[i := m.halfedges[i].(fid := At(f))])
  }

  /**
    `initFirstTriangle` as written: the leftmost point is found, both arrays
    are resized (three fresh half-edges, one fresh face), the vids and face
    ids are written, face 0 names half-edge 0, and the three are linked.
   */
  method InitFirstTriangle(pts: seq<Vec2>) returns (m: Mesh, seed: nat)
    requires |pts| > 0
    ensures seed < |pts| && forall j :: 0 <= j < |pts| ==> !LexLess(pts[j], pts[seed])
    ensures forall j :: 0 <= j < seed ==> LexLess(pts[seed], pts[j])
    ensures m == FirstTriangle(seed)
    ensures MeshInv(m, |pts|) && HasVertex(m, seed)
  {
    seed := FindLeftmost(pts);
    m := Grow(Mesh([], []), 3, 1);
    m := SetVid(m, 0, NegTwo);
    m := SetVid(m, 1, NegOne);
    m := SetVid(m, 2, Real(seed));
    m := SetFid(m, 2, 0);
    m := SetFid(m, 1, 0);
    m := SetFid(m, 0, 0);
    m := m.(faces := m.faces[0 := m.faces[0].(heid := At(0))]);
    m := LinkEdgeLoop(m, 0, 1, 2);
    assert m.halfedges == FirstTriangle(seed).halfedges;
    FirstTriangleInv(seed, |pts|);
  }

  /** The point ids below n other than skip, in increasing order: the ids `initBucket` and `traversalPts` visit. */
  function Schedule(skip: VertexId, n: nat): seq<nat>
  {
    if n == 0 then [] else Schedule(skip, n - 1) + (if Real(n - 1) == skip then [] else [n - 1])
  }

  /** Schedule(skip, n) holds every id below n but skip, once each, in increasing order. */
  lemma {:induction false} ScheduleOrder(skip: VertexId, n: nat)
    ensures forall q: nat :: q in Schedule(skip, n) <==> q < n && Real(q) != skip
    ensures forall i, j :: 0 <= i < j < |Schedule(skip, n)| ==> Schedule(skip, n)[i] < Schedule(skip, n)[j]
  {
    if n > 0 {
      var s := Schedule(skip, n - 1);
      ScheduleOrder(skip, n - 1);
      if Real(n - 1) != skip {
        var t := s + [n - 1];
        forall i, j | 0 <= i < j < |t| ensures t[i] < t[j] {
          if j == |s| {
            assert s[i] in s;
          }
        }
      }
    }
  }

  /** The buckets `initBucket` builds: face 0 holds every point but the seed, in id order, and every point maps to face 0. */
  function InitialBuckets(n: nat, seed: nat): Buckets
  {
    Buckets(map[0 := Schedule(Real(seed), n)], seq(n, _ => 0))
  }

  /**
    `initBucket` as written: every point id but the seed's, in increasing
    order, goes into face 0's bucket, and every point is mapped to face 0.
   */
  method InitBucket(n: nat, seed: nat) returns (b: Buckets)
    ensures b.faceToPoints.Keys == {0} && b.pointToFace == seq(n, _ => 0)
    ensures |Get(b, 0)| == (if seed < n then n - 1 else n)
    ensures forall k :: 0 <= k < |Get(b, 0)| ==> Get(b, 0)[k] == if k < seed then k else k + 1
    ensures Consistent(b, n, 1)
    ensures forall q: nat :: q < n && q != seed ==> Located(b, q)
    ensures b == InitialBuckets(n, seed)
  {
    var bucket: seq<nat> := [];
    for i := 0 to n
      invariant bucket == Schedule(Real(seed), i)
      invariant |bucket| == if i <= seed then i else i - 1
      invariant forall k :: 0 <= k < |bucket| ==> bucket[k] == if k < seed then k else k + 1
    {
      if i != seed {
        bucket := bucket + [i];
      }
    }
    b := Buckets(map[0 := bucket], seq(n, _ => 0));
    forall q: nat | q < n && q != seed ensures Located(b, q) {
      var k := if q < seed then q else q - 1;
      assert bucket[k] == q;
    }
  }

  // ---------------------------------------------------------------------
  // legalizeEdge
  // ---------------------------------------------------------------------

  /** The driver's state invariant over the points pts. */
  ghost predicate StateInv(pts: seq<Vec2>, m: Mesh, b: Buckets)
  {
    MeshInv(m, |pts|) && Consistent(b, |pts|, |m.faces|)
  }

  /** Every entry names a half-edge of m. */
  predicate EdgesIn(m: Mesh, s: seq<nat>)
  {
    forall k :: 0 <= k < |s| ==> s[k] < |m.halfedges|
  }

  /** The top of an edge stack. */
  function TopEdge(stack: seq<nat>): nat
    requires stack != []
  {
    stack[|stack| - 1]
  }

  /** The stack without its top. */
  function Popped(stack: seq<nat>): seq<nat>
    requires stack != []
  {
    stack[..|stack| - 1]
  }

  /** The apex of cur's own triangle: the origin of cur's prev. */
  function NearApex(m: Mesh, cur: nat): VertexId
    requires Valid(m) && cur < |m.halfedges|
  {
    assert EdgeOk(m, cur);
    m.halfedges[Prev(m, cur)].vid
  }

  /** The apex beyond cur: the origin of its twin's prev. */
  function FarApex(m: Mesh, cur: nat): VertexId
    requires Valid(m) && cur < |m.halfedges|
  {
    assert EdgeOk(m, cur);
    assert EdgeOk(m, Flip(m, cur));
    m.halfedges[Prev(m, Flip(m, cur))].vid
  }

  /** The points of the two faces on either side of cur, its own face's first. */
  function Dirty(m: Mesh, b: Buckets, cur: nat): seq<nat>
    requires Valid(m) && cur < |m.halfedges|
  {
    assert EdgeOk(m, cur);
    Get(b, FaceOfHe(m, cur)) + Get(b, FaceOfHe(m, Flip(m, cur)))
  }

  /**
    The test `legalizeEdge` applies to a popped edge cur: cur has a twin,
    and the apex beyond the twin lies in the circle through v and the
    origins of cur and its twin.
   */
  predicate WantsFlip(pts: seq<Vec2>, m: Mesh, v: nat, cur: nat)
    requires MeshInv(m, |pts|) && v < |pts| && cur < |m.halfedges|
  {
    assert EdgeOk(m, cur);
    var curF := Flip(m, cur);
    assert EdgeOk(m, curF);
    && !IsBoundary(m.halfedges[cur])
    && InCircle(pts, v, m.halfedges[cur].vid, m.halfedges[curF].vid, FarApex(m, cur))
  }

  /**
    A flip `legalizeEdge` wants that the model does not carry out: the two
    apexes are the same vertex, where a flip is proved valid only for
    distinct apexes (`FlipStep`); or the near apex is a sentinel and the two buckets
    hold points, which `reBucketFlip` would then test against the point
    array at index size_t(-1) or size_t(-2).
   */
  predicate Blocked(pts: seq<Vec2>, m: Mesh, b: Buckets, v: nat, cur: nat)
    requires MeshInv(m, |pts|) && v < |pts| && cur < |m.halfedges|
  {
    && WantsFlip(pts, m, v, cur)
    && (NearApex(m, cur) == FarApex(m, cur) || (!NearApex(m, cur).Real? && Dirty(m, b, cur) != []))
  }

  /**
    When the near apex is the inserted point, as the original's geometry
    has it, a wanted flip is blocked only with v also beyond and a sentinel
    at cur's origin: with three point corners the test at a corner fails.
   */
  lemma BlockedAtSentinel(pts: seq<Vec2>, m: Mesh, b: Buckets, v: nat, cur: nat)
    requires MeshInv(m, |pts|) && v < |pts| && cur < |m.halfedges|
    requires NearApex(m, cur) == Real(v) && Blocked(pts, m, b, v, cur)
    ensures FarApex(m, cur) == Real(v) && !m.halfedges[cur].vid.Real?
  {
    assert EdgeOk(m, cur);
    var curF := Flip(m, cur);
    assert EdgeOk(m, curF);
    var p1, p2 := m.halfedges[cur].vid, m.halfedges[curF].vid;
    InCircleAtFirstCorner(pts, v, p1, p2);
    if p1.Real? && !p2.Real? {
      ToLeftOrientation(pts, v, p1.id, v);
    }
  }

  /** A `legalizeEdge` state: the mesh, the buckets and the edge stack. */
  datatype Legalizing = Legalizing(mesh: Mesh, buckets: Buckets, stack: seq<nat>)

  /** The driver's invariant on a legalization state for the inserted point v. */
  ghost predicate LegalState(pts: seq<Vec2>, v: nat, s: Legalizing)
  {
    StateInv(pts, s.mesh, s.buckets) && v < |pts| && EdgesIn(s.mesh, s.stack)
  }

  /**
    One pass of the `legalizeEdge` loop that does not stop the run, from s
    to t: the top edge is popped; unless it wants a flip nothing else
    changes; otherwise its twin's prev and next are pushed in that order,
    the edge is flipped, and the two triangles are re-bucketed across it
    (with no points to move when the near apex is a sentinel).
   */
  ghost predicate Stepped(pts: seq<Vec2>, v: nat, s: Legalizing, t: Legalizing)
    requires LegalState(pts, v, s) && s.stack != []
  {
    var m, cur := s.mesh, TopEdge(s.stack);
    if !WantsFlip(pts, m, v, cur) then t == Legalizing(m, s.buckets, Popped(s.stack))
    else !Blocked(pts, m, s.buckets, v, cur) && FlipMoves(pts, s, t)
  }

  /**
    The effect of flipping the top edge cur of s, as t: the popped stack
    gains cur's twin's prev and next in that order, the mesh is the
    flipped diamond of cur, and the buckets are re-bucketed across the new
    diagonal (unchanged when the near apex is a sentinel).
   */
  ghost predicate FlipMoves(pts: seq<Vec2>, s: Legalizing, t: Legalizing)
    requires Valid(s.mesh) && s.stack != [] && TopEdge(s.stack) < |s.mesh.halfedges|
    requires !IsBoundary(s.mesh.halfedges[TopEdge(s.stack)])
  {
    var m, cur := s.mesh, TopEdge(s.stack);
    var d := DiamondOf(m, cur);
    && DiamondSlots(|m.halfedges|, d) && FaceOfHe(m, d.he) < |m.faces| && FaceOfHe(m, d.hef) < |m.faces|
    && t.mesh == Flipped(m, d)
    && t.stack == Popped(s.stack) + [Prev(m, d.hef), Next(m, d.hef)]
    && if NearApex(m, cur).Real? then FlipBucketed(s.buckets, pts, t.mesh, cur, t.buckets)
       else t.buckets == s.buckets
  }

  /** The k-th state of trace steps to the next one. */
  ghost predicate StepAt(pts: seq<Vec2>, v: nat, trace: seq<Legalizing>, k: nat)
  {
    && k + 1 < |trace| && LegalState(pts, v, trace[k]) && trace[k].stack != []
    && Stepped(pts, v, trace[k], trace[k + 1])
  }

  /** A sequence of legalization states, each reached from the one before by a step. */
  ghost predicate Run(pts: seq<Vec2>, v: nat, trace: seq<Legalizing>)
  {
    && |trace| > 0
    && (forall k :: 0 <= k < |trace| ==> LegalState(pts, v, trace[k]))
    && (forall k: nat :: k + 1 < |trace| ==> StepAt(pts, v, trace, k))
  }

  /**
    How a legalization through trace ended with out: `Done` exactly when
    the stack emptied; `OutOfFuel` after fuel passes; `DegenerateFlip`
    within the fuel, at a blocked flip on top of the stack.
   */
  ghost predicate Ended(pts: seq<Vec2>, v: nat, fuel: nat, trace: seq<Legalizing>, out: Outcome)
  {
    && Run(pts, v, trace) && |trace| <= fuel + 1
    && var last := trace[|trace| - 1];
    && (out == Done <==> last.stack == [])
    && (out == OutOfFuel ==> |trace| == fuel + 1)
    && (out == DegenerateFlip ==>
          last.stack != [] && |trace| <= fuel && Blocked(pts, last.mesh, last.buckets, v, TopEdge(last.stack)))
  }

  /** A run extended by one step is a run. */
  lemma RunExtend(pts: seq<Vec2>, v: nat, trace: seq<Legalizing>, t: Legalizing)
    requires Run(pts, v, trace) && trace[|trace| - 1].stack != [] && LegalState(pts, v, t)
    requires Stepped(pts, v, trace[|trace| - 1], t)
    ensures Run(pts, v, trace + [t])
  {
    var tr := trace + [t];
    forall k | 0 <= k < |tr| ensures LegalState(pts, v, tr[k]) {
      if k < |trace| {
        assert tr[k] == trace[k];
      }
    }
    forall k: nat | k + 1 < |tr| ensures StepAt(pts, v, tr, k) {
      StepAtPrefix(pts, v, trace, t, k);
    }
  }

  /** A step of a trace is still a step once the trace is extended. */
  lemma StepAtPrefix(pts: seq<Vec2>, v: nat, trace: seq<Legalizing>, t: Legalizing, k: nat)
    requires Run(pts, v, trace) && trace[|trace| - 1].stack != [] && LegalState(pts, v, t)
    requires Stepped(pts, v, trace[|trace| - 1], t)
    requires k + 1 < |trace| + 1
    ensures StepAt(pts, v, trace + [t], k)
  {
    var tr := trace + [t];
    assert tr[k] == trace[k];
    if k + 1 < |trace| {
      assert tr[k + 1] == trace[k + 1];
      assert StepAt(pts, v, trace, k);
    } else {
      assert tr[k + 1] == t;
    }
  }

  /**
    The flip step of `legalizeEdge` on an edge cur: cur is flipped towards
    the apex beyond it, and the points of the two triangles are re-bucketed
    along the new diagonal. With a sentinel as near apex there are no
    points to move, so the buckets stay as they are.
   */
  method FlipAndRebucket(pts: seq<Vec2>, m: Mesh, b: Buckets, cur: nat) returns (r: Mesh, rb: Buckets)
    requires StateInv(pts, m, b) && cur < |m.halfedges| && !IsBoundary(m.halfedges[cur])
    requires NearApex(m, cur) != FarApex(m, cur)
    requires !NearApex(m, cur).Real? ==> Dirty(m, b, cur) == []
    ensures StateInv(pts, r, rb) && KeepsVertices(m, r)
    ensures |r.halfedges| == |m.halfedges| && |r.faces| == |m.faces|
    ensures forall q: nat :: Located(b, q) ==> Located(rb, q)
    ensures var d := DiamondOf(m, cur);
      && DiamondSlots(|m.halfedges|, d) && FaceOfHe(m, d.he) < |m.faces| && FaceOfHe(m, d.hef) < |m.faces|
      && r == Flipped(m, d)
    ensures if NearApex(m, cur).Real? then FlipBucketed(b, pts, r, cur, rb) else rb == b
  {
    var d := DiamondOf(m, cur);
    DiamondFacts(m, d);
    FlipStep(m, |pts|, cur);
    r := FlipEdge(m, cur);
    if NearApex(m, cur).Real? {
      rb := ReBucketFlip(b, pts, r, cur);
    } else {
      rb := b;
    }
  }

  /**
    The flipping branch of a `legalizeEdge` pass: the twin's prev and next
    (read before the flip) are pushed in that order on the popped stack,
    then the top edge is flipped and the two triangles re-bucketed. Both
    pushed edges end up opposite the near apex.
   */
  method FlipTop(pts: seq<Vec2>, m: Mesh, b: Buckets, stack: seq<nat>, v: nat)
    returns (r: Mesh, rb: Buckets, stack': seq<nat>)
    requires LegalState(pts, v, Legalizing(m, b, stack)) && stack != []
    requires !IsBoundary(m.halfedges[TopEdge(stack)]) && NearApex(m, TopEdge(stack)) != FarApex(m, TopEdge(stack))
    requires !NearApex(m, TopEdge(stack)).Real? ==> Dirty(m, b, TopEdge(stack)) == []
    ensures LegalState(pts, v, Legalizing(r, rb, stack')) && KeepsVertices(m, r)
    ensures |r.halfedges| == |m.halfedges| && |r.faces| == |m.faces|
    ensures forall q: nat :: Located(b, q) ==> Located(rb, q)
    ensures FlipMoves(pts, Legalizing(m, b, stack), Legalizing(r, rb, stack'))
    ensures forall k :: |stack| - 1 <= k < |stack'| ==>
      InRange(r, Prev(r, stack'[k])) && r.halfedges[Prev(r, stack'[k])].vid == NearApex(m, TopEdge(stack))
  {
    var cur := TopEdge(stack);
    var d := DiamondOf(m, cur);
    DiamondFacts(m, d);
    var curF := Flip(m, cur);
    stack' := Popped(stack) + [Prev(m, curF), Next(m, curF)];
    FlipPushedOpposite(m, cur);
    r, rb := FlipAndRebucket(pts, m, b, cur);
  }

  /**
    One pass of the `legalizeEdge` loop: the top edge is popped, and
    flipped when it wants a flip. A blocked flip is reported as
    `DegenerateFlip` with nothing changed.
   */
  method LegalizeStep(pts: seq<Vec2>, m: Mesh, b: Buckets, stack: seq<nat>, v: nat)
    returns (r: Mesh, rb: Buckets, stack': seq<nat>, out: Outcome)
    requires LegalState(pts, v, Legalizing(m, b, stack)) && stack != []
    ensures LegalState(pts, v, Legalizing(r, rb, stack')) && KeepsVertices(m, r)
    ensures |r.halfedges| == |m.halfedges| && |r.faces| == |m.faces|
    ensures forall q: nat :: Located(b, q) ==> Located(rb, q)
    ensures out != OutOfFuel
    ensures out == DegenerateFlip <==> Blocked(pts, m, b, v, TopEdge(stack))
    ensures out == DegenerateFlip ==> r == m && rb == b
    ensures out == Done ==> Stepped(pts, v, Legalizing(m, b, stack), Legalizing(r, rb, stack'))
    ensures out == Done ==> forall k :: |stack| - 1 <= k < |stack'| ==>
      InRange(r, Prev(r, stack'[k])) && r.halfedges[Prev(r, stack'[k])].vid == NearApex(m, TopEdge(stack))
  {
    var cur := TopEdge(stack);
    if !WantsFlip(pts, m, v, cur) {
      return m, b, Popped(stack), Done;
    }
    if Blocked(pts, m, b, v, cur) {
      return m, b, Popped(stack), DegenerateFlip;
    }
    r, rb, stack' := FlipTop(pts, m, b, stack, v);
    out := Done;
  }

  /**
    `legalizeEdge(frontier, v)` as written, on fuel: steps until the stack
    is empty. A blocked flip ends the run as `DegenerateFlip`; a run that
    would pop more than `fuel` edges ends as `OutOfFuel`. The trace holds
    every state the loop passed through.
   */
  method LegalizeEdge(pts: seq<Vec2>, m: Mesh, b: Buckets, frontier: seq<nat>, v: nat, fuel: nat)
    returns (r: Mesh, rb: Buckets, out: Outcome, ghost trace: seq<Legalizing>)
    requires LegalState(pts, v, Legalizing(m, b, frontier))
    ensures StateInv(pts, r, rb) && KeepsVertices(m, r)
    ensures |r.halfedges| == |m.halfedges| && |r.faces| == |m.faces|
    ensures forall q: nat :: Located(b, q) ==> Located(rb, q)
    ensures Ended(pts, v, fuel, trace, out) && trace[0] == Legalizing(m, b, frontier)
    ensures trace[|trace| - 1].mesh == r && trace[|trace| - 1].buckets == rb
    ensures frontier == [] ==> out == Done && r == m && rb == b
  {
    r, rb := m, b;
    var stack: seq<nat> := frontier;
    var left := fuel;
    trace := [Legalizing(m, b, frontier)];
    while stack != []
      invariant Run(pts, v, trace) && trace[0] == Legalizing(m, b, frontier)
      invariant trace[|trace| - 1] == Legalizing(r, rb, stack)
      invariant |trace| + left == fuel + 1
      invariant frontier == [] ==> |trace| == 1
      invariant KeepsVertices(m, r)
      invariant |r.halfedges| == |m.halfedges| && |r.faces| == |m.faces|
      invariant forall q: nat :: Located(b, q) ==> Located(rb, q)
      decreases left
    {
      assert LegalState(pts, v, trace[|trace| - 1]);
      if left == 0 {
        out := OutOfFuel;
        return;
      }
      left := left - 1;
      var r', rb', stack', out' := LegalizeStep(pts, r, rb, stack, v);
      if out' != Done {
        out := out';
        return;
      }
      RunExtend(pts, v, trace, Legalizing(r', rb', stack'));
      trace := trace + [Legalizing(r', rb', stack')];
      r, rb, stack := r', rb', stack';
    }
    assert LegalState(pts, v, trace[|trace| - 1]);
    out := Done;
  }

  // ---------------------------------------------------------------------
  // insertIntoFace, insertAtEdge
  // ---------------------------------------------------------------------

  /** Where the three-way split puts the records the driver uses next. */
  lemma InFaceSplitFacts(m: Mesh, v: nat, f: nat, h0: nat, h1: nat, h2: nat)
    requires FaceCycle(m, f, h0, h1, h2)
    ensures var r, e, nf := InFaceSplit(m, Real(v), f, h0, h1, h2), |m.halfedges|, |m.faces|;
      && |r.halfedges| == e + 6 && |r.faces| == nf + 2
      && FaceOfHe(r, e + 0) == f && FaceOfHe(r, e + 2) == nf && FaceOfHe(r, e + 4) == nf + 1
      && Next(r, e + 0) == h0 && Next(r, e + 2) == h1 && Next(r, e + 4) == h2
      && Prev(r, h0) == e + 0 && Prev(r, h1) == e + 2 && Prev(r, h2) == e + 4
      && r.halfedges[e + 0].vid == Real(v) && r.halfedges[e + 2].vid == Real(v) && r.halfedges[e + 4].vid == Real(v)
  {
    InFaceSplitRecords(m, Real(v), f, h0, h1, h2);
  }

  /**
    `insertNewVertexInFace(v, f)`: r is the three-way split of face f at v,
    taken round f's cycle from its representative. A face of a valid mesh
    has exactly one such cycle (`FaceCycleOf`), so this pins r.
   */
  ghost predicate SplitsFace(m: Mesh, v: nat, f: nat, r: Mesh)
  {
    && Valid(m) && f < |m.faces|
    && forall h0: nat, h1: nat, h2: nat :: FaceCycle(m, f, h0, h1, h2) ==> r == InFaceSplit(m, Real(v), f, h0, h1, h2)
  }

  /**
    `insertNewVertexOnEdge(v, he)`: r is the four-way split at v of the
    diamond round the interior half-edge he. `IsDiamond` fixes every edge of
    the diamond from he, and `DiamondOf` builds it, so this pins r.
   */
  ghost predicate SplitsEdge(m: Mesh, v: nat, he: nat, r: Mesh)
  {
    && Valid(m) && he < |m.halfedges| && !IsBoundary(m.halfedges[he])
    && forall d :: IsDiamond(m, d) && d.he == he ==> r == OnEdgeSplit(m, Real(v), d)
  }

  /**
    The three-way split of face f, with h0 its face's half-edge, as a
    mesh step: the new point's three half-edges are e+0, e+2 and e+4, and
    the old cycle becomes the frontier, each edge opposite v.
   */
  method SplitFaceMesh(pts: seq<Vec2>, m: Mesh, v: nat, f: nat) returns (r: Mesh, frontier: seq<nat>)
    requires MeshInv(m, |pts|) && v < |pts| && f < |m.faces|
    ensures MeshInv(r, |pts|) && KeepsVertices(m, r) && HasVertex(r, v)
    ensures var e, nf := |m.halfedges|, |m.faces|;
      && |r.halfedges| == e + 6 && |r.faces| == nf + 2
      && FaceOfHe(r, e + 0) == f && FaceOfHe(r, e + 2) == nf && FaceOfHe(r, e + 4) == nf + 1
      && r.halfedges[e + 2].vid == Real(v)
      && frontier == [Next(r, e + 0), Next(r, e + 2), Next(r, e + 4)]
    ensures |frontier| == 3 && EdgesIn(r, frontier)
    ensures forall k :: 0 <= k < 3 ==> InRange(r, Prev(r, frontier[k])) && r.halfedges[Prev(r, frontier[k])].vid == Real(v)
    ensures SplitsFace(m, v, f, r)
  {
    FaceCycleOf(m, f);
    var h0 := HeFromFace(m, f);
    var h1 := Next(m, h0);
    var h2 := Next(m, h1);
    var s := InsertNewVertexInFace(m, Real(v), f);
    assert s.mesh == InFaceSplit(m, Real(v), f, h0, h1, h2);
    InFaceStep(m, |pts|, v, f, h0, h1, h2);
    InFaceSplitFacts(m, v, f, h0, h1, h2);
    r := s.mesh;
    var e := s.firstEdge;
    frontier := [Next(r, e + 0), Next(r, e + 2), Next(r, e + 4)];
  }

  /**
    The first half of `insertIntoFace(v, f)`: the three-way split and the
    star re-bucketing. The frontier is f's old cycle, in order, each edge
    now opposite v. The buckets are exactly those `reBucketStarSplit` makes
    round the new half-edges e, e+2 and e+4 (e the half-edge count before
    the split): the points of f's bucket other than v are spread over f
    and the two new faces by the orientation tests, none lost or doubled,
    though the re-bucketing gathers the first new face's bucket twice (it
    is empty).
   */
  method SplitFace(pts: seq<Vec2>, m: Mesh, b: Buckets, v: nat, f: nat) returns (r: Mesh, rb: Buckets, frontier: seq<nat>)
    requires StateInv(pts, m, b) && v < |pts| && f < |m.faces|
    ensures FaceStart(pts, m, b, v, f, Legalizing(r, rb, frontier))
    ensures StateInv(pts, r, rb) && KeepsVertices(m, r) && HasVertex(r, v)
    ensures forall q: nat :: Located(b, q) && q != v ==> Located(rb, q)
    ensures |frontier| == 3 && EdgesIn(r, frontier)
    ensures forall k :: 0 <= k < 3 ==> InRange(r, Prev(r, frontier[k])) && r.halfedges[Prev(r, frontier[k])].vid == Real(v)
    ensures |r.faces| == |m.faces| + 2 && StarSpread(b, rb, v, f, |m.faces|)
    ensures forall h0: nat, h1: nat, h2: nat :: FaceCycle(m, f, h0, h1, h2) ==> frontier == [h0, h1, h2]
  {
    r, frontier := SplitFaceMesh(pts, m, v, f);
    rb := StarRebucketFresh(b, pts, r, |m.halfedges|, v, f, |m.faces|);
    FaceStartStack(pts, m, b, v, f, Legalizing(r, rb, frontier));
  }

  /**
    The buckets after a star split of face f into f, nf and nf + 1: the
    points of f's bucket other than v are spread over the three, none lost
    or doubled, and every other bucket is as it was.
   */
  ghost predicate StarSpread(b: Buckets, rb: Buckets, v: nat, f: nat, nf: nat)
  {
    && multiset(Get(rb, f)) + multiset(Get(rb, nf)) + multiset(Get(rb, nf + 1)) == multiset(Without(Get(b, f), v))
    && forall g :: g != f && g != nf && g != nf + 1 ==> Get(rb, g) == Get(b, g)
  }

  /**
    The star re-bucketing after a three-way split of face f, whose new
    faces nf and nf + 1 have empty buckets: f's bucket without v is spread
    over the three faces.
   */
  method StarRebucketFresh(b: Buckets, pts: seq<Vec2>, r: Mesh, e: nat, v: nat, f: nat, nf: nat) returns (rb: Buckets)
    requires Valid(r) && VidsBelow(r, |pts|) && Consistent(b, |pts|, nf) && |r.faces| == nf + 2
    requires e + 4 < |r.halfedges| && r.halfedges[e + 2].vid == Real(v) && f < nf
    requires FaceOfHe(r, e + 0) == f && FaceOfHe(r, e + 2) == nf && FaceOfHe(r, e + 4) == nf + 1
    ensures Consistent(rb, |pts|, |r.faces|)
    ensures forall q: nat :: Located(b, q) && q != v ==> Located(rb, q)
    ensures StarSpread(b, rb, v, f, nf) && StarBucketed(b, pts, r, e, e + 2, e + 4, rb)
  {
    ConsistentMoreFaces(b, |pts|, nf, nf + 2);
    GetBelow(b, |pts|, nf, f);
    rb := ReBucketStarSplit(b, pts, r, e, e + 2, e + 4);
    var v0, v1, v2 := r.halfedges[Next(r, e)].vid, r.halfedges[Next(r, e + 2)].vid, r.halfedges[Next(r, e + 4)].vid;
    StarSplitOfFreshFace(b, pts, v, v0, v1, v2, f, nf);
    FreshStarBuckets(b, rb, pts, v, v0, v1, v2, f, nf);
  }

  /** The star re-bucketing of a face whose two partner faces are fresh spreads its bucket without v. */
  lemma FreshStarBuckets(b: Buckets, rb: Buckets, pts: seq<Vec2>, v: nat, v0: VertexId, v1: VertexId, v2: VertexId, f: nat, nf: nat)
    requires v < |pts| && VidIn(pts, v0) && VidIn(pts, v1) && VidIn(pts, v2)
    requires Get(b, nf) == [] && Get(b, nf + 1) == [] && AllBelow(Get(b, f), |pts|)
    requires var dirty := Get(b, f) + Get(b, nf) + Get(b, nf);
      && dirty == Get(b, f)
      && Get(rb, f) == Region(pts, v, v0, v1, v2, dirty, 0)
      && Get(rb, nf) == Region(pts, v, v0, v1, v2, dirty, 1)
      && Get(rb, nf + 1) == Get(b, nf + 1) + Region(pts, v, v0, v1, v2, dirty, 2)
    requires var s := Get(b, f);
      multiset(Region(pts, v, v0, v1, v2, s, 0)) + multiset(Region(pts, v, v0, v1, v2, s, 1))
        + multiset(Region(pts, v, v0, v1, v2, s, 2)) == multiset(Without(s, v))
    ensures multiset(Get(rb, f)) + multiset(Get(rb, nf)) + multiset(Get(rb, nf + 1)) == multiset(Without(Get(b, f), v))
  {
    assert Get(rb, nf + 1) == Region(pts, v, v0, v1, v2, Get(b, f), 2);
  }

  /**
    The state a legalization of v starts from: v is a vertex, and each of
    the stacked edges lies opposite v in its triangle.
   */
  ghost predicate InsertionFrontier(v: nat, s: Legalizing)
  {
    && HasVertex(s.mesh, v)
    && forall k :: 0 <= k < |s.stack| ==>
         s.stack[k] < |s.mesh.halfedges| && InRange(s.mesh, Prev(s.mesh, s.stack[k]))
         && s.mesh.halfedges[Prev(s.mesh, s.stack[k])].vid == Real(v)
  }

  /**
    The state `insertIntoFace(v, f)` hands to `legalizeEdge`, with e the
    half-edge count before the split: the three-way split of f at v, the
    star re-bucketing round the new half-edges e, e+2 and e+4, and the
    stack next(e), next(e+2), next(e+4), f's old cycle in that order.
   */
  ghost predicate FaceStart(pts: seq<Vec2>, m: Mesh, b: Buckets, v: nat, f: nat, s: Legalizing)
  {
    && SplitsFace(m, v, f, s.mesh)
    && var e := |m.halfedges|;
    && |s.mesh.halfedges| == e + 6
    && s.stack == [Next(s.mesh, e), Next(s.mesh, e + 2), Next(s.mesh, e + 4)]
    && StarBucketed(b, pts, s.mesh, e, e + 2, e + 4, s.buckets)
  }

  /**
    The state `insertAtEdge(v, he)` hands to `legalizeEdge`, with e the
    half-edge count before the split: the four-way split of he's diamond at
    v, the flip re-bucketings across e+1 and then e+5, and the stack
    prev(e), next(e+1), next(e+3), next(e+5), the diamond's outer edges in
    that order.
   */
  ghost predicate EdgeStart(pts: seq<Vec2>, m: Mesh, b: Buckets, v: nat, he: nat, s: Legalizing)
  {
    && SplitsEdge(m, v, he, s.mesh)
    && var e := |m.halfedges|;
    && |s.mesh.halfedges| == e + 6
    && s.stack == [Prev(s.mesh, e), Next(s.mesh, e + 1), Next(s.mesh, e + 3), Next(s.mesh, e + 5)]
    && TwoFlipsBucketed(b, pts, s.mesh, e + 1, e + 5, s.buckets)
  }

  /** An in-face start's stack is f's old cycle, in order. */
  lemma FaceStartStack(pts: seq<Vec2>, m: Mesh, b: Buckets, v: nat, f: nat, s: Legalizing)
    requires FaceStart(pts, m, b, v, f, s)
    ensures forall h0: nat, h1: nat, h2: nat :: FaceCycle(m, f, h0, h1, h2) ==> s.stack == [h0, h1, h2]
  {
    forall h0: nat, h1: nat, h2: nat | FaceCycle(m, f, h0, h1, h2)
      ensures s.stack == [h0, h1, h2]
    {
      InFaceSplitFacts(m, v, f, h0, h1, h2);
    }
  }

  /** An on-edge start's stack is the outer edges of he's diamond, in order. */
  lemma EdgeStartStack(pts: seq<Vec2>, m: Mesh, b: Buckets, v: nat, he: nat, s: Legalizing)
    requires EdgeStart(pts, m, b, v, he, s)
    ensures var d := DiamondOf(m, he); s.stack == [d.o0, d.o1, d.o2, d.o3]
  {
    OnEdgeSplitFacts(m, v, he);
  }

  /**
    `insertIntoFace(v, f)`: split, re-bucket, then legalize the three edges
    of f's old cycle, in order; the trace starts at the split and its
    buckets.
   */
  method InsertIntoFace(pts: seq<Vec2>, m: Mesh, b: Buckets, v: nat, f: nat, fuel: nat)
    returns (r: Mesh, rb: Buckets, out: Outcome, ghost trace: seq<Legalizing>)
    requires StateInv(pts, m, b) && v < |pts| && f < |m.faces|
    ensures StateInv(pts, r, rb) && KeepsVertices(m, r) && HasVertex(r, v)
    ensures forall q: nat :: Located(b, q) && q != v ==> Located(rb, q)
    ensures Ended(pts, v, fuel, trace, out) && trace[|trace| - 1].mesh == r && trace[|trace| - 1].buckets == rb
    ensures |trace[0].stack| == 3 && InsertionFrontier(v, trace[0]) && KeepsVertices(m, trace[0].mesh)
    ensures FaceStart(pts, m, b, v, f, trace[0])
    ensures forall h0: nat, h1: nat, h2: nat :: FaceCycle(m, f, h0, h1, h2) ==> trace[0].stack == [h0, h1, h2]
  {
    var s, sb, frontier := SplitFace(pts, m, b, v, f);
    r, rb, out, trace := LegalizeEdge(pts, s, sb, frontier, v, fuel);
    FaceStartStack(pts, m, b, v, f, trace[0]);
  }

  /** Where the four-way split puts the records the driver uses next. */
  lemma OnEdgeSplitFacts(m: Mesh, v: nat, he: nat)
    requires Valid(m) && he < |m.halfedges| && !IsBoundary(m.halfedges[he])
    ensures var d := DiamondOf(m, he); var r, e := OnEdgeSplit(m, Real(v), d), |m.halfedges|;
      && DiamondSlots(e, d) && |r.halfedges| == e + 6 && |r.faces| == |m.faces| + 2
      && !IsBoundary(r.halfedges[e + 1]) && !IsBoundary(r.halfedges[e + 5])
      && Prev(r, e + 0) == d.o0 && Next(r, e + 1) == d.o1 && Next(r, e + 3) == d.o2 && Next(r, e + 5) == d.o3
      && Prev(r, d.o0) == d.he && Prev(r, d.o1) == e + 1 && Prev(r, d.o2) == e + 3 && Prev(r, d.o3) == e + 5
      && r.halfedges[d.he].vid == Real(v) && r.halfedges[e + 1].vid == Real(v)
      && r.halfedges[e + 3].vid == Real(v) && r.halfedges[e + 5].vid == Real(v)
  {
    var d := DiamondOf(m, he);
    OnEdgeSplitRecords(m, Real(v), d);
  }

  /**
    The four-way split of he's diamond as a mesh step: the four outer edges
    of the old diamond become the frontier, each opposite v, and the new
    half-edges e+1 and e+5, leaving v, have flips.
   */
  method SplitEdgeMesh(pts: seq<Vec2>, m: Mesh, v: nat, he: nat) returns (r: Mesh, frontier: seq<nat>)
    requires MeshInv(m, |pts|) && v < |pts| && he < |m.halfedges| && !IsBoundary(m.halfedges[he])
    ensures MeshInv(r, |pts|) && KeepsVertices(m, r) && HasVertex(r, v)
    ensures var e := |m.halfedges|;
      && |r.halfedges| == e + 6 && |r.faces| == |m.faces| + 2
      && !IsBoundary(r.halfedges[e + 1]) && !IsBoundary(r.halfedges[e + 5])
      && r.halfedges[e + 1].vid == Real(v) && r.halfedges[e + 5].vid == Real(v)
      && frontier == [Prev(r, e + 0), Next(r, e + 1), Next(r, e + 3), Next(r, e + 5)]
    ensures |frontier| == 4 && EdgesIn(r, frontier)
    ensures forall k :: 0 <= k < 4 ==> InRange(r, Prev(r, frontier[k])) && r.halfedges[Prev(r, frontier[k])].vid == Real(v)
    ensures SplitsEdge(m, v, he, r)
  {
    var d := DiamondOf(m, he);
    var s := InsertNewVertexOnEdge(m, Real(v), he);
    OnEdgeStep(m, |pts|, v, he);
    OnEdgeSplitFacts(m, v, he);
    r := s.mesh;
    var e := s.firstEdge;
    frontier := [Prev(r, e + 0), Next(r, e + 1), Next(r, e + 3), Next(r, e + 5)];
    assert frontier == [d.o0, d.o1, d.o2, d.o3];
    SplitsEdgeOf(m, v, he);
  }

  /** The split at he's own diamond is the one `SplitsEdge` describes. */
  lemma SplitsEdgeOf(m: Mesh, v: nat, he: nat)
    requires Valid(m) && he < |m.halfedges| && !IsBoundary(m.halfedges[he])
    ensures SplitsEdge(m, v, he, OnEdgeSplit(m, Real(v), DiamondOf(m, he)))
  {
    forall d | IsDiamond(m, d) && d.he == he
      ensures OnEdgeSplit(m, Real(v), DiamondOf(m, he)) == OnEdgeSplit(m, Real(v), d)
    {
      assert d == DiamondOf(m, he);
    }
  }

  /**
    The first half of `insertAtEdge(v, he)`: the four-way split and the two
    flip re-bucketings, of the new edges e+1 (against e+0 in he's face) and
    e+5 (in hef's face, against e+4), in that order. The frontier is the
    outer edges o0, o1, o2, o3 of he's diamond, in order, each now opposite v.
   */
  method SplitEdge(pts: seq<Vec2>, m: Mesh, b: Buckets, v: nat, he: nat)
    returns (r: Mesh, rb: Buckets, frontier: seq<nat>)
    requires StateInv(pts, m, b) && v < |pts| && he < |m.halfedges| && !IsBoundary(m.halfedges[he])
    ensures EdgeStart(pts, m, b, v, he, Legalizing(r, rb, frontier))
    ensures StateInv(pts, r, rb) && KeepsVertices(m, r) && HasVertex(r, v)
    ensures forall q: nat :: Located(b, q) ==> Located(rb, q)
    ensures |frontier| == 4 && EdgesIn(r, frontier)
    ensures forall k :: 0 <= k < 4 ==> InRange(r, Prev(r, frontier[k])) && r.halfedges[Prev(r, frontier[k])].vid == Real(v)
    ensures var d := DiamondOf(m, he); frontier == [d.o0, d.o1, d.o2, d.o3]
  {
    r, frontier := SplitEdgeMesh(pts, m, v, he);
    var e, nf := |m.halfedges|, |m.faces|;
    ConsistentMoreFaces(b, |pts|, nf, nf + 2);
    var firstFlip := ReBucketFlip(b, pts, r, e + 1);
    rb := ReBucketFlip(firstFlip, pts, r, e + 5);
    assert FlipBucketed(b, pts, r, e + 1, firstFlip);
    EdgeStartStack(pts, m, b, v, he, Legalizing(r, rb, frontier));
  }

  /**
    `insertAtEdge(v, he)`: split, re-bucket, then legalize the four outer
    edges of he's diamond, in order; the trace starts at the split and its
    buckets.
   */
  method InsertAtEdge(pts: seq<Vec2>, m: Mesh, b: Buckets, v: nat, he: nat, fuel: nat)
    returns (r: Mesh, rb: Buckets, out: Outcome, ghost trace: seq<Legalizing>)
    requires StateInv(pts, m, b) && v < |pts| && he < |m.halfedges| && !IsBoundary(m.halfedges[he])
    ensures StateInv(pts, r, rb) && KeepsVertices(m, r) && HasVertex(r, v)
    ensures forall q: nat :: Located(b, q) ==> Located(rb, q)
    ensures Ended(pts, v, fuel, trace, out) && trace[|trace| - 1].mesh == r && trace[|trace| - 1].buckets == rb
    ensures |trace[0].stack| == 4 && InsertionFrontier(v, trace[0]) && KeepsVertices(m, trace[0].mesh)
    ensures EdgeStart(pts, m, b, v, he, trace[0])
    ensures var d := DiamondOf(m, he); trace[0].stack == [d.o0, d.o1, d.o2, d.o3]
  {
    var s, sb, frontier := SplitEdge(pts, m, b, v, he);
    r, rb, out, trace := LegalizeEdge(pts, s, sb, frontier, v, fuel);
    EdgeStartStack(pts, m, b, v, he, trace[0]);
  }

  // ---------------------------------------------------------------------
  // traversalPts
  // ---------------------------------------------------------------------

  /**
    How the insertion of v ended with out, in mesh r and buckets rb: the
    legalization through trace started at the three or four edges the
    split left opposite v, and ended as `Ended` says.
   */
  ghost predicate InsertionEnded(pts: seq<Vec2>, v: nat, fuel: nat, trace: seq<Legalizing>, out: Outcome, r: Mesh, rb: Buckets)
  {
    && Ended(pts, v, fuel, trace, out)
    && trace[|trace| - 1].mesh == r && trace[|trace| - 1].buckets == rb
    && (|trace[0].stack| == 3 || |trace[0].stack| == 4) && InsertionFrontier(v, trace[0])
  }

  /**
    One pass of `traversalPts` took the located point v from (m, b) to
    (r, rb), ending with out: v went onto the first edge of its bucket's
    face f whose line passes within eps of it, when there is one, and
    otherwise into f; the legalization started from the state that
    insertion hands over and ended as `InsertionEnded` says.
   */
  ghost predicate PointInserted(pts: seq<Vec2>, eps: nat, fuel: nat, v: nat, m: Mesh, b: Buckets,
                                r: Mesh, rb: Buckets, out: Outcome, trace: seq<Legalizing>)
  {
    && StateInv(pts, m, b) && v < |pts| && Located(b, v)
    && var f := b.pointToFace[v];
    && f < |m.faces|
    && InsertionEnded(pts, v, fuel, trace, out, r, rb)
    && var e := FirstNearEdge(m, pts, eps, v, f);
    && (e.At? ==> e.pos < |m.halfedges| && !IsBoundary(m.halfedges[e.pos]) && EdgeStart(pts, m, b, v, e.pos, trace[0]))
    && (e == Invalid ==> FaceStart(pts, m, b, v, f, trace[0]))
  }

  /**
    One pass of `traversalPts` for the located point v: v goes onto the
    first edge of its bucket's face whose line passes within eps of it, or
    into the face when there is none.
   */
  method InsertPoint(pts: seq<Vec2>, m: Mesh, b: Buckets, v: nat, eps: nat, fuel: nat)
    returns (r: Mesh, rb: Buckets, out: Outcome, ghost trace: seq<Legalizing>)
    requires StateInv(pts, m, b) && v < |pts| && Located(b, v)
    ensures StateInv(pts, r, rb) && KeepsVertices(m, r) && HasVertex(r, v)
    ensures forall q: nat :: Located(b, q) && q != v ==> Located(rb, q)
    ensures PointInserted(pts, eps, fuel, v, m, b, r, rb, out, trace)
  {
    var faceId := b.pointToFace[v];
    ConsistentGet(b, |pts|, |m.faces|, faceId, v);
    var edge := OnEdge(m, pts, eps, v, faceId);
    if edge == Invalid {
      r, rb, out, trace := InsertIntoFace(pts, m, b, v, faceId, fuel);
    } else {
      NearLineExact(m, pts, v, edge.pos);
      PointEdgeInterior(m, edge.pos);
      r, rb, out, trace := InsertAtEdge(pts, m, b, v, edge.pos, fuel);
    }
  }

  /** One pass of `traversalPts`: the point it inserted, how its legalization ended, and the mesh and buckets after it. */
  datatype Pass = Pass(point: nat, out: Outcome, trace: seq<Legalizing>, mesh: Mesh, buckets: Buckets)

  /** The mesh and buckets the passes leave: the traversal's start when there are none. */
  function EndOf(m: Mesh, b: Buckets, passes: seq<Pass>): (Mesh, Buckets)
  {
    if passes == [] then (m, b) else (passes[|passes| - 1].mesh, passes[|passes| - 1].buckets)
  }

  /** The points the passes inserted, in order. */
  function PointsOf(passes: seq<Pass>): seq<nat>
  {
    if passes == [] then [] else PointsOf(passes[..|passes| - 1]) + [passes[|passes| - 1].point]
  }

  /**
    A traversal from (m, b) that ended with out: each pass is a
    `PointInserted` pass from where the passes before it left the mesh and
    buckets, every pass but the last ended `Done`, and out is the last
    pass's outcome (`Done` when there was none). The start state is bound by
    a quantifier so that a pass's facts are drawn out only where a proof
    names them.
   */
  ghost predicate Traversed(pts: seq<Vec2>, eps: nat, fuel: nat, m: Mesh, b: Buckets, passes: seq<Pass>, out: Outcome)
    decreases |passes|
  {
    if passes == [] then out == Done
    else
      var init, p := passes[..|passes| - 1], passes[|passes| - 1];
      && Traversed(pts, eps, fuel, m, b, init, Done)
      && (forall pm, pb :: (pm, pb) == EndOf(m, b, init) ==>
            PointInserted(pts, eps, fuel, p.point, pm, pb, p.mesh, p.buckets, p.out, p.trace))
      && out == p.out
  }

  /**
    One more pass of a traversal that has ended `Done` so far, from where it
    stands: point v, the next one the schedule does not skip.
   */
  method TraversalStep(pts: seq<Vec2>, eps: nat, fuel: nat, m: Mesh, b: Buckets, ghost skip: VertexId,
                       ghost passes: seq<Pass>, r: Mesh, rb: Buckets, v: nat)
    returns (r': Mesh, rb': Buckets, out: Outcome, ghost trace: seq<Legalizing>, ghost passes': seq<Pass>)
    requires StateInv(pts, r, rb) && v < |pts| && Located(rb, v)
    requires Traversed(pts, eps, fuel, m, b, passes, Done) && EndOf(m, b, passes) == (r, rb)
    requires PointsOf(passes) == Schedule(skip, v) && Real(v) != skip
    ensures StateInv(pts, r', rb') && KeepsVertices(r, r') && HasVertex(r', v)
    ensures forall q: nat :: Located(rb, q) && q != v ==> Located(rb', q)
    ensures InsertionEnded(pts, v, fuel, trace, out, r', rb')
    ensures Traversed(pts, eps, fuel, m, b, passes', out) && EndOf(m, b, passes') == (r', rb')
    ensures PointsOf(passes') == Schedule(skip, v + 1)
  {
    r', rb', out, trace := InsertPoint(pts, r, rb, v, eps, fuel);
    passes' := passes + [Pass(v, out, trace, r', rb')];
    assert passes'[..|passes|] == passes;
  }

  /**
    Where a traversal from (m, b) stands before point k: its passes have
    inserted exactly the scheduled points below k, all of them `Done`, into
    the mesh and buckets (r, rb); every scheduled point from k on is still
    in a bucket, and every scheduled point below k is a vertex.
   */
  ghost predicate Walked(pts: seq<Vec2>, eps: nat, fuel: nat, m: Mesh, b: Buckets, k: nat,
                         passes: seq<Pass>, r: Mesh, rb: Buckets)
  {
    && |m.halfedges| > 2 && k <= |pts|
    && var skip := m.halfedges[2].vid;
    && Traversed(pts, eps, fuel, m, b, passes, Done) && EndOf(m, b, passes) == (r, rb)
    && PointsOf(passes) == Schedule(skip, k)
    && StateInv(pts, r, rb) && KeepsVertices(m, r)
    && (forall q: nat :: k <= q < |pts| && Real(q) != skip ==> Located(rb, q))
    && (forall q: nat :: q < k && Real(q) != skip ==> HasVertex(r, q))
  }

  /**
    One iteration of `traversalPts`' loop, at point v: the seed is passed
    over, any other point is inserted. A pass that ends other than `Done`
    leaves the traversal stopped at v.
   */
  method TraversalNext(pts: seq<Vec2>, eps: nat, fuel: nat, m: Mesh, b: Buckets, ghost passes: seq<Pass>,
                       r: Mesh, rb: Buckets, v: nat)
    returns (r': Mesh, rb': Buckets, out: Outcome, ghost trace: seq<Legalizing>, ghost passes': seq<Pass>)
    requires Walked(pts, eps, fuel, m, b, v, passes, r, rb) && v < |pts|
    ensures out == Done ==> Walked(pts, eps, fuel, m, b, v + 1, passes', r', rb')
    ensures out != Done ==> TraversalEnded(pts, eps, fuel, m, b, r', rb', out, v, trace, passes')
    ensures StateInv(pts, r', rb') && KeepsVertices(m, r') && (Real(v) != m.halfedges[2].vid ==> HasVertex(r', v))
  {
    var skip := m.halfedges[2].vid;
    if Real(v) == skip {
      r', rb', out, trace, passes' := r, rb, Done, [], passes;
      WalkedSkip(pts, eps, fuel, m, b, v, passes, r, rb);
      return;
    }
    r', rb', out, trace, passes' := TraversalStep(pts, eps, fuel, m, b, skip, passes, r, rb, v);
    if out == Done {
      WalkedStep(pts, eps, fuel, m, b, v, passes, r, rb, passes', r', rb');
    } else {
      StoppedAt(pts, eps, fuel, m, b, v, passes, r, rb, passes', r', rb', out, trace);
    }
  }

  /**
    How a traversal from (m, b) ends in (r, rb) with out: its passes insert
    the scheduled points in ascending order, up to the last point when out
    is `Done` and up to the point `stopped` otherwise. A complete traversal
    leaves every point a vertex; one that stopped leaves every point up to
    `stopped` a vertex, and trace is the legalization that stopped it.
   */
  ghost predicate TraversalEnded(pts: seq<Vec2>, eps: nat, fuel: nat, m: Mesh, b: Buckets, r: Mesh, rb: Buckets,
                                 out: Outcome, stopped: nat, trace: seq<Legalizing>, passes: seq<Pass>)
  {
    && |m.halfedges| > 2
    && Traversed(pts, eps, fuel, m, b, passes, out) && EndOf(m, b, passes) == (r, rb)
    && PointsOf(passes) == Schedule(m.halfedges[2].vid, if out == Done then |pts| else stopped + 1)
    && StateInv(pts, r, rb) && KeepsVertices(m, r)
    && (out == Done ==> forall q: nat :: q < |pts| ==> HasVertex(r, q))
    && (out != Done ==>
          && stopped < |pts| && Real(stopped) != m.halfedges[2].vid
          && (forall q: nat :: q <= stopped ==> HasVertex(r, q))
          && InsertionEnded(pts, stopped, fuel, trace, out, r, rb))
  }

  /** Passing over the seed keeps the walk: the schedule skips it too. */
  lemma WalkedSkip(pts: seq<Vec2>, eps: nat, fuel: nat, m: Mesh, b: Buckets, v: nat,
                   passes: seq<Pass>, r: Mesh, rb: Buckets)
    requires Walked(pts, eps, fuel, m, b, v, passes, r, rb) && v < |pts| && Real(v) == m.halfedges[2].vid
    ensures Walked(pts, eps, fuel, m, b, v + 1, passes, r, rb)
  {
    assert Schedule(m.halfedges[2].vid, v + 1) == Schedule(m.halfedges[2].vid, v);
  }

  /** A pass over point v that ends `Done` carries the walk on to v + 1. */
  lemma WalkedStep(pts: seq<Vec2>, eps: nat, fuel: nat, m: Mesh, b: Buckets, v: nat,
                   passes: seq<Pass>, r: Mesh, rb: Buckets, passes': seq<Pass>, r': Mesh, rb': Buckets)
    requires Walked(pts, eps, fuel, m, b, v, passes, r, rb) && v < |pts| && Real(v) != m.halfedges[2].vid
    requires StateInv(pts, r', rb') && KeepsVertices(r, r') && HasVertex(r', v)
    requires forall q: nat :: Located(rb, q) && q != v ==> Located(rb', q)
    requires Traversed(pts, eps, fuel, m, b, passes', Done) && EndOf(m, b, passes') == (r', rb')
    requires PointsOf(passes') == Schedule(m.halfedges[2].vid, v + 1)
    ensures Walked(pts, eps, fuel, m, b, v + 1, passes', r', rb')
  {
  }

  /** A pass over point v that ends other than `Done` ends the traversal, stopped at v. */
  lemma StoppedAt(pts: seq<Vec2>, eps: nat, fuel: nat, m: Mesh, b: Buckets, v: nat,
                  passes: seq<Pass>, r: Mesh, rb: Buckets, passes': seq<Pass>, r': Mesh, rb': Buckets,
                  out: Outcome, trace: seq<Legalizing>)
    requires Walked(pts, eps, fuel, m, b, v, passes, r, rb) && v < |pts| && Real(v) != m.halfedges[2].vid
    requires StateInv(pts, r', rb') && KeepsVertices(r, r') && HasVertex(r', v)
    requires InsertionEnded(pts, v, fuel, trace, out, r', rb') && out != Done
    requires Traversed(pts, eps, fuel, m, b, passes', out) && EndOf(m, b, passes') == (r', rb')
    requires PointsOf(passes') == Schedule(m.halfedges[2].vid, v + 1)
    ensures TraversalEnded(pts, eps, fuel, m, b, r', rb', out, v, trace, passes')
  {
    StoppedVertices(m, r, r', v);
  }

  /** Up to a stop at v, every point is a vertex: the earlier ones and the seed stay, v was just added. */
  lemma StoppedVertices(m: Mesh, r: Mesh, r': Mesh, v: nat)
    requires |m.halfedges| > 2 && KeepsVertices(m, r) && KeepsVertices(r, r') && HasVertex(r', v)
    requires forall q: nat :: q < v && Real(q) != m.halfedges[2].vid ==> HasVertex(r, q)
    ensures KeepsVertices(m, r') && forall q: nat :: q <= v ==> HasVertex(r', q)
  {
    var skip := m.halfedges[2].vid;
    SkipIsVertex(m, r', skip);
    forall q: nat | q <= v
      ensures HasVertex(r', q)
    {
      if q < v && Real(q) != skip {
        assert HasVertex(r, q);
      }
    }
  }

  /** A walk past the last point has inserted every scheduled point, and the seed is a vertex already. */
  lemma WalkedThrough(pts: seq<Vec2>, eps: nat, fuel: nat, m: Mesh, b: Buckets,
                      passes: seq<Pass>, r: Mesh, rb: Buckets, stopped: nat, trace: seq<Legalizing>)
    requires Walked(pts, eps, fuel, m, b, |pts|, passes, r, rb)
    ensures TraversalEnded(pts, eps, fuel, m, b, r, rb, Done, stopped, trace, passes)
  {
    SkipIsVertex(m, r, m.halfedges[2].vid);
  }

  /**
    `traversalPts` as written: every point id in order, except the one half-edge
    2 leaves (the seed), is looked up in its bucket's face and inserted on
    the first edge of that face whose line passes within eps of it, or into
    the face when there is none. The passes record each insertion, one
    `PointInserted` pass per scheduled id in increasing order, each from
    where the one before left the mesh and buckets. A run that ends early
    names the point it stopped at and the legalization that stopped it.
   */
  method TraversalPts(pts: seq<Vec2>, m: Mesh, b: Buckets, eps: nat, fuel: nat)
    returns (r: Mesh, rb: Buckets, out: Outcome, ghost stopped: nat, ghost trace: seq<Legalizing>, ghost passes: seq<Pass>)
    requires StateInv(pts, m, b) && |m.halfedges| > 2
    requires forall q: nat :: q < |pts| && Real(q) != m.halfedges[2].vid ==> Located(b, q)
    ensures TraversalEnded(pts, eps, fuel, m, b, r, rb, out, stopped, trace, passes)
    ensures StateInv(pts, r, rb) && KeepsVertices(m, r)
    ensures out == Done ==> forall q: nat :: q < |pts| ==> HasVertex(r, q)
  {
    var skip := m.halfedges[2].vid;
    r, rb := m, b;
    stopped := 0;
    trace := [];
    passes := [];
    for pointId := 0 to |pts|
      invariant Walked(pts, eps, fuel, m, b, pointId, passes, r, rb)
    {
      r, rb, out, trace, passes := TraversalNext(pts, eps, fuel, m, b, passes, r, rb, pointId);
      if out != Done {
        stopped := pointId;
        return;
      }
    }
    out := Done;
    WalkedThrough(pts, eps, fuel, m, b, passes, r, rb, stopped, trace);
  }

  /** The seed, half-edge 2's origin, stays a vertex, so with all others inserted every point is one. */
  lemma SkipIsVertex(m: Mesh, r: Mesh, skip: VertexId)
    requires |m.halfedges| > 2 && skip == m.halfedges[2].vid && KeepsVertices(m, r)
    ensures skip.Real? ==> HasVertex(r, skip.id)
  {
    if skip.Real? {
      assert HasVertex(m, skip.id);
    }
  }
}
