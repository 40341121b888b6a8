/**
  The point-location index of the triangulator: for each face the points
  not yet inserted that lie in it (`mBucket`), and for each point the face it
  lies in (`mVertexToBucketMap`). A bucket that was never touched reads as
  empty, as `operator[]` of the original's unordered_map creates it empty.
 */
module PointBuckets {
  import opened Vector2
  import opened HalfEdge
  import opened MeshSplit
  import opened DelaunayPredicates

  datatype Buckets = Buckets(faceToPoints: map<nat, seq<nat>>, pointToFace: seq<nat>)

  /** `mBucket[f]`, empty for a face never seen. */
  function Get(b: Buckets, f: nat): seq<nat>
  {
    if f in b.faceToPoints then b.faceToPoints[f] else []
  }

  /** `reBucketPoint(p, f)`: p is appended to f's bucket and recorded as lying in f. */
  function Place(b: Buckets, p: nat, f: nat): (r: Buckets)
    requires p < |b.pointToFace|
    ensures Get(r, f) == Get(b, f) + [p] && r.pointToFace == b.pointToFace[p := f]
    ensures forall g :: g != f ==> Get(r, g) == Get(b, g)
  {
    Buckets(b.faceToPoints[f := Get(b, f) + [p]], b.pointToFace[p := f])
  }

  /**
    The two maps are two directions of one relation over n points and nf
    faces: every point is assigned an existing face, and every point in a
    bucket is a point assigned to that bucket's face. (A bucket of a face
    that does not exist is therefore empty.)
   */
  predicate Consistent(b: Buckets, n: nat, nf: nat)
  {
    && |b.pointToFace| == n
    && (forall p :: 0 <= p < n ==> b.pointToFace[p] < nf)
    && (forall f, k :: f in b.faceToPoints && 0 <= k < |b.faceToPoints[f]| ==>
          b.faceToPoints[f][k] < n && b.pointToFace[b.faceToPoints[f][k]] == f)
  }

  /** Point p is in the bucket of the face it is assigned to. */
  predicate Located(b: Buckets, p: nat)
  {
    p < |b.pointToFace| && p in Get(b, b.pointToFace[p])
  }

  /** A bucket entry is a point assigned to that bucket's face, which exists. */
  lemma ConsistentGet(b: Buckets, n: nat, nf: nat, f: nat, x: nat)
    requires Consistent(b, n, nf) && x in Get(b, f)
    ensures x < n && b.pointToFace[x] == f && f < nf
  {
    var k :| 0 <= k < |Get(b, f)| && Get(b, f)[k] == x;
    assert b.faceToPoints[f][k] == x;
  }

  /** Every id in s names a point. */
  predicate AllBelow(s: seq<nat>, n: nat)
  {
    forall k :: 0 <= k < |s| ==> s[k] < n
  }

  /** Faces may be added: the relation still holds, and the bucket of a face not yet existing is empty. */
  lemma ConsistentMoreFaces(b: Buckets, n: nat, nf: nat, nf': nat)
    requires Consistent(b, n, nf) && nf <= nf'
    ensures Consistent(b, n, nf')
    ensures forall f :: nf <= f ==> Get(b, f) == []
  {
    forall f | nf <= f ensures Get(b, f) == [] {
      if Get(b, f) != [] {
        ConsistentGet(b, n, nf, f, Get(b, f)[0]);
      }
    }
  }

  /** Every entry of a bucket names a point. */
  lemma GetBelow(b: Buckets, n: nat, nf: nat, f: nat)
    requires Consistent(b, n, nf)
    ensures AllBelow(Get(b, f), n)
  {
    forall k | 0 <= k < |Get(b, f)| ensures Get(b, f)[k] < n {
      ConsistentGet(b, n, nf, f, Get(b, f)[k]);
    }
  }

  lemma ConcatBelow(s: seq<nat>, t: seq<nat>, n: nat)
    requires AllBelow(s, n) && AllBelow(t, n)
    ensures AllBelow(s + t, n)
  {
  }

  // ---------------------------------------------------------------------
  // reBucketFlip
  // ---------------------------------------------------------------------

  /** The points of s on the given side of the line o -> t, in their order in s. */
  function Side(pts: seq<Vec2>, o: nat, t: VertexId, s: seq<nat>, left: bool): seq<nat>
    requires o < |pts| && VidIn(pts, t) && AllBelow(s, |pts|)
  {
    if s == [] then []
    else
      var x := s[|s| - 1];
      Side(pts, o, t, s[..|s| - 1], left) + (if ToLeft(pts, o, t, x) == left then [x] else [])
  }

  /** A point is on a side exactly when it occurs in s and the orientation test puts it there. */
  lemma {:induction false} SideMembers(pts: seq<Vec2>, o: nat, t: VertexId, s: seq<nat>, left: bool, x: nat)
    requires o < |pts| && VidIn(pts, t) && AllBelow(s, |pts|)
    ensures x in Side(pts, o, t, s, left) <==> x in s && x < |pts| && ToLeft(pts, o, t, x) == left
  {
    if s != [] {
      var init := s[..|s| - 1];
      SideMembers(pts, o, t, init, left, x);
      assert s == init + [s[|s| - 1]];
    }
  }

  /** Where the flip's re-bucketing sends point p. */
  function FlipDest(pts: seq<Vec2>, o: nat, t: VertexId, f0: nat, f1: nat, p: nat): nat
    requires o < |pts| && VidIn(pts, t) && p < |pts|
  {
    if ToLeft(pts, o, t, p) then f0 else f1
  }

  /** The point-to-face map after placing the points of s in order. */
  function FlipOwners(pts: seq<Vec2>, o: nat, t: VertexId, f0: nat, f1: nat, own: seq<nat>, s: seq<nat>): (r: seq<nat>)
    requires o < |pts| && VidIn(pts, t) && |own| == |pts| && AllBelow(s, |pts|)
    ensures |r| == |own|
  {
    if s == [] then own
    else
      var x := s[|s| - 1];
      FlipOwners(pts, o, t, f0, f1, own, s[..|s| - 1])[x := FlipDest(pts, o, t, f0, f1, x)]
  }

  /** Each point of s ends up assigned to its destination; every other point keeps its face. */
  lemma {:induction false} FlipOwnersAt(pts: seq<Vec2>, o: nat, t: VertexId, f0: nat, f1: nat, own: seq<nat>, s: seq<nat>, p: nat)
    requires o < |pts| && VidIn(pts, t) && |own| == |pts| && AllBelow(s, |pts|) && p < |pts|
    ensures FlipOwners(pts, o, t, f0, f1, own, s)[p] == if p in s then FlipDest(pts, o, t, f0, f1, p) else own[p]
  {
    if s != [] {
      var init := s[..|s| - 1];
      FlipOwnersAt(pts, o, t, f0, f1, own, init, p);
      assert s == init + [s[|s| - 1]];
    }
  }

  /** The two sides split s exactly: every occurrence of a point goes to one side, none is lost. */
  lemma {:induction false} SidesPartition(pts: seq<Vec2>, o: nat, t: VertexId, s: seq<nat>)
    requires o < |pts| && VidIn(pts, t) && AllBelow(s, |pts|)
    ensures multiset(Side(pts, o, t, s, true)) + multiset(Side(pts, o, t, s, false)) == multiset(s)
  {
    if s != [] {
      var init := s[..|s| - 1];
      var x := s[|s| - 1];
      SidesPartition(pts, o, t, init);
      assert multiset(s) == multiset(init) + multiset{x} by {
        assert s == init + [x];
      }
      var l, rt := Side(pts, o, t, init, true), Side(pts, o, t, init, false);
      if ToLeft(pts, o, t, x) {
        assert Side(pts, o, t, s, true) == l + [x] && Side(pts, o, t, s, false) == rt;
        assert multiset(l + [x]) == multiset(l) + multiset{x};
      } else {
        assert Side(pts, o, t, s, true) == l && Side(pts, o, t, s, false) == rt + [x];
        assert multiset(rt + [x]) == multiset(rt) + multiset{x};
      }
    }
  }

  /** Extending a prefix of s by its next point extends each side and the owners by that point alone. */
  lemma SplitSnoc(pts: seq<Vec2>, o: nat, t: VertexId, f0: nat, f1: nat, own: seq<nat>, s: seq<nat>, k: nat)
    requires o < |pts| && VidIn(pts, t) && AllBelow(s, |pts|) && |own| == |pts| && k < |s|
    ensures Side(pts, o, t, s[..k + 1], true) == Side(pts, o, t, s[..k], true) + (if ToLeft(pts, o, t, s[k]) then [s[k]] else [])
    ensures Side(pts, o, t, s[..k + 1], false) == Side(pts, o, t, s[..k], false) + (if ToLeft(pts, o, t, s[k]) then [] else [s[k]])
    ensures FlipOwners(pts, o, t, f0, f1, own, s[..k + 1]) == FlipOwners(pts, o, t, f0, f1, own, s[..k])[s[k] := FlipDest(pts, o, t, f0, f1, s[k])]
  {
    assert s[..k + 1][..k] == s[..k];
  }

  /**
    The loop of `reBucketFlip`: the buckets of f0 and f1 are emptied, then
    each point of dirty is placed in f0 when it lies left of the line o -> t
    and in f1 otherwise.
   */
  method SplitBySide(b: Buckets, pts: seq<Vec2>, o: nat, t: VertexId, f0: nat, f1: nat, dirty: seq<nat>)
    returns (r: Buckets)
    requires o < |pts| && VidIn(pts, t) && AllBelow(dirty, |pts|) && |b.pointToFace| == |pts| && f0 != f1
    ensures Get(r, f0) == Side(pts, o, t, dirty, true) && Get(r, f1) == Side(pts, o, t, dirty, false)
    ensures forall g :: g != f0 && g != f1 ==> Get(r, g) == Get(b, g)
    ensures r.pointToFace == FlipOwners(pts, o, t, f0, f1, b.pointToFace, dirty)
  {
    r := Buckets(b.faceToPoints[f0 := []][f1 := []], b.pointToFace);
    for k := 0 to |dirty|
      invariant Get(r, f0) == Side(pts, o, t, dirty[..k], true)
      invariant Get(r, f1) == Side(pts, o, t, dirty[..k], false)
      invariant forall g :: g != f0 && g != f1 ==> Get(r, g) == Get(b, g)
      invariant r.pointToFace == FlipOwners(pts, o, t, f0, f1, b.pointToFace, dirty[..k])
    {
      var p := dirty[k];
      SplitSnoc(pts, o, t, f0, f1, b.pointToFace, dirty, k);
      if ToLeft(pts, o, t, p) {
        r := Place(r, p, f0);
      } else {
        r := Place(r, p, f1);
      }
    }
    assert dirty[..|dirty|] == dirty;
  }

  /**
    r is b re-bucketed across half-edge he of m: the points of he's face
    f0 and of its flip's face f1 (f0's first) are split by the line from
    he's origin towards the flip's origin, in order, f0 taking the left
    side; every other bucket is unchanged and the map follows the moves.
   */
  ghost predicate FlipBucketed(b: Buckets, pts: seq<Vec2>, m: Mesh, he: nat, r: Buckets)
  {
    && he < |m.halfedges| && InRange(m, Flip(m, he)) && m.halfedges[he].vid.Real?
    && var f0, f1 := FaceOfHe(m, he), FaceOfHe(m, Flip(m, he));
    var o, t := m.halfedges[he].vid.id, m.halfedges[Flip(m, he)].vid;
    var dirty := Get(b, f0) + Get(b, f1);
    && AllBelow(dirty, |pts|) && o < |pts| && VidIn(pts, t) && |b.pointToFace| == |pts|
    && Get(r, f0) == Side(pts, o, t, dirty, true)
    && Get(r, f1) == Side(pts, o, t, dirty, false)
    && (forall g :: g != f0 && g != f1 ==> Get(r, g) == Get(b, g))
    && r.pointToFace == FlipOwners(pts, o, t, f0, f1, b.pointToFace, dirty)
  }

  /** r is b re-bucketed by `reBucketFlip(he)` and then `reBucketFlip(he')`, both in m. */
  ghost predicate TwoFlipsBucketed(b: Buckets, pts: seq<Vec2>, m: Mesh, he: nat, he': nat, r: Buckets)
  {
    exists mid :: FlipBucketed(b, pts, m, he, mid) && FlipBucketed(mid, pts, m, he', r)
  }

  /**
    `reBucketFlip(he)`: the points in the buckets of he's face f0 and of its
    flip's face f1 are gathered (f0's first) and split by the line from he's
    origin towards the flip's origin, f0 taking the left side.
   */
  method ReBucketFlip(b: Buckets, pts: seq<Vec2>, m: Mesh, he: nat) returns (r: Buckets)
    requires Valid(m) && VidsBelow(m, |pts|) && he < |m.halfedges| && !IsBoundary(m.halfedges[he])
    requires m.halfedges[he].vid.Real?
    requires Consistent(b, |pts|, |m.faces|)
    ensures InRange(m, Flip(m, he)) && FaceOfHe(m, he) != FaceOfHe(m, Flip(m, he))
    ensures FlipBucketed(b, pts, m, he, r)
    ensures Consistent(r, |pts|, |m.faces|)
    ensures forall p: nat :: Located(b, p) ==> Located(r, p)
  {
    assert EdgeOk(m, he);
    var hef := Flip(m, he);
    assert EdgeOk(m, hef);
    var fid0, fid1 := FaceFromHe(m, he), FaceFromHe(m, hef);
    var vid0, vid1 := m.halfedges[he].vid.id, m.halfedges[hef].vid;
    var dirty := Get(b, fid0) + Get(b, fid1);
    GetBelow(b, |pts|, |m.faces|, fid0);
    GetBelow(b, |pts|, |m.faces|, fid1);
    ConcatBelow(Get(b, fid0), Get(b, fid1), |pts|);
    r := SplitBySide(b, pts, vid0, vid1, fid0, fid1, dirty);
    FlipConsistent(b, r, pts, |m.faces|, fid0, fid1, vid0, vid1);
    FlipLocated(b, r, pts, |m.faces|, fid0, fid1, vid0, vid1);
  }

  /** The buckets after the flip's re-bucketing, as the loop leaves them. */
  ghost predicate FlipResult(b: Buckets, r: Buckets, pts: seq<Vec2>, nf: nat, f0: nat, f1: nat, o: nat, t: VertexId)
  {
    && Consistent(b, |pts|, nf) && f0 < nf && f1 < nf && f0 != f1
    && o < |pts| && VidIn(pts, t) && AllBelow(Get(b, f0) + Get(b, f1), |pts|)
    && Get(r, f0) == Side(pts, o, t, Get(b, f0) + Get(b, f1), true)
    && Get(r, f1) == Side(pts, o, t, Get(b, f0) + Get(b, f1), false)
    && (forall g :: g != f0 && g != f1 ==> Get(r, g) == Get(b, g))
    && r.pointToFace == FlipOwners(pts, o, t, f0, f1, b.pointToFace, Get(b, f0) + Get(b, f1))
  }

  /** A point of neither gathered bucket keeps its face. */
  lemma FlipUntouched(b: Buckets, r: Buckets, pts: seq<Vec2>, nf: nat, f0: nat, f1: nat, o: nat, t: VertexId, x: nat)
    requires FlipResult(b, r, pts, nf, f0, f1, o, t) && x < |pts|
    requires b.pointToFace[x] != f0 && b.pointToFace[x] != f1
    ensures r.pointToFace[x] == b.pointToFace[x]
  {
    var dirty := Get(b, f0) + Get(b, f1);
    FlipOwnersAt(pts, o, t, f0, f1, b.pointToFace, dirty, x);
    if x in dirty {
      if x in Get(b, f0) {
        ConsistentGet(b, |pts|, nf, f0, x);
      } else {
        ConsistentGet(b, |pts|, nf, f1, x);
      }
    }
  }

  /** A point in f0's or f1's new bucket is assigned that face. */
  lemma FlipPlaced(b: Buckets, r: Buckets, pts: seq<Vec2>, nf: nat, f0: nat, f1: nat, o: nat, t: VertexId, x: nat, left: bool)
    requires FlipResult(b, r, pts, nf, f0, f1, o, t)
    requires x in Side(pts, o, t, Get(b, f0) + Get(b, f1), left)
    ensures x < |pts| && r.pointToFace[x] == if left then f0 else f1
  {
    var dirty := Get(b, f0) + Get(b, f1);
    SideMembers(pts, o, t, dirty, left, x);
    FlipOwnersAt(pts, o, t, f0, f1, b.pointToFace, dirty, x);
  }

  /** The flip's re-bucketing keeps the two maps consistent. */
  lemma FlipConsistent(b: Buckets, r: Buckets, pts: seq<Vec2>, nf: nat, f0: nat, f1: nat, o: nat, t: VertexId)
    requires FlipResult(b, r, pts, nf, f0, f1, o, t)
    ensures Consistent(r, |pts|, nf)
  {
    var dirty := Get(b, f0) + Get(b, f1);
    forall p | 0 <= p < |pts| ensures r.pointToFace[p] < nf {
      FlipOwnersAt(pts, o, t, f0, f1, b.pointToFace, dirty, p);
    }
    forall f, k | f in r.faceToPoints && 0 <= k < |r.faceToPoints[f]|
      ensures r.faceToPoints[f][k] < |pts| && r.pointToFace[r.faceToPoints[f][k]] == f
    {
      var x := r.faceToPoints[f][k];
      assert x in Get(r, f);
      if f == f0 {
        FlipPlaced(b, r, pts, nf, f0, f1, o, t, x, true);
      } else if f == f1 {
        FlipPlaced(b, r, pts, nf, f0, f1, o, t, x, false);
      } else {
        ConsistentGet(b, |pts|, nf, f, x);
        FlipUntouched(b, r, pts, nf, f0, f1, o, t, x);
      }
    }
  }

  /** Every point located before the flip's re-bucketing is located after it. */
  lemma FlipLocated(b: Buckets, r: Buckets, pts: seq<Vec2>, nf: nat, f0: nat, f1: nat, o: nat, t: VertexId)
    requires FlipResult(b, r, pts, nf, f0, f1, o, t)
    ensures forall p: nat :: Located(b, p) ==> Located(r, p)
  {
    var dirty := Get(b, f0) + Get(b, f1);
    forall p: nat | Located(b, p) ensures Located(r, p) {
      var g := b.pointToFace[p];
      if g == f0 || g == f1 {
        assert p in dirty;
        var left := ToLeft(pts, o, t, p);
        SideMembers(pts, o, t, dirty, left, p);
        FlipPlaced(b, r, pts, nf, f0, f1, o, t, p, left);
      } else {
        FlipUntouched(b, r, pts, nf, f0, f1, o, t, p);
      }
    }
  }

  // ---------------------------------------------------------------------
  // reBucketStarSplit
  // ---------------------------------------------------------------------

  /**
    Which of the three faces round the new vertex v a point falls in (0, 1
    or 2 for the faces of he0, he1, he2): two orientation tests against the
    spokes from v to the outer vertices v0, v1, v2.
   */
  function StarRegion(pts: seq<Vec2>, v: nat, v0: VertexId, v1: VertexId, v2: VertexId, p: nat): (k: nat)
    requires v < |pts| && VidIn(pts, v0) && VidIn(pts, v1) && VidIn(pts, v2) && p < |pts|
    ensures k < 3
  {
    if ToLeft(pts, v, v0, p) then (if ToLeft(pts, v, v1, p) then 1 else 0)
    else (if ToLeft(pts, v, v2, p) then 2 else 1)
  }

  /** The points of s other than v that fall in region k, in their order in s. */
  function Region(pts: seq<Vec2>, v: nat, v0: VertexId, v1: VertexId, v2: VertexId, s: seq<nat>, k: nat): seq<nat>
    requires v < |pts| && VidIn(pts, v0) && VidIn(pts, v1) && VidIn(pts, v2) && AllBelow(s, |pts|)
  {
    if s == [] then []
    else
      var x := s[|s| - 1];
      Region(pts, v, v0, v1, v2, s[..|s| - 1], k)
        + (if x != v && StarRegion(pts, v, v0, v1, v2, x) == k then [x] else [])
  }

  /** A point is in region k exactly when it occurs in s, is not v, and the two tests put it there. */
  lemma {:induction false} RegionMembers(pts: seq<Vec2>, v: nat, v0: VertexId, v1: VertexId, v2: VertexId, s: seq<nat>, k: nat, x: nat)
    requires v < |pts| && VidIn(pts, v0) && VidIn(pts, v1) && VidIn(pts, v2) && AllBelow(s, |pts|)
    ensures x in Region(pts, v, v0, v1, v2, s, k) <==>
      x in s && x != v && x < |pts| && StarRegion(pts, v, v0, v1, v2, x) == k
  {
    if s != [] {
      var init := s[..|s| - 1];
      RegionMembers(pts, v, v0, v1, v2, init, k, x);
      assert s == init + [s[|s| - 1]];
    }
  }

  /** s with every occurrence of v removed. */
  function Without(s: seq<nat>, v: nat): (r: seq<nat>)
    ensures forall x :: x in r <==> x in s && x != v
  {
    if s == [] then [] else Without(s[..|s| - 1], v) + (if s[|s| - 1] == v then [] else [s[|s| - 1]])
  }

  /** The three regions split s without v exactly. */
  lemma {:induction false} RegionsPartition(pts: seq<Vec2>, v: nat, v0: VertexId, v1: VertexId, v2: VertexId, s: seq<nat>)
    requires v < |pts| && VidIn(pts, v0) && VidIn(pts, v1) && VidIn(pts, v2) && AllBelow(s, |pts|)
    ensures multiset(Region(pts, v, v0, v1, v2, s, 0)) + multiset(Region(pts, v, v0, v1, v2, s, 1))
            + multiset(Region(pts, v, v0, v1, v2, s, 2)) == multiset(Without(s, v))
  {
    if s != [] {
      RegionsPartition(pts, v, v0, v1, v2, s[..|s| - 1]);
    }
  }

  /** Where the star re-bucketing sends point p. */
  function StarDest(pts: seq<Vec2>, v: nat, v0: VertexId, v1: VertexId, v2: VertexId, f0: nat, f1: nat, f2: nat, p: nat): nat
    requires v < |pts| && VidIn(pts, v0) && VidIn(pts, v1) && VidIn(pts, v2) && p < |pts|
  {
    [f0, f1, f2][StarRegion(pts, v, v0, v1, v2, p)]
  }

  /** The point-to-face map after placing the points of s other than v in order. */
  function StarOwners(pts: seq<Vec2>, v: nat, v0: VertexId, v1: VertexId, v2: VertexId, f0: nat, f1: nat, f2: nat,
                      own: seq<nat>, s: seq<nat>): (r: seq<nat>)
    requires v < |pts| && VidIn(pts, v0) && VidIn(pts, v1) && VidIn(pts, v2) && |own| == |pts| && AllBelow(s, |pts|)
    ensures |r| == |own|
  {
    if s == [] then own
    else
      var x := s[|s| - 1];
      var prior := StarOwners(pts, v, v0, v1, v2, f0, f1, f2, own, s[..|s| - 1]);
      if x == v then prior else prior[x := StarDest(pts, v, v0, v1, v2, f0, f1, f2, x)]
  }

  /** Each point of s other than v ends up assigned to its region's face; every other point keeps its face. */
  lemma {:induction false} StarOwnersAt(pts: seq<Vec2>, v: nat, v0: VertexId, v1: VertexId, v2: VertexId, f0: nat, f1: nat, f2: nat,
                                        own: seq<nat>, s: seq<nat>, p: nat)
    requires v < |pts| && VidIn(pts, v0) && VidIn(pts, v1) && VidIn(pts, v2) && |own| == |pts| && AllBelow(s, |pts|)
    requires p < |pts|
    ensures StarOwners(pts, v, v0, v1, v2, f0, f1, f2, own, s)[p] ==
      if p in s && p != v then StarDest(pts, v, v0, v1, v2, f0, f1, f2, p) else own[p]
  {
    if s != [] {
      var init := s[..|s| - 1];
      StarOwnersAt(pts, v, v0, v1, v2, f0, f1, f2, own, init, p);
      assert s == init + [s[|s| - 1]];
    }
  }

  /** What one more point of s does to region k. */
  lemma RegionSnoc(pts: seq<Vec2>, v: nat, v0: VertexId, v1: VertexId, v2: VertexId, s: seq<nat>, x: nat, k: nat)
    requires v < |pts| && VidIn(pts, v0) && VidIn(pts, v1) && VidIn(pts, v2)
    requires AllBelow(s, |pts|) && x < |pts|
    ensures AllBelow(s + [x], |pts|)
    ensures Region(pts, v, v0, v1, v2, s + [x], k) ==
      Region(pts, v, v0, v1, v2, s, k) + (if x != v && StarRegion(pts, v, v0, v1, v2, x) == k then [x] else [])
  {
    assert (s + [x])[..|s|] == s;
  }

  /** What one more point of s does to the owners. */
  lemma StarOwnersSnoc(pts: seq<Vec2>, v: nat, v0: VertexId, v1: VertexId, v2: VertexId, f0: nat, f1: nat, f2: nat,
                       own: seq<nat>, s: seq<nat>, x: nat)
    requires v < |pts| && VidIn(pts, v0) && VidIn(pts, v1) && VidIn(pts, v2) && |own| == |pts|
    requires AllBelow(s, |pts|) && x < |pts|
    ensures AllBelow(s + [x], |pts|)
    ensures StarOwners(pts, v, v0, v1, v2, f0, f1, f2, own, s + [x]) ==
      var prior := StarOwners(pts, v, v0, v1, v2, f0, f1, f2, own, s);
      if x == v then prior else prior[x := StarDest(pts, v, v0, v1, v2, f0, f1, f2, x)]
  {
    assert (s + [x])[..|s|] == s;
  }

  /** The buckets after the star loop has placed the points of s (its invariant). */
  ghost predicate StarPlacedSoFar(b: Buckets, r: Buckets, pts: seq<Vec2>, v: nat, v0: VertexId, v1: VertexId, v2: VertexId,
                                  f0: nat, f1: nat, f2: nat, s: seq<nat>)
    requires v < |pts| && VidIn(pts, v0) && VidIn(pts, v1) && VidIn(pts, v2) && AllBelow(s, |pts|)
    requires |b.pointToFace| == |pts|
  {
    && Get(r, f0) == Region(pts, v, v0, v1, v2, s, 0)
    && Get(r, f1) == Region(pts, v, v0, v1, v2, s, 1)
    && Get(r, f2) == Get(b, f2) + Region(pts, v, v0, v1, v2, s, 2)
    && (forall g :: g != f0 && g != f1 && g != f2 ==> Get(r, g) == Get(b, g))
    && r.pointToFace == StarOwners(pts, v, v0, v1, v2, f0, f1, f2, b.pointToFace, s)
  }

  /** One round of the star loop: p is skipped when it is v and otherwise placed by its region. */
  method StarStep(b: Buckets, r: Buckets, pts: seq<Vec2>, v: nat, v0: VertexId, v1: VertexId, v2: VertexId,
                  f0: nat, f1: nat, f2: nat, s: seq<nat>, p: nat) returns (r': Buckets)
    requires v < |pts| && VidIn(pts, v0) && VidIn(pts, v1) && VidIn(pts, v2) && AllBelow(s, |pts|) && p < |pts|
    requires |b.pointToFace| == |pts| && f0 != f1 && f1 != f2 && f0 != f2
    requires StarPlacedSoFar(b, r, pts, v, v0, v1, v2, f0, f1, f2, s)
    ensures AllBelow(s + [p], |pts|)
    ensures StarPlacedSoFar(b, r', pts, v, v0, v1, v2, f0, f1, f2, s + [p])
  {
    RegionSnoc(pts, v, v0, v1, v2, s, p, 0);
    RegionSnoc(pts, v, v0, v1, v2, s, p, 1);
    RegionSnoc(pts, v, v0, v1, v2, s, p, 2);
    StarOwnersSnoc(pts, v, v0, v1, v2, f0, f1, f2, b.pointToFace, s, p);
    if p == v {
      r' := r;
    } else {
      // the two orientation tests of the source, as StarRegion states them
      var k := StarRegion(pts, v, v0, v1, v2, p);
      if k == 0 {
        r' := Place(r, p, f0);
      } else if k == 1 {
        r' := Place(r, p, f1);
      } else {
        r' := Place(r, p, f2);
      }
    }
  }

  /**
    The loop of `reBucketStarSplit`: the buckets of f0 and f1 are emptied
    (f2's is kept), then each point of dirty other than v is appended to the
    bucket of its region's face.
   */
  method SplitByRegion(b: Buckets, pts: seq<Vec2>, v: nat, v0: VertexId, v1: VertexId, v2: VertexId,
                       f0: nat, f1: nat, f2: nat, dirty: seq<nat>) returns (r: Buckets)
    requires v < |pts| && VidIn(pts, v0) && VidIn(pts, v1) && VidIn(pts, v2) && AllBelow(dirty, |pts|)
    requires |b.pointToFace| == |pts| && f0 != f1 && f1 != f2 && f0 != f2
    ensures Get(r, f0) == Region(pts, v, v0, v1, v2, dirty, 0)
    ensures Get(r, f1) == Region(pts, v, v0, v1, v2, dirty, 1)
    ensures Get(r, f2) == Get(b, f2) + Region(pts, v, v0, v1, v2, dirty, 2)
    ensures forall g :: g != f0 && g != f1 && g != f2 ==> Get(r, g) == Get(b, g)
    ensures r.pointToFace == StarOwners(pts, v, v0, v1, v2, f0, f1, f2, b.pointToFace, dirty)
  {
    r := Buckets(b.faceToPoints[f0 := []][f1 := []][f1 := []], b.pointToFace);
    for k := 0 to |dirty|
      invariant AllBelow(dirty[..k], |pts|)
      invariant StarPlacedSoFar(b, r, pts, v, v0, v1, v2, f0, f1, f2, dirty[..k])
    {
      assert dirty[..k + 1] == dirty[..k] + [dirty[k]];
      r := StarStep(b, r, pts, v, v0, v1, v2, f0, f1, f2, dirty[..k], dirty[k]);
    }
    assert dirty[..|dirty|] == dirty;
  }

  /**
    r is b re-bucketed round the new vertex v, he1's origin, by
    `reBucketStarSplit(he0, he1, he2)` as written: the points of he0's face
    f0, then of he1's face f1 twice, are sent by the two tests against the
    far ends of the three half-edges to f0, f1 or f2; f0's and f1's buckets
    are replaced, f2's is appended to, every other bucket is unchanged and
    the map follows the moves.
   */
  ghost predicate StarBucketed(b: Buckets, pts: seq<Vec2>, m: Mesh, he0: nat, he1: nat, he2: nat, r: Buckets)
  {
    && he0 < |m.halfedges| && he1 < |m.halfedges| && he2 < |m.halfedges| && m.halfedges[he1].vid.Real?
    && InRange(m, Next(m, he0)) && InRange(m, Next(m, he1)) && InRange(m, Next(m, he2))
    && var f0, f1, f2 := FaceOfHe(m, he0), FaceOfHe(m, he1), FaceOfHe(m, he2);
    var v := m.halfedges[he1].vid.id;
    var v0, v1, v2 := m.halfedges[Next(m, he0)].vid, m.halfedges[Next(m, he1)].vid, m.halfedges[Next(m, he2)].vid;
    var dirty := Get(b, f0) + Get(b, f1) + Get(b, f1);
    && AllBelow(dirty, |pts|) && v < |pts| && VidIn(pts, v0) && VidIn(pts, v1) && VidIn(pts, v2)
    && |b.pointToFace| == |pts|
    && Get(r, f0) == Region(pts, v, v0, v1, v2, dirty, 0)
    && Get(r, f1) == Region(pts, v, v0, v1, v2, dirty, 1)
    && Get(r, f2) == Get(b, f2) + Region(pts, v, v0, v1, v2, dirty, 2)
    && (forall g :: g != f0 && g != f1 && g != f2 ==> Get(r, g) == Get(b, g))
    && r.pointToFace == StarOwners(pts, v, v0, v1, v2, f0, f1, f2, b.pointToFace, dirty)
  }

  /**
    `reBucketStarSplit(he0, he1, he2)` as written, for three half-edges in
    three different faces that leave the new vertex v (he1's origin). The
    third bucket reference names he1's face again, so the gathered points are
    f0's, then f1's twice, and f2's bucket is neither gathered nor cleared.
   */
  method ReBucketStarSplit(b: Buckets, pts: seq<Vec2>, m: Mesh, he0: nat, he1: nat, he2: nat) returns (r: Buckets)
    requires Valid(m) && VidsBelow(m, |pts|)
    requires he0 < |m.halfedges| && he1 < |m.halfedges| && he2 < |m.halfedges|
    requires m.halfedges[he1].vid.Real?
    requires FaceOfHe(m, he0) != FaceOfHe(m, he1) && FaceOfHe(m, he1) != FaceOfHe(m, he2) && FaceOfHe(m, he0) != FaceOfHe(m, he2)
    requires Consistent(b, |pts|, |m.faces|)
    ensures StarBucketed(b, pts, m, he0, he1, he2, r)
    ensures Consistent(r, |pts|, |m.faces|)
    ensures forall p: nat :: Located(b, p) && p != m.halfedges[he1].vid.id ==> Located(r, p)
  {
    assert EdgeOk(m, he0) && EdgeOk(m, he1) && EdgeOk(m, he2);
    var vId := m.halfedges[he1].vid.id;
    var vid0, vid1, vid2 := m.halfedges[Next(m, he0)].vid, m.halfedges[Next(m, he1)].vid, m.halfedges[Next(m, he2)].vid;
    var fid0, fid1, fid2 := FaceFromHe(m, he0), FaceFromHe(m, he1), FaceFromHe(m, he2);
    var dirty := Get(b, fid0) + Get(b, fid1) + Get(b, fid1);
    GetBelow(b, |pts|, |m.faces|, fid0);
    GetBelow(b, |pts|, |m.faces|, fid1);
    ConcatBelow(Get(b, fid0), Get(b, fid1), |pts|);
    ConcatBelow(Get(b, fid0) + Get(b, fid1), Get(b, fid1), |pts|);
    r := SplitByRegion(b, pts, vId, vid0, vid1, vid2, fid0, fid1, fid2, dirty);
    StarConsistent(b, r, pts, |m.faces|, fid0, fid1, fid2, vId, vid0, vid1, vid2);
    StarLocated(b, r, pts, |m.faces|, fid0, fid1, fid2, vId, vid0, vid1, vid2);
  }

  /** The buckets after the star re-bucketing, as the loop leaves them. */
  ghost predicate StarResult(b: Buckets, r: Buckets, pts: seq<Vec2>, nf: nat, f0: nat, f1: nat, f2: nat,
                       v: nat, v0: VertexId, v1: VertexId, v2: VertexId)
  {
    var dirty := Get(b, f0) + Get(b, f1) + Get(b, f1);
    && Consistent(b, |pts|, nf) && f0 < nf && f1 < nf && f2 < nf && f0 != f1 && f1 != f2 && f0 != f2
    && v < |pts| && VidIn(pts, v0) && VidIn(pts, v1) && VidIn(pts, v2) && AllBelow(dirty, |pts|)
    && Get(r, f0) == Region(pts, v, v0, v1, v2, dirty, 0)
    && Get(r, f1) == Region(pts, v, v0, v1, v2, dirty, 1)
    && Get(r, f2) == Get(b, f2) + Region(pts, v, v0, v1, v2, dirty, 2)
    && (forall g :: g != f0 && g != f1 && g != f2 ==> Get(r, g) == Get(b, g))
    && r.pointToFace == StarOwners(pts, v, v0, v1, v2, f0, f1, f2, b.pointToFace, dirty)
  }

  /** A point that was not gathered keeps its face. */
  lemma StarUntouched(b: Buckets, r: Buckets, pts: seq<Vec2>, nf: nat, f0: nat, f1: nat, f2: nat,
                      v: nat, v0: VertexId, v1: VertexId, v2: VertexId, x: nat)
    requires StarResult(b, r, pts, nf, f0, f1, f2, v, v0, v1, v2) && x < |pts|
    requires (b.pointToFace[x] != f0 && b.pointToFace[x] != f1) || x == v
    ensures r.pointToFace[x] == b.pointToFace[x]
  {
    var dirty := Get(b, f0) + Get(b, f1) + Get(b, f1);
    StarOwnersAt(pts, v, v0, v1, v2, f0, f1, f2, b.pointToFace, dirty, x);
    if x in dirty && x != v {
      if x in Get(b, f0) {
        ConsistentGet(b, |pts|, nf, f0, x);
      } else {
        assert x in Get(b, f1);
        ConsistentGet(b, |pts|, nf, f1, x);
      }
    }
  }

  /** A point placed in region k's bucket is assigned region k's face. */
  lemma StarPlaced(b: Buckets, r: Buckets, pts: seq<Vec2>, nf: nat, f0: nat, f1: nat, f2: nat,
                   v: nat, v0: VertexId, v1: VertexId, v2: VertexId, x: nat, k: nat)
    requires StarResult(b, r, pts, nf, f0, f1, f2, v, v0, v1, v2) && k < 3
    requires x in Region(pts, v, v0, v1, v2, Get(b, f0) + Get(b, f1) + Get(b, f1), k)
    ensures x < |pts| && r.pointToFace[x] == [f0, f1, f2][k]
  {
    var dirty := Get(b, f0) + Get(b, f1) + Get(b, f1);
    RegionMembers(pts, v, v0, v1, v2, dirty, k, x);
    StarOwnersAt(pts, v, v0, v1, v2, f0, f1, f2, b.pointToFace, dirty, x);
  }

  /** The star re-bucketing keeps the two maps consistent. */
  lemma StarConsistent(b: Buckets, r: Buckets, pts: seq<Vec2>, nf: nat, f0: nat, f1: nat, f2: nat,
                       v: nat, v0: VertexId, v1: VertexId, v2: VertexId)
    requires StarResult(b, r, pts, nf, f0, f1, f2, v, v0, v1, v2)
    ensures Consistent(r, |pts|, nf)
  {
    var dirty := Get(b, f0) + Get(b, f1) + Get(b, f1);
    forall p | 0 <= p < |pts| ensures r.pointToFace[p] < nf {
      StarOwnersAt(pts, v, v0, v1, v2, f0, f1, f2, b.pointToFace, dirty, p);
    }
    forall f, k | f in r.faceToPoints && 0 <= k < |r.faceToPoints[f]|
      ensures r.faceToPoints[f][k] < |pts| && r.pointToFace[r.faceToPoints[f][k]] == f
    {
      var x := r.faceToPoints[f][k];
      assert x in Get(r, f);
      StarEntry(b, r, pts, nf, f0, f1, f2, v, v0, v1, v2, f, x);
    }
  }

  lemma StarEntry(b: Buckets, r: Buckets, pts: seq<Vec2>, nf: nat, f0: nat, f1: nat, f2: nat,
                  v: nat, v0: VertexId, v1: VertexId, v2: VertexId, f: nat, x: nat)
    requires StarResult(b, r, pts, nf, f0, f1, f2, v, v0, v1, v2) && x in Get(r, f)
    ensures x < |pts| && r.pointToFace[x] == f
  {
    var dirty := Get(b, f0) + Get(b, f1) + Get(b, f1);
    if f == f0 {
      StarPlaced(b, r, pts, nf, f0, f1, f2, v, v0, v1, v2, x, 0);
    } else if f == f1 {
      StarPlaced(b, r, pts, nf, f0, f1, f2, v, v0, v1, v2, x, 1);
    } else if f == f2 && x in Region(pts, v, v0, v1, v2, dirty, 2) {
      StarPlaced(b, r, pts, nf, f0, f1, f2, v, v0, v1, v2, x, 2);
    } else {
      assert x in Get(b, f);
      ConsistentGet(b, |pts|, nf, f, x);
      StarUntouched(b, r, pts, nf, f0, f1, f2, v, v0, v1, v2, x);
    }
  }

  /** Every point but v located before the star re-bucketing is located after it. */
  lemma StarLocated(b: Buckets, r: Buckets, pts: seq<Vec2>, nf: nat, f0: nat, f1: nat, f2: nat,
                    v: nat, v0: VertexId, v1: VertexId, v2: VertexId)
    requires StarResult(b, r, pts, nf, f0, f1, f2, v, v0, v1, v2)
    ensures forall p: nat :: Located(b, p) && p != v ==> Located(r, p)
  {
    forall p: nat | Located(b, p) && p != v ensures Located(r, p) {
      StarLocatedAt(b, r, pts, nf, f0, f1, f2, v, v0, v1, v2, p);
    }
  }

  /** One point of `StarLocated`. */
  lemma StarLocatedAt(b: Buckets, r: Buckets, pts: seq<Vec2>, nf: nat, f0: nat, f1: nat, f2: nat,
                      v: nat, v0: VertexId, v1: VertexId, v2: VertexId, p: nat)
    requires StarResult(b, r, pts, nf, f0, f1, f2, v, v0, v1, v2)
    requires Located(b, p) && p != v
    ensures Located(r, p)
  {
    var dirty := Get(b, f0) + Get(b, f1) + Get(b, f1);
    var g := b.pointToFace[p];
    if g == f0 || g == f1 {
      assert p in dirty;
      var k := StarRegion(pts, v, v0, v1, v2, p);
      RegionMembers(pts, v, v0, v1, v2, dirty, k, p);
      StarPlaced(b, r, pts, nf, f0, f1, f2, v, v0, v1, v2, p, k);
      if k == 2 {
        assert Get(r, f2) == Get(b, f2) + Region(pts, v, v0, v1, v2, dirty, 2);
      }
    } else {
      StarUntouched(b, r, pts, nf, f0, f1, f2, v, v0, v1, v2, p);
      if g == f2 {
        assert Get(r, f2) == Get(b, f2) + Region(pts, v, v0, v1, v2, dirty, 2);
      } else {
        assert Get(r, g) == Get(b, g);
      }
    }
  }

  /**
    When f1's bucket is empty, as it is for a face the split has just
    created, the aliased gathering is just f0's bucket and the three regions
    split it without v, with no point counted twice.
   */
  lemma StarSplitOfFreshFace(b: Buckets, pts: seq<Vec2>, v: nat, v0: VertexId, v1: VertexId, v2: VertexId, f0: nat, f1: nat)
    requires Get(b, f1) == [] && v < |pts| && VidIn(pts, v0) && VidIn(pts, v1) && VidIn(pts, v2)
    requires AllBelow(Get(b, f0), |pts|)
    ensures Get(b, f0) + Get(b, f1) + Get(b, f1) == Get(b, f0)
    ensures var s := Get(b, f0);
      multiset(Region(pts, v, v0, v1, v2, s, 0)) + multiset(Region(pts, v, v0, v1, v2, s, 1))
        + multiset(Region(pts, v, v0, v1, v2, s, 2)) == multiset(Without(s, v))
  {
    assert Get(b, f0) + [] + [] == Get(b, f0);
    RegionsPartition(pts, v, v0, v1, v2, Get(b, f0));
  }
}
