/**
  After the last insertion the triangulator removes every face that has a
  sentinel as a vertex (`finalizeHDS`) and lists the remaining triangles as
  three point ids each (`extractTriangleIndices`).

  Removal works on half-edges in index order: the first live half-edge
  leaving a sentinel kills its face, and the walk round that face
  invalidates each half-edge and breaks its flip pairing in both
  directions. `Dismantling` describes every intermediate state against the
  mesh before removal; `DeadFaces` is the set the finished pass removes.
 */
module Finalize {
  import opened HalfEdge
  import opened MeshSplit
  import opened DelaunayPredicates

  // ---------------------------------------------------------------------
  // The state of the removal pass
  // ---------------------------------------------------------------------

  /** The original's sentinel test `vid >= cVertexIdNegTwo`, on the size_t value. */
  predicate IsSentinelId(v: VertexId)
  {
    Encode(v) >= SizeMax - 2
  }

  /** Face g has a half-edge leaving a sentinel. */
  predicate SentinelFace(m: Mesh, g: nat)
  {
    exists j :: 0 <= j < |m.halfedges| && m.halfedges[j].fid == At(g) && IsSentinelId(m.halfedges[j].vid)
  }

  /** The faces removal takes away. */
  function DeadFaces(m: Mesh): set<nat>
  {
    set g: nat | g < |m.faces| && SentinelFace(m, g)
  }

  /** A half-edge after `setToInvalid` and `breakFlip`. */
  function Killed(e: HalfEdge): HalfEdge
  {
    SetToInvalid(e).(flipOffset := 0)
  }

  /** A half-edge that is untouched or has only lost its flip. */
  predicate Kept(e: HalfEdge, x: HalfEdge)
  {
    x == e || x == e.(flipOffset := 0)
  }

  /**
    Half-edge j had a twin, and that twin has been killed: it lies in a
    dead face and is no longer pending.
   */
  predicate LosesTwin(m: Mesh, dead: set<nat>, pending: set<nat>, j: nat)
    requires j < |m.halfedges|
  {
    && !IsBoundary(m.halfedges[j]) && InRange(m, Flip(m, j))
    && FaceOfHe(m, Flip(m, j)) in dead && Flip(m, j) !in pending
  }

  /**
    Half-edge j of r against m: killed when its face is dead and it is not
    still pending on the walk; otherwise untouched, except that it is
    unpaired once its twin has been killed.
   */
  predicate EdgeState(m: Mesh, r: Mesh, dead: set<nat>, pending: set<nat>, j: nat)
    requires j < |m.halfedges| && j < |r.halfedges|
  {
    if FaceOfHe(m, j) in dead && j !in pending then r.halfedges[j] == Killed(m.halfedges[j])
    else r.halfedges[j] == if LosesTwin(m, dead, pending, j) then m.halfedges[j].(flipOffset := 0) else m.halfedges[j]
  }

  /** Face g of r against m: invalidated exactly when dead. */
  predicate FaceState(m: Mesh, r: Mesh, dead: set<nat>, g: nat)
    requires g < |m.faces| && g < |r.faces|
  {
    r.faces[g] == if g in dead then SetFaceToInvalid(m.faces[g]) else m.faces[g]
  }

  /** r is m with the faces in dead removed, except the half-edges still pending. */
  predicate Dismantling(m: Mesh, r: Mesh, dead: set<nat>, pending: set<nat>)
  {
    && |r.halfedges| == |m.halfedges| && |r.faces| == |m.faces|
    && (forall j :: 0 <= j < |m.halfedges| ==> EdgeState(m, r, dead, pending, j))
    && (forall g :: 0 <= g < |m.faces| ==> FaceState(m, r, dead, g))
  }

  /** A kept half-edge of a valid mesh is not invalid, and navigates like the original. */
  lemma KeptIsLive(m: Mesh, r: Mesh, j: nat)
    requires Valid(m) && j < |m.halfedges| && j < |r.halfedges| && Kept(m.halfedges[j], r.halfedges[j])
    ensures !IsInvalid(r.halfedges[j]) && r.halfedges[j].vid == m.halfedges[j].vid
    ensures r.halfedges[j].fid == m.halfedges[j].fid && Next(r, j) == Next(m, j)
  {
    CycleFacts(m, j);
  }

  // ---------------------------------------------------------------------
  // finalizeHDS
  // ---------------------------------------------------------------------

  /** `curHE->setToInvalid(); curHE->breakFlip();` on half-edge c. */
  function KillEdge(r: Mesh, c: nat): (r': Mesh)
    requires c < |r.halfedges| && InRange(r, Flip(r, c))
    ensures |r'.halfedges| == |r.halfedges| && r'.faces == r.faces
  {
    BreakFlip(r.(halfedges := r.halfedges[c := SetToInvalid(r.halfedges[c])]), c)
  }

  /** Killing a pending half-edge of a dead face moves it from pending to killed. */
  lemma KillEdgeStep(m: Mesh, r: Mesh, dead: set<nat>, pending: set<nat>, c: nat)
    requires Valid(m) && Dismantling(m, r, dead, pending)
    requires c < |m.halfedges| && c in pending && FaceOfHe(m, c) in dead
    ensures InRange(r, Flip(r, c)) && Next(r, c) == Next(m, c)
    ensures Dismantling(m, KillEdge(r, c), dead, pending - {c})
  {
    assert EdgeState(m, r, dead, pending, c);
    assert EdgeOk(m, c);
    var p := Flip(r, c);
    var r' := KillEdge(r, c);
    if p != c {
      assert r.halfedges[c] == m.halfedges[c];
      FlipFacts(m, c);
    }
    forall j | 0 <= j < |m.halfedges| ensures EdgeState(m, r', dead, pending - {c}, j) {
      assert EdgeState(m, r, dead, pending, j);
      if j != c && j == p {
        assert r'.halfedges[j] == r.halfedges[j].(flipOffset := 0);
      } else if j != c {
        assert r'.halfedges[j] == r.halfedges[j];
        if !IsBoundary(m.halfedges[j]) && Flip(m, j) == c {
          FlipFacts(m, j);
        }
      }
    }
    forall g | 0 <= g < |m.faces| ensures FaceState(m, r', dead, g) {
      assert FaceState(m, r, dead, g);
    }
  }

  /** The pending half-edges of a walk that has killed the first k of the cycle c. */
  function Pending(c: seq<nat>, k: nat): set<nat>
    requires |c| == 3
  {
    if k == 0 then {c[0], c[1], c[2]} else if k == 1 then {c[1], c[2]} else if k == 2 then {c[2]} else {}
  }

  /** Invalidating face g leaves its whole cycle pending. */
  lemma StartDismantle(m: Mesh, r: Mesh, dead: set<nat>, i: nat)
    requires Valid(m) && Dismantling(m, r, dead, {}) && i < |m.halfedges| && FaceOfHe(m, i) !in dead
    ensures var g, n := FaceOfHe(m, i), Next(m, i);
      && InRange(m, n) && InRange(m, Next(m, n))
      && var c := [i, n, Next(m, n)];
      && c[0] != c[1] && c[1] != c[2] && c[0] != c[2] && Next(m, c[2]) == i
      && Next(m, c[0]) == c[1] && Next(m, c[1]) == c[2]
      && FaceOfHe(m, c[1]) == g && FaceOfHe(m, c[2]) == g
      && g < |r.faces| && Dismantling(m, r.(faces := r.faces[g := SetFaceToInvalid(r.faces[g])]), dead + {g}, Pending(c, 0))
  {
    CycleFacts(m, i);
    var g, n := FaceOfHe(m, i), Next(m, i);
    var c := [i, n, Next(m, n)];
    var r0 := r.(faces := r.faces[g := SetFaceToInvalid(r.faces[g])]);
    forall j | 0 <= j < |m.halfedges| ensures EdgeState(m, r0, dead + {g}, Pending(c, 0), j) {
      assert EdgeState(m, r, dead, {}, j);
      assert EdgeOk(m, i) && EdgeOk(m, j);
      if FaceOfHe(m, j) == g {
        assert m.halfedges[j].fid == m.halfedges[i].fid;
      }
      if !IsBoundary(m.halfedges[j]) && FaceOfHe(m, Flip(m, j)) == g {
        assert EdgeOk(m, Flip(m, j));
        assert m.halfedges[Flip(m, j)].fid == m.halfedges[i].fid;
      }
    }
    forall h | 0 <= h < |m.faces| ensures FaceState(m, r0, dead + {g}, h) {
      assert FaceState(m, r, dead, h);
    }
  }

  /**
    The do-while of `finalizeHDS` from live half-edge i: its face is
    invalidated and each half-edge of the face's cycle, starting at i, is
    killed, the next one being read before the kill.
   */
  method DismantleFace(ghost m: Mesh, r: Mesh, ghost dead: set<nat>, i: nat) returns (r': Mesh)
    requires Valid(m) && Dismantling(m, r, dead, {}) && i < |m.halfedges| && FaceOfHe(m, i) !in dead
    ensures Dismantling(m, r', dead + {FaceOfHe(m, i)}, {})
  {
    assert EdgeState(m, r, dead, {}, i);
    KeptIsLive(m, r, i);
    var g := r.halfedges[i].fid.pos;
    StartDismantle(m, r, dead, i);
    r' := r.(faces := r.faces[g := SetFaceToInvalid(r.faces[g])]);
    ghost var c := [i, Next(m, i), Next(m, Next(m, i))];
    ghost var k := 0;
    var cur := i;
    while true
      invariant k < 3 && cur == c[k]
      invariant Dismantling(m, r', dead + {g}, Pending(c, k))
      decreases 3 - k
    {
      KillEdgeStep(m, r', dead + {g}, Pending(c, k), cur);
      var next := Next(r', cur);
      r' := KillEdge(r', cur);
      if next == i {
        assert Pending(c, k) - {cur} == {};
        break;
      }
      assert Pending(c, k) - {cur} == Pending(c, k + 1);
      k := k + 1;
      cur := next;
    }
  }

  /**
    `finalizeHDS` as written: each half-edge in index order that leaves a
    sentinel and is still live removes its face. The result is the mesh with
    exactly the faces touching a sentinel removed: their records invalidated,
    their half-edges invalidated and unpaired, and every other half-edge
    untouched but for losing a flip into a removed face.
   */
  method FinalizeHDS(m: Mesh) returns (r: Mesh)
    requires Valid(m)
    ensures Dismantling(m, r, DeadFaces(m), {})
    ensures forall g :: 0 <= g < |m.faces| ==> (FaceIsInvalid(r.faces[g]) <==> SentinelFace(m, g))
  {
    r := m;
    ghost var dead: set<nat> := {};
    assert Dismantling(m, r, dead, {}) by {
      forall j | 0 <= j < |m.halfedges| ensures EdgeState(m, r, dead, {}, j) { }
    }
    for i := 0 to |m.halfedges|
      invariant Dismantling(m, r, dead, {})
      invariant forall g :: g in dead ==> g < |m.faces| && SentinelFace(m, g)
      invariant forall j :: 0 <= j < i && IsSentinelId(m.halfedges[j].vid) ==> FaceOfHe(m, j) in dead
    {
      assert EdgeState(m, r, dead, {}, i);
      assert EdgeOk(m, i);
      if FaceOfHe(m, i) !in dead {
        KeptIsLive(m, r, i);
      }
      if Encode(r.halfedges[i].vid) >= SizeMax - 2 && !IsInvalid(r.halfedges[i]) {
        r := DismantleFace(m, r, dead, i);
        assert SentinelFace(m, FaceOfHe(m, i));
        dead := dead + {FaceOfHe(m, i)};
      }
    }
    assert dead == DeadFaces(m) by {
      forall g: nat | g < |m.faces| && SentinelFace(m, g) ensures g in dead {
        var j :| 0 <= j < |m.halfedges| && m.halfedges[j].fid == At(g) && IsSentinelId(m.halfedges[j].vid);
        assert FaceOfHe(m, j) == g;
      }
    }
    forall g | 0 <= g < |m.faces| ensures FaceIsInvalid(r.faces[g]) <==> SentinelFace(m, g) {
      assert FaceState(m, r, dead, g);
      assert FaceOk(m, g);
    }
  }

  /**
    The pairing after removal: a half-edge of a removed face is invalid and
    unpaired; a half-edge of a surviving face is boundary exactly when it
    was boundary before or its twin's face was removed, and otherwise keeps
    its twin, which survives and is paired back to it.
   */
  lemma FinalTwins(m: Mesh, r: Mesh, j: nat)
    requires Valid(m) && Dismantling(m, r, DeadFaces(m), {}) && j < |m.halfedges|
    ensures InRange(m, Flip(m, j))
    ensures FaceOfHe(m, j) in DeadFaces(m) ==> IsInvalid(r.halfedges[j]) && IsBoundary(r.halfedges[j])
    ensures FaceOfHe(m, j) !in DeadFaces(m) ==>
      (IsBoundary(r.halfedges[j]) <==> IsBoundary(m.halfedges[j]) || FaceOfHe(m, Flip(m, j)) in DeadFaces(m))
    ensures FaceOfHe(m, j) !in DeadFaces(m) && !IsBoundary(r.halfedges[j]) ==>
      && Flip(r, j) == Flip(m, j) && InRange(r, Flip(r, j))
      && FaceOfHe(m, Flip(r, j)) !in DeadFaces(m) && Flip(r, Flip(r, j)) == j
  {
    assert EdgeState(m, r, DeadFaces(m), {}, j);
    assert EdgeOk(m, j);
    if FaceOfHe(m, j) !in DeadFaces(m) && !IsBoundary(m.halfedges[j]) {
      FlipFacts(m, j);
      var p := Flip(m, j);
      assert EdgeState(m, r, DeadFaces(m), {}, p);
    }
  }

  // ---------------------------------------------------------------------
  // extractTriangleIndices
  // ---------------------------------------------------------------------

  /** `static_cast<uint32_t>` of the size_t a vid holds: the value modulo 2^32. */
  function VidToU32(v: VertexId): nat
  {
    Encode(v) % 0x1_0000_0000
  }

  /** The three vids of face f's cycle, from its representative, as uint32. */
  function FaceVids(m: Mesh, f: nat): seq<nat>
    requires Valid(m) && f < |m.faces|
  {
    [VidToU32(m.halfedges[CycleEdge(m, f, 0)].vid),
     VidToU32(m.halfedges[CycleEdge(m, f, 1)].vid),
     VidToU32(m.halfedges[CycleEdge(m, f, 2)].vid)]
  }

  /** The triangle list over the first `upto` faces: the cycle vids of each face still valid in r. */
  function Triangles(m: Mesh, r: Mesh, upto: nat): (t: seq<nat>)
    requires Valid(m) && upto <= |m.faces| <= |r.faces|
    ensures |t| % 3 == 0 && |t| <= 3 * upto
  {
    if upto == 0 then []
    else Triangles(m, r, upto - 1) + (if FaceIsInvalid(r.faces[upto - 1]) then [] else FaceVids(m, upto - 1))
  }

  /**
    `extractTriangleIndices` as written: each face still valid contributes
    the vids met walking its cycle from its representative until the walk
    returns there.
   */
  method Extract(ghost m: Mesh, r: Mesh) returns (out: seq<nat>)
    requires Valid(m) && Dismantling(m, r, DeadFaces(m), {})
    ensures out == Triangles(m, r, |r.faces|)
  {
    out := [];
    for f := 0 to |r.faces|
      invariant out == Triangles(m, r, f)
    {
      if FaceIsInvalid(r.faces[f]) {
        continue;
      }
      var tri := WalkFace(m, r, f);
      out := out + tri;
    }
  }

  /** The do-while of `extractTriangleIndices` over live face f. */
  method WalkFace(ghost m: Mesh, r: Mesh, f: nat) returns (tri: seq<nat>)
    requires Valid(m) && Dismantling(m, r, DeadFaces(m), {}) && f < |r.faces| && !FaceIsInvalid(r.faces[f])
    ensures tri == FaceVids(m, f)
  {
    assert FaceState(m, r, DeadFaces(m), f);
    assert f !in DeadFaces(m);
    FaceCycleOf(m, f);
    var he := r.faces[f].heid.pos;
    var cur := he;
    tri := [];
    ghost var k := 0;
    while true
      invariant k < 3 && cur == CycleEdge(m, f, k) && tri == FaceVids(m, f)[..k]
      decreases 3 - k
    {
      assert EdgeState(m, r, DeadFaces(m), {}, cur);
      KeptIsLive(m, r, cur);
      CycleEdgeNext(m, f, k);
      tri := tri + [VidToU32(r.halfedges[cur].vid)];
      cur := Next(r, cur);
      if cur == he {
        break;
      }
      k := k + 1;
    }
  }

  /**
    With every point id below n <= 2^32, the triangle list holds point ids
    only: a face still valid after removal has no sentinel vertex, and the
    uint32 cast keeps ids below 2^32.
   */
  lemma {:induction false} TrianglesArePoints(m: Mesh, r: Mesh, n: nat, upto: nat)
    requires Valid(m) && VidsBelow(m, n) && n <= 0x1_0000_0000
    requires Dismantling(m, r, DeadFaces(m), {}) && upto <= |m.faces|
    ensures forall k :: 0 <= k < |Triangles(m, r, upto)| ==> Triangles(m, r, upto)[k] < n
  {
    if upto > 0 {
      TrianglesArePoints(m, r, n, upto - 1);
      var f := upto - 1;
      if !FaceIsInvalid(r.faces[f]) {
        LiveFaceVidsArePoints(m, r, n, f);
      }
    }
  }

  /** The three vids of a face still valid after removal are point ids below n. */
  lemma LiveFaceVidsArePoints(m: Mesh, r: Mesh, n: nat, f: nat)
    requires Valid(m) && VidsBelow(m, n) && n <= 0x1_0000_0000
    requires Dismantling(m, r, DeadFaces(m), {}) && f < |m.faces| && !FaceIsInvalid(r.faces[f])
    ensures forall i :: 0 <= i < 3 ==> FaceVids(m, f)[i] < n
  {
    assert FaceState(m, r, DeadFaces(m), f);
    assert f !in DeadFaces(m);
    forall i | 0 <= i < 3 ensures FaceVids(m, f)[i] < n {
      var h := CycleEdge(m, f, i);
      assert !IsSentinelId(m.halfedges[h].vid);
    }
  }
}
