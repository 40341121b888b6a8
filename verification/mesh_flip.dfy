/**
  The edge flip of the Delaunay driver. The two triangles (he, o0, o1) and
  (hef, o2, o3) beside a non-boundary half-edge he share the diagonal he/hef;
  the flip replaces that diagonal by the other one. `FlipEdge` follows the
  original statement by statement, `Flipped` describes the resulting arrays
  directly, and the flip is proved to keep a mesh valid whenever the two
  apexes it joins are different vertices.
 */
module MeshFlip {
  import opened HalfEdge
  import opened MeshSplit

  /**
    The flipped diamond described directly: he now runs from the apex c of
    its old triangle (o1's vertex) to the apex d of the other (o3's vertex)
    in the cycle (he, o3, o0) of he's face, and hef runs back from d to c in
    the cycle (hef, o1, o2) of hef's face. The four outer edges keep their
    vertices and flips, he and hef stay paired, and each face now names the
    middle edge it holds. Nothing is added to either array.
   */
  function Flipped(m: Mesh, d: Diamond): Mesh
    requires DiamondSlots(|m.halfedges|, d)
    requires FaceOfHe(m, d.he) < |m.faces| && FaceOfHe(m, d.hef) < |m.faces|
  {
    var hs := m.halfedges;
    var f0, f3 := FaceOfHe(m, d.he), FaceOfHe(m, d.hef);
    Mesh(hs[d.he := Linked(d.he, f0, hs[d.o1].vid, d.o0, d.o3, d.hef)]
           [d.o3 := Linked(d.o3, f0, hs[d.o3].vid, d.he, d.o0, Flip(m, d.o3))]
           [d.o0 := Linked(d.o0, f0, hs[d.o0].vid, d.o3, d.he, Flip(m, d.o0))]
           [d.hef := Linked(d.hef, f3, hs[d.o3].vid, d.o2, d.o1, d.he)]
           [d.o1 := Linked(d.o1, f3, hs[d.o1].vid, d.hef, d.o2, Flip(m, d.o1))]
           [d.o2 := Linked(d.o2, f3, hs[d.o2].vid, d.o1, d.hef, Flip(m, d.o2))],
         m.faces[f0 := Face(f0, At(d.he))][f3 := Face(f3, At(d.hef))])
  }

  /**
    `flipEdge(he, hef)` as written: name the four outer edges, move the
    origins of he and hef to the two apexes, then relink the two triangles
    with `linkEdgeLoop` and `linkFace`, each in the face he or hef holds.
   */
  method FlipEdge(m: Mesh, he: nat) returns (r: Mesh)
    requires Valid(m) && he < |m.halfedges| && !IsBoundary(m.halfedges[he])
    ensures var d := DiamondOf(m, he);
      && DiamondSlots(|m.halfedges|, d) && FaceOfHe(m, d.he) < |m.faces| && FaceOfHe(m, d.hef) < |m.faces|
      && r == Flipped(m, d)
  {
    var d := DiamondOf(m, he);
    DiamondFacts(m, d);
    var hef := Flip(m, he);
    var he1, he2, he3, he4 := Next(m, he), Prev(m, he), Next(m, hef), Prev(m, hef);
    r := WriteVid(m, he, m.halfedges[he2].vid);
    r := WriteVid(r, hef, r.halfedges[he4].vid);
    r := LinkTriangle(r, he, he4, he1, FaceFromHe(r, he));
    r := LinkTriangle(r, hef, he2, he3, FaceFromHe(r, hef));
    FlipRelinks(m, d);
  }

  /** `he.vid = v`: one record takes a new origin. */
  method WriteVid(g: Mesh, i: nat, v: VertexId) returns (r: Mesh)
    requires i < |g.halfedges|
    ensures r == Mesh(g.halfedges[i := g.halfedges[i].(vid := v)], g.faces)
  {
    r := SetVid(g, i, v);
  }

  /**
    `linkEdgeLoop(a, b, c)` then `linkFace(a, b, c, f)` on three distinct
    records whose ids match their positions: a, b and c are relinked around
    the cycle a -> b -> c in face f, which names a.
   */
  method LinkTriangle(g: Mesh, a: nat, b: nat, c: nat, f: nat) returns (r: Mesh)
    requires a < |g.halfedges| && b < |g.halfedges| && c < |g.halfedges| && f < |g.faces|
    requires a != b && b != c && a != c
    requires g.halfedges[a].index == a && g.halfedges[b].index == b && g.halfedges[c].index == c
    requires g.faces[f].index == f
    ensures var hs := g.halfedges;
      r == Mesh(hs[a := Relink(hs[a], f, c, b)][b := Relink(hs[b], f, a, c)][c := Relink(hs[c], f, b, a)],
                g.faces[f := g.faces[f].(heid := At(a))])
  {
    ConstructFaceLinks(g, a, b, c, f);
    r := LinkEdgeLoop(g, a, b, c);
    r := LinkFace(r, a, b, c, f);
    ConstructFaceRelinks(g, a, b, c, f);
  }

  /** With ids matching positions, `constructFace` is three relinks and a face update. */
  lemma ConstructFaceRelinks(g: Mesh, a: nat, b: nat, c: nat, f: nat)
    requires a < |g.halfedges| && b < |g.halfedges| && c < |g.halfedges| && f < |g.faces|
    requires a != b && b != c && a != c
    requires g.halfedges[a].index == a && g.halfedges[b].index == b && g.halfedges[c].index == c
    requires g.faces[f].index == f
    ensures var hs := g.halfedges;
      ConstructFace(g, a, b, c, f)
        == Mesh(hs[a := Relink(hs[a], f, c, b)][b := Relink(hs[b], f, a, c)][c := Relink(hs[c], f, b, a)],
                g.faces[f := g.faces[f].(heid := At(a))])
  {
  }

  /** The four as-written edits compose to the direct description. */
  lemma FlipRelinks(m: Mesh, d: Diamond)
    requires IsDiamond(m, d)
    ensures DiamondSlots(|m.halfedges|, d)
    ensures FaceOfHe(m, d.he) < |m.faces| && FaceOfHe(m, d.hef) < |m.faces|
    ensures var hs := m.halfedges;
      var f0, f3 := FaceOfHe(m, d.he), FaceOfHe(m, d.hef);
      var h1 := hs[d.he := hs[d.he].(vid := hs[d.o1].vid)][d.hef := hs[d.hef].(vid := hs[d.o3].vid)];
      var h2 := h1[d.he := Relink(h1[d.he], f0, d.o0, d.o3)][d.o3 := Relink(h1[d.o3], f0, d.he, d.o0)]
                  [d.o0 := Relink(h1[d.o0], f0, d.o3, d.he)];
      var h3 := h2[d.hef := Relink(h2[d.hef], f3, d.o2, d.o1)][d.o1 := Relink(h2[d.o1], f3, d.hef, d.o2)]
                  [d.o2 := Relink(h2[d.o2], f3, d.o1, d.hef)];
      var fs := m.faces[f0 := m.faces[f0].(heid := At(d.he))];
      Mesh(h3, fs[f3 := fs[f3].(heid := At(d.hef))]) == Flipped(m, d)
  {
    DiamondFacts(m, d);
    FlipFacts(m, d.he);
  }

  // ---------------------------------------------------------------------
  // The flip keeps a mesh valid
  // ---------------------------------------------------------------------

  /** What the flip leaves where, record by record. */
  predicate FlipShape(m: Mesh, d: Diamond, r: Mesh)
    requires DiamondSlots(|m.halfedges|, d)
  {
    var hs := m.halfedges;
    var f0, f3 := FaceOfHe(m, d.he), FaceOfHe(m, d.hef);
    && |r.halfedges| == |hs| && |r.faces| == |m.faces| && f0 < |m.faces| && f3 < |m.faces| && f0 != f3
    && r.halfedges[d.he] == Linked(d.he, f0, hs[d.o1].vid, d.o0, d.o3, d.hef)
    && r.halfedges[d.o3] == Linked(d.o3, f0, hs[d.o3].vid, d.he, d.o0, Flip(m, d.o3))
    && r.halfedges[d.o0] == Linked(d.o0, f0, hs[d.o0].vid, d.o3, d.he, Flip(m, d.o0))
    && r.halfedges[d.hef] == Linked(d.hef, f3, hs[d.o3].vid, d.o2, d.o1, d.he)
    && r.halfedges[d.o1] == Linked(d.o1, f3, hs[d.o1].vid, d.hef, d.o2, Flip(m, d.o1))
    && r.halfedges[d.o2] == Linked(d.o2, f3, hs[d.o2].vid, d.o1, d.hef, Flip(m, d.o2))
    && r.faces[f0] == Face(f0, At(d.he)) && r.faces[f3] == Face(f3, At(d.hef))
    && (forall j :: 0 <= j < |hs| && j != d.he && j != d.hef && j != d.o0 && j != d.o1 && j != d.o2 && j != d.o3
          ==> r.halfedges[j] == hs[j])
    && (forall g :: 0 <= g < |m.faces| && g != f0 && g != f3 ==> r.faces[g] == m.faces[g])
  }

  lemma FlippedShape(m: Mesh, d: Diamond)
    requires IsDiamond(m, d)
    ensures DiamondSlots(|m.halfedges|, d) && FaceOfHe(m, d.he) < |m.faces| && FaceOfHe(m, d.hef) < |m.faces|
    ensures FlipShape(m, d, Flipped(m, d))
  {
    DiamondFacts(m, d);
  }

  /**
    When the two apexes differ, no outer edge of the diamond is the flip of
    the other outer edge of its own new triangle: o0 and o3 end up together
    in he's face and o1 and o2 in hef's, and a pair of flips there would have
    to run between the two apexes.
   */
  lemma FlipUnfolded(m: Mesh, d: Diamond)
    requires IsDiamond(m, d) && m.halfedges[d.o1].vid != m.halfedges[d.o3].vid
    ensures DiamondSlots(|m.halfedges|, d)
    ensures Flip(m, d.o0) != d.o3 && Flip(m, d.o3) != d.o0 && Flip(m, d.o1) != d.o2 && Flip(m, d.o2) != d.o1
  {
    DiamondFacts(m, d);
    assert Flip(m, d.o3) != d.o0 by {
      if Flip(m, d.o3) == d.o0 {
        FlipFacts(m, d.o3);
      }
    }
    assert Flip(m, d.o1) != d.o2 by {
      if Flip(m, d.o1) == d.o2 {
        FlipFacts(m, d.o1);
      }
    }
    assert EdgeOk(m, d.o0) && EdgeOk(m, d.o2);
  }

  /** The outer edge that shares i's new triangle. */
  function Partner(d: Diamond, i: nat): nat
  {
    if i == d.o0 then d.o3 else if i == d.o3 then d.o0 else if i == d.o1 then d.o2 else d.o1
  }

  /** After the flip, the outer edge i's flip still points back at i, with the vid and face TriangleEdgeOk needs. */
  lemma FlipSideFlip(m: Mesh, d: Diamond, r: Mesh, i: nat)
    requires DiamondSlots(|m.halfedges|, d) && FlipShape(m, d, r)
    requires (i == d.o0 || i == d.o1 || i == d.o2 || i == d.o3) && SideFlipReady(m, d, i)
    requires Flip(m, i) != Partner(d, i)
    ensures var fl := Flip(m, i);
      && 0 <= fl < |r.halfedges| && r.halfedges[fl].flipOffset == i - fl
      && (fl != i ==> r.halfedges[fl].vid == SideNextVid(m, d, i) && r.halfedges[fl].fid != r.halfedges[i].fid)
  {
    var fl := Flip(m, i);
    if fl != d.o0 && fl != d.o1 && fl != d.o2 && fl != d.o3 {
      assert r.halfedges[fl] == m.halfedges[fl];
    }
  }

  /** The outer edges o0 and o3 close he's new triangle and keep their flips. */
  lemma FlipUpperSidesOk(m: Mesh, d: Diamond, r: Mesh, i: nat)
    requires DiamondSlots(|m.halfedges|, d) && FlipShape(m, d, r)
    requires (i == d.o0 || i == d.o3) && SideFlipReady(m, d, i) && Flip(m, i) != Partner(d, i)
    ensures i < |r.halfedges| && EdgeOk(r, i)
  {
    FlipSideFlip(m, d, r, i);
    if i == d.o0 {
      TriangleEdgeOk(r, i, d.he, d.o3, FaceOfHe(m, d.he), Flip(m, i));
    } else {
      TriangleEdgeOk(r, i, d.o0, d.he, FaceOfHe(m, d.he), Flip(m, i));
    }
  }

  /** The outer edges o1 and o2 close hef's new triangle and keep their flips. */
  lemma FlipLowerSidesOk(m: Mesh, d: Diamond, r: Mesh, i: nat)
    requires DiamondSlots(|m.halfedges|, d) && FlipShape(m, d, r)
    requires (i == d.o1 || i == d.o2) && SideFlipReady(m, d, i) && Flip(m, i) != Partner(d, i)
    ensures i < |r.halfedges| && EdgeOk(r, i)
  {
    FlipSideFlip(m, d, r, i);
    if i == d.o1 {
      TriangleEdgeOk(r, i, d.o2, d.hef, FaceOfHe(m, d.hef), Flip(m, i));
    } else {
      TriangleEdgeOk(r, i, d.hef, d.o1, FaceOfHe(m, d.hef), Flip(m, i));
    }
  }

  /** The new diagonal: he runs c -> d, hef runs d -> c, and they stay paired. */
  lemma FlipMiddleEdgesOk(m: Mesh, d: Diamond, r: Mesh, i: nat)
    requires DiamondSlots(|m.halfedges|, d) && FlipShape(m, d, r) && (i == d.he || i == d.hef)
    ensures i < |r.halfedges| && EdgeOk(r, i)
  {
    if i == d.he {
      TriangleEdgeOk(r, i, d.o3, d.o0, FaceOfHe(m, d.he), d.hef);
    } else {
      TriangleEdgeOk(r, i, d.o1, d.o2, FaceOfHe(m, d.hef), d.he);
    }
  }

  /** Every half-edge outside the diamond is untouched and stays well linked. */
  lemma FlipOtherEdgesOk(m: Mesh, d: Diamond, r: Mesh, i: nat)
    requires IsDiamond(m, d) && DiamondSlots(|m.halfedges|, d) && FlipShape(m, d, r) && i < |m.halfedges|
    requires i != d.he && i != d.hef && i != d.o0 && i != d.o1 && i != d.o2 && i != d.o3
    ensures i < |r.halfedges| && EdgeOk(r, i)
  {
    DiamondFacts(m, d);
    var T := {d.he, d.hef, d.o0, d.o1, d.o2, d.o3};
    OutsideFlip(m, d, i);
    UntouchedEdgeOk(m, r, T, i);
  }

  /** Flipping an inner edge of a valid mesh between two different apexes keeps the mesh valid. */
  lemma FlippedValid(m: Mesh, d: Diamond)
    requires IsDiamond(m, d) && m.halfedges[d.o1].vid != m.halfedges[d.o3].vid
    ensures DiamondSlots(|m.halfedges|, d) && FaceOfHe(m, d.he) < |m.faces| && FaceOfHe(m, d.hef) < |m.faces|
    ensures Valid(Flipped(m, d))
  {
    FlippedShape(m, d);
    FlipShapeValid(m, d, Flipped(m, d));
  }

  /** Any mesh of that shape is valid. */
  lemma FlipShapeValid(m: Mesh, d: Diamond, r: Mesh)
    requires IsDiamond(m, d) && DiamondSlots(|m.halfedges|, d) && FlipShape(m, d, r)
    requires m.halfedges[d.o1].vid != m.halfedges[d.o3].vid
    ensures Valid(r)
  {
    FlipShapeIds(m, d, r);
    FlipShapeEdgesOk(m, d, r);
    FlipShapeFacesOk(m, d, r);
  }

  lemma FlipShapeIds(m: Mesh, d: Diamond, r: Mesh)
    requires IsDiamond(m, d) && DiamondSlots(|m.halfedges|, d) && FlipShape(m, d, r)
    ensures IndexMatches(r)
  {
    var f0, f3 := FaceOfHe(m, d.he), FaceOfHe(m, d.hef);
    forall j | 0 <= j < |r.halfedges| ensures r.halfedges[j].index == j {
      if j != d.he && j != d.hef && j != d.o0 && j != d.o1 && j != d.o2 && j != d.o3 {
        assert r.halfedges[j] == m.halfedges[j];
      }
    }
    forall g | 0 <= g < |r.faces| ensures r.faces[g].index == g {
      if g != f0 && g != f3 {
        assert r.faces[g] == m.faces[g];
      }
    }
  }

  lemma FlipShapeEdgesOk(m: Mesh, d: Diamond, r: Mesh)
    requires IsDiamond(m, d) && DiamondSlots(|m.halfedges|, d) && FlipShape(m, d, r)
    requires m.halfedges[d.o1].vid != m.halfedges[d.o3].vid
    ensures forall j :: 0 <= j < |r.halfedges| ==> EdgeOk(r, j)
  {
    FlipUnfolded(m, d);
    forall j | 0 <= j < |r.halfedges| ensures EdgeOk(r, j) {
      if j == d.he || j == d.hef {
        FlipMiddleEdgesOk(m, d, r, j);
      } else if j == d.o0 || j == d.o3 {
        DiamondSideFlip(m, d, j);
        FlipUpperSidesOk(m, d, r, j);
      } else if j == d.o1 || j == d.o2 {
        DiamondSideFlip(m, d, j);
        FlipLowerSidesOk(m, d, r, j);
      } else {
        FlipOtherEdgesOk(m, d, r, j);
      }
    }
  }

  lemma FlipShapeFacesOk(m: Mesh, d: Diamond, r: Mesh)
    requires IsDiamond(m, d) && DiamondSlots(|m.halfedges|, d) && FlipShape(m, d, r)
    ensures forall g :: 0 <= g < |r.faces| ==> FaceOk(r, g)
  {
    var f0, f3 := FaceOfHe(m, d.he), FaceOfHe(m, d.hef);
    DiamondFacts(m, d);
    forall g | 0 <= g < |r.faces| ensures FaceOk(r, g) {
      if g != f0 && g != f3 {
        assert FaceOk(m, g);
        var h := m.faces[g].heid.pos;
        assert m.halfedges[h].fid == At(g);
        assert h != d.he && h != d.hef && h != d.o0 && h != d.o1 && h != d.o2 && h != d.o3;
      }
    }
  }

  /** The flip creates no boundary and moves no endpoint of a boundary edge. */
  lemma FlipKeepsBoundary(m: Mesh, d: Diamond, r: Mesh)
    requires IsDiamond(m, d) && DiamondSlots(|m.halfedges|, d) && FlipShape(m, d, r)
    ensures KeepsBoundary(m, r)
  {
    forall i | 0 <= i < |r.halfedges| && IsBoundary(r.halfedges[i]) ensures BoundaryKept(m, r, i) {
      if i != d.he && i != d.hef && i != d.o0 && i != d.o1 && i != d.o2 && i != d.o3 {
        FlipOutsideBoundary(m, d, r, i);
      } else {
        FlipSideBoundary(m, d, r, i);
      }
    }
  }

  /** A boundary edge of the diamond is an outer edge, and keeps both its endpoints. */
  lemma FlipSideBoundary(m: Mesh, d: Diamond, r: Mesh, i: nat)
    requires IsDiamond(m, d) && DiamondSlots(|m.halfedges|, d) && FlipShape(m, d, r)
    requires i == d.he || i == d.hef || i == d.o0 || i == d.o1 || i == d.o2 || i == d.o3
    requires IsBoundary(r.halfedges[i])
    ensures BoundaryKept(m, r, i)
  {
    DiamondFacts(m, d);
  }

  /** An edge outside the diamond keeps its record, and so does its successor. */
  lemma FlipOutsideBoundary(m: Mesh, d: Diamond, r: Mesh, i: nat)
    requires IsDiamond(m, d) && DiamondSlots(|m.halfedges|, d) && FlipShape(m, d, r)
    requires i < |m.halfedges| && i != d.he && i != d.hef && i != d.o0 && i != d.o1 && i != d.o2 && i != d.o3
    requires IsBoundary(r.halfedges[i])
    ensures BoundaryKept(m, r, i)
  {
    DiamondFacts(m, d);
    assert EdgeOk(m, i);
    OutsideFlip(m, d, i);
    var n := Next(m, i);
    assert n != d.he && n != d.hef && n != d.o0 && n != d.o1 && n != d.o2 && n != d.o3;
    assert r.halfedges[i] == m.halfedges[i] && r.halfedges[n] == m.halfedges[n];
  }
}
