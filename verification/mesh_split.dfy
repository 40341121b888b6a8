/**
  The two in-place vertex insertions of the half-edge mesh. Each is modelled
  twice: `InsertNewVertexInFace` / `InsertNewVertexOnEdge` follow the original
  statement by statement (resize, vid writes, constructFace, setFlip), and
  `InFaceSplit` / `OnEdgeSplit` describe the resulting arrays directly, record
  by record. The as-written operations are proved equal to the direct
  descriptions, and the direct descriptions are proved to keep the mesh valid.
 */
module MeshSplit {
  import opened HalfEdge

  /** The edited mesh with the first new half-edge slot and the first new face slot. */
  datatype Split = Split(mesh: Mesh, firstEdge: nat, firstFace: nat)

  /** A half-edge record linked to the named prev, next and flip positions. */
  function Linked(i: nat, f: nat, v: VertexId, prev: nat, next: nat, flip: int): HalfEdge
  {
    HalfEdge(i, At(f), v, prev - i, next - i, flip - i)
  }

  // ---------------------------------------------------------------------
  // Splitting a face: one triangle becomes three
  // ---------------------------------------------------------------------

  /** Three distinct existing half-edges of a mesh whose ids match positions. */
  predicate Distinct3(m: Mesh, h0: nat, h1: nat, h2: nat)
  {
    && IndexMatches(m)
    && h0 < |m.halfedges| && h1 < |m.halfedges| && h2 < |m.halfedges|
    && h0 != h1 && h1 != h2 && h0 != h2
  }

  /** The cycle (h0, h1, h2) of face f, starting at the face's representative. */
  predicate FaceCycle(m: Mesh, f: nat, h0: nat, h1: nat, h2: nat)
  {
    && Valid(m) && f < |m.faces|
    && Distinct3(m, h0, h1, h2)
    && m.faces[f].heid == At(h0) && Next(m, h0) == h1 && Next(m, h1) == h2
  }

  /** The cycle of a face of a valid mesh exists and is unique. */
  lemma FaceCycleOf(m: Mesh, f: nat)
    requires Valid(m) && f < |m.faces|
    ensures FaceOk(m, f)
    ensures var h0 := m.faces[f].heid.pos;
      && InRange(m, h0) && InRange(m, Next(m, h0)) && InRange(m, Next(m, Next(m, h0)))
      && FaceCycle(m, f, h0, Next(m, h0), Next(m, Next(m, h0)))
  {
    assert FaceOk(m, f);
    CycleFacts(m, HeFromFace(m, f));
  }

  /**
    The three-way split described directly. With (h0, h1, h2) the cycle of
    face fId and e the first new slot, the cycles become (h0, e+1, e+0) in
    fId, (h1, e+3, e+2) in the first new face and (h2, e+5, e+4) in the
    second; the new interior edges pair up as flips 1-2, 3-4 and 5-0.
   */
  function InFaceSplit(m: Mesh, vId: VertexId, fId: nat, h0: nat, h1: nat, h2: nat): Mesh
    requires Distinct3(m, h0, h1, h2) && fId < |m.faces|
  {
    var e, nf := |m.halfedges|, |m.faces|;
    var a, b, c := m.halfedges[h0].vid, m.halfedges[h1].vid, m.halfedges[h2].vid;
    var hes := m.halfedges[h0 := Linked(h0, fId, a, e + 0, e + 1, Flip(m, h0))]
                          [h1 := Linked(h1, nf, b, e + 2, e + 3, Flip(m, h1))]
                          [h2 := Linked(h2, nf + 1, c, e + 4, e + 5, Flip(m, h2))];
    Mesh(hes + InFaceAdded(m, vId, fId, h0, h1, h2), m.faces[fId := m.faces[fId].(heid := At(h0))] + [Face(nf, At(h1)), Face(nf + 1, At(h2))])
  }

  /** The six new records of the three-way split, at positions e+0 .. e+5. */
  function InFaceAdded(m: Mesh, vId: VertexId, fId: nat, h0: nat, h1: nat, h2: nat): seq<HalfEdge>
    requires Distinct3(m, h0, h1, h2)
  {
    var e, nf := |m.halfedges|, |m.faces|;
    var a, b, c := m.halfedges[h0].vid, m.halfedges[h1].vid, m.halfedges[h2].vid;
    [ Linked(e + 0, fId, vId, e + 1, h0, e + 5),
      Linked(e + 1, fId, b, h0, e + 0, e + 2),
      Linked(e + 2, nf, vId, e + 3, h1, e + 1),
      Linked(e + 3, nf, c, h1, e + 2, e + 4),
      Linked(e + 4, nf + 1, vId, e + 5, h2, e + 3),
      Linked(e + 5, nf + 1, a, h2, e + 4, e + 0) ]
  }

  /**
    `HDS_Mesh::insertNewVertexInFace` as written: grow both arrays, write the
    new vids, construct the three faces, then pair the interior flips. The
    cycle (h0, h1, h2) is read before the arrays grow; growing does not move
    the old records.
   */
  method InsertNewVertexInFace(m: Mesh, vId: VertexId, fId: nat) returns (s: Split)
    requires Valid(m) && fId < |m.faces|
    ensures s.firstEdge == |m.halfedges| && s.firstFace == |m.faces|
    ensures |s.mesh.halfedges| == |m.halfedges| + 6 && |s.mesh.faces| == |m.faces| + 2
    ensures forall h0: nat, h1: nat, h2: nat :: FaceCycle(m, fId, h0, h1, h2) ==>
      s.mesh == InFaceSplit(m, vId, fId, h0, h1, h2)
  {
    FaceCycleOf(m, fId);
    var h0 := HeFromFace(m, fId);
    var h1 := Next(m, h0);
    var h2 := Next(m, h1);
    var g := InFaceStatements(m, vId, fId, h0, h1, h2);
    s := Split(g, |m.halfedges|, |m.faces|);
  }

  /** The statements of `insertNewVertexInFace` for the face cycle (h0, h1, h2). */
  method InFaceStatements(m: Mesh, vId: VertexId, fId: nat, h0: nat, h1: nat, h2: nat) returns (g: Mesh)
    requires Distinct3(m, h0, h1, h2) && fId < |m.faces|
    ensures g == InFaceSplit(m, vId, fId, h0, h1, h2)
  {
    InFaceOldPart(m, fId, h0, h1, h2);
    assert m.halfedges[h0].index == h0 && m.halfedges[h1].index == h1 && m.halfedges[h2].index == h2;
    assert m.faces[fId].index == fId;
    g := InFaceRecords(m, vId, fId, h0, h1, h2);
  }

  /** The same statements, needing only the ids of the records they name. */
  method InFaceRecords(m: Mesh, vId: VertexId, fId: nat, h0: nat, h1: nat, h2: nat) returns (g: Mesh)
    requires h0 < |m.halfedges| && h1 < |m.halfedges| && h2 < |m.halfedges| && fId < |m.faces|
    requires h0 != h1 && h1 != h2 && h0 != h2
    requires m.halfedges[h0].index == h0 && m.halfedges[h1].index == h1 && m.halfedges[h2].index == h2
    requires m.faces[fId].index == fId
    ensures var e, nf := |m.halfedges|, |m.faces|;
      var a, b, c := m.halfedges[h0].vid, m.halfedges[h1].vid, m.halfedges[h2].vid;
      g == Mesh(m.halfedges[h0 := Relink(m.halfedges[h0], fId, e + 0, e + 1)]
                           [h1 := Relink(m.halfedges[h1], nf, e + 2, e + 3)]
                           [h2 := Relink(m.halfedges[h2], nf + 1, e + 4, e + 5)]
                + [ Linked(e + 0, fId, vId, e + 1, h0, e + 5),
                    Linked(e + 1, fId, b, h0, e + 0, e + 2),
                    Linked(e + 2, nf, vId, e + 3, h1, e + 1),
                    Linked(e + 3, nf, c, h1, e + 2, e + 4),
                    Linked(e + 4, nf + 1, vId, e + 5, h2, e + 3),
                    Linked(e + 5, nf + 1, a, h2, e + 4, e + 0) ],
                m.faces[fId := m.faces[fId].(heid := At(h0))] + [Face(nf, At(h1)), Face(nf + 1, At(h2))])
  {
    var e, nf := |m.halfedges|, |m.faces|;
    var p, q := m.halfedges, m.faces;
    var a, b, c := p[h0].vid, p[h1].vid, p[h2].vid;
    g := InFaceGrowAndWrite(m, vId, a, b, c);
    var l1 := [Bare(e, vId), Bare(e + 1, b), Bare(e + 2, vId), Bare(e + 3, c), Bare(e + 4, vId), Bare(e + 5, a)];
    var fs := q + [FreshFace(nf), FreshFace(nf + 1)];
    g := InFaceConstructFaces(g, p, l1, fs, fId, h0, h1, h2);
    var p2 := p[h0 := Relink(p[h0], fId, e + 0, e + 1)][h1 := Relink(p[h1], nf, e + 2, e + 3)][h2 := Relink(p[h2], nf + 1, e + 4, e + 5)];
    var l2 := [Relink(l1[0], fId, e + 1, h0), Relink(l1[1], fId, h0, e + 0),
               Relink(l1[2], nf, e + 3, h1), Relink(l1[3], nf, h1, e + 2),
               Relink(l1[4], nf + 1, e + 5, h2), Relink(l1[5], nf + 1, h2, e + 4)];
    var fs2 := fs[fId := fs[fId].(heid := At(h0))][nf := fs[nf].(heid := At(h1))][nf + 1 := fs[nf + 1].(heid := At(h2))];
    g := InFacePairFlips(g, p2, l2, fs2);
    InFaceNewRecords(e, nf, fId, vId, a, b, c, h0, h1, h2);
    InFaceNewFaces(q, fId, h0, h1, h2);
  }

  /** `resize` of both arrays, then the vid writes of the new half-edges. */
  method InFaceGrowAndWrite(m: Mesh, vId: VertexId, a: VertexId, b: VertexId, c: VertexId) returns (g: Mesh)
    ensures var e, nf := |m.halfedges|, |m.faces|;
      g == Mesh(m.halfedges + [Bare(e, vId), Bare(e + 1, b), Bare(e + 2, vId), Bare(e + 3, c), Bare(e + 4, vId), Bare(e + 5, a)],
                m.faces + [FreshFace(nf), FreshFace(nf + 1)])
  {
    var e, nf := |m.halfedges|, |m.faces|;
    g := Grow(m, 6, 2);
    FreshSix(e, nf);
    g := InFaceWriteVids(g, m.halfedges, FreshEdges(e, 6), m.faces + FreshFaces(nf, 2), vId, a, b, c);
    InFaceNewRecords(e, nf, 0, vId, a, b, c, 0, 0, 0);
  }

  /** The records appended by `resize(n + 6)` and `resize(n + 2)`. */
  lemma FreshSix(e: nat, nf: nat)
    ensures FreshEdges(e, 6) == [FreshHalfEdge(e), FreshHalfEdge(e + 1), FreshHalfEdge(e + 2),
                                 FreshHalfEdge(e + 3), FreshHalfEdge(e + 4), FreshHalfEdge(e + 5)]
    ensures FreshFaces(nf, 2) == [FreshFace(nf), FreshFace(nf + 1)]
  {
  }

  /** The six new records, written, relinked and paired, are the records of the direct description. */
  lemma InFaceNewRecords(e: nat, nf: nat, fId: nat, vId: VertexId, a: VertexId, b: VertexId, c: VertexId,
                         h0: nat, h1: nat, h2: nat)
    ensures var l1 := [Bare(e, vId), Bare(e + 1, b), Bare(e + 2, vId), Bare(e + 3, c), Bare(e + 4, vId), Bare(e + 5, a)];
      var l2 := [Relink(l1[0], fId, e + 1, h0), Relink(l1[1], fId, h0, e + 0),
                 Relink(l1[2], nf, e + 3, h1), Relink(l1[3], nf, h1, e + 2),
                 Relink(l1[4], nf + 1, e + 5, h2), Relink(l1[5], nf + 1, h2, e + 4)];
      && [FreshHalfEdge(e).(vid := vId), FreshHalfEdge(e + 1).(vid := b), FreshHalfEdge(e + 2).(vid := vId),
          FreshHalfEdge(e + 3).(vid := c), FreshHalfEdge(e + 4).(vid := vId), FreshHalfEdge(e + 5).(vid := a)] == l1
      && [l2[0].(flipOffset := 5), l2[1].(flipOffset := 1), l2[2].(flipOffset := -1),
          l2[3].(flipOffset := 1), l2[4].(flipOffset := -1), l2[5].(flipOffset := -5)]
         == [ Linked(e + 0, fId, vId, e + 1, h0, e + 5),
              Linked(e + 1, fId, b, h0, e + 0, e + 2),
              Linked(e + 2, nf, vId, e + 3, h1, e + 1),
              Linked(e + 3, nf, c, h1, e + 2, e + 4),
              Linked(e + 4, nf + 1, vId, e + 5, h2, e + 3),
              Linked(e + 5, nf + 1, a, h2, e + 4, e + 0) ]
  {
  }

  /** The face array after the resize and the three `constructFace` calls. */
  lemma InFaceNewFaces(q: seq<Face>, fId: nat, h0: nat, h1: nat, h2: nat)
    requires fId < |q|
    ensures var nf := |q|;
      var fs := q + [FreshFace(nf), FreshFace(nf + 1)];
      fs[fId := fs[fId].(heid := At(h0))][nf := fs[nf].(heid := At(h1))][nf + 1 := fs[nf + 1].(heid := At(h2))]
      == q[fId := q[fId].(heid := At(h0))] + [Face(nf, At(h1)), Face(nf + 1, At(h2))]
  {
    var nf := |q|;
    var fs := q + [FreshFace(nf), FreshFace(nf + 1)];
    UpdatePrefix(q, [FreshFace(nf), FreshFace(nf + 1)], fId, q[fId].(heid := At(h0)));
    var q1 := q[fId := q[fId].(heid := At(h0))];
    UpdateSuffix(q1, [FreshFace(nf), FreshFace(nf + 1)], 0, Face(nf, At(h1)));
    UpdateSuffix(q1, [Face(nf, At(h1)), FreshFace(nf + 1)], 1, Face(nf + 1, At(h2)));
  }

  /** `new[1].vid`, `new[3].vid`, `new[5].vid`, then the chained `new[0] = new[2] = new[4] = vId`, right to left. */
  method InFaceWriteVids(g: Mesh, p: seq<HalfEdge>, l: seq<HalfEdge>, fs: seq<Face>,
                         vId: VertexId, a: VertexId, b: VertexId, c: VertexId) returns (r: Mesh)
    requires |l| == 6 && g == Mesh(p + l, fs)
    ensures r == Mesh(p + [l[0].(vid := vId), l[1].(vid := b), l[2].(vid := vId),
                           l[3].(vid := c), l[4].(vid := vId), l[5].(vid := a)], fs)
  {
    var e := |p|;
    var k := l;
    r := g;
    r := WriteNew(r, p, k, fs, 1, b);
    k := k[1 := k[1].(vid := b)];
    r := WriteNew(r, p, k, fs, 3, c);
    k := k[3 := k[3].(vid := c)];
    r := WriteNew(r, p, k, fs, 5, a);
    k := k[5 := k[5].(vid := a)];
    r := WriteNew(r, p, k, fs, 4, vId);
    k := k[4 := k[4].(vid := vId)];
    r := WriteNew(r, p, k, fs, 2, vId);
    k := k[2 := k[2].(vid := vId)];
    r := WriteNew(r, p, k, fs, 0, vId);
    k := k[0 := k[0].(vid := vId)];
    assert k == [l[0].(vid := vId), l[1].(vid := b), l[2].(vid := vId),
                 l[3].(vid := c), l[4].(vid := vId), l[5].(vid := a)];
  }

  /** `constructFace(h0, e+1, e+0, fId)`, `(h1, e+3, e+2, nf)`, `(h2, e+5, e+4, nf+1)`. */
  method InFaceConstructFaces(g: Mesh, p: seq<HalfEdge>, l: seq<HalfEdge>, fs: seq<Face>,
                              fId: nat, h0: nat, h1: nat, h2: nat) returns (r: Mesh)
    requires |l| == 6 && |fs| >= 2 && g == Mesh(p + l, fs)
    requires h0 < |p| && h1 < |p| && h2 < |p| && h0 != h1 && h1 != h2 && h0 != h2 && fId < |fs| - 2
    requires p[h0].index == h0 && p[h1].index == h1 && p[h2].index == h2
    requires l[0].index == |p| && l[1].index == |p| + 1 && l[2].index == |p| + 2
    requires l[3].index == |p| + 3 && l[4].index == |p| + 4 && l[5].index == |p| + 5
    requires fs[fId].index == fId && fs[|fs| - 2].index == |fs| - 2 && fs[|fs| - 1].index == |fs| - 1
    ensures var e, nf := |p|, |fs| - 2;
      r == Mesh(p[h0 := Relink(p[h0], fId, e + 0, e + 1)][h1 := Relink(p[h1], nf, e + 2, e + 3)]
                 [h2 := Relink(p[h2], nf + 1, e + 4, e + 5)]
                + [Relink(l[0], fId, e + 1, h0), Relink(l[1], fId, h0, e + 0),
                   Relink(l[2], nf, e + 3, h1), Relink(l[3], nf, h1, e + 2),
                   Relink(l[4], nf + 1, e + 5, h2), Relink(l[5], nf + 1, h2, e + 4)],
                fs[fId := fs[fId].(heid := At(h0))][nf := fs[nf].(heid := At(h1))][nf + 1 := fs[nf + 1].(heid := At(h2))])
  {
    var e, nf := |p|, |fs| - 2;
    var p1, l1, f1 := p[h0 := Relink(p[h0], fId, e + 0, e + 1)],
                      l[1 := Relink(l[1], fId, h0, e + 0)][0 := Relink(l[0], fId, e + 1, h0)],
                      fs[fId := fs[fId].(heid := At(h0))];
    r := ConstructAround(g, p, l, fs, h0, 1, 0, fId);
    var p2, l2, f2 := p1[h1 := Relink(p[h1], nf, e + 2, e + 3)],
                      l1[3 := Relink(l[3], nf, h1, e + 2)][2 := Relink(l[2], nf, e + 3, h1)],
                      f1[nf := fs[nf].(heid := At(h1))];
    r := ConstructAround(r, p1, l1, f1, h1, 3, 2, nf);
    r := ConstructAround(r, p2, l2, f2, h2, 5, 4, nf + 1);
    assert l2[5 := Relink(l[5], nf + 1, h2, e + 4)][4 := Relink(l[4], nf + 1, e + 5, h2)]
        == [Relink(l[0], fId, e + 1, h0), Relink(l[1], fId, h0, e + 0),
            Relink(l[2], nf, e + 3, h1), Relink(l[3], nf, h1, e + 2),
            Relink(l[4], nf + 1, e + 5, h2), Relink(l[5], nf + 1, h2, e + 4)];
  }

  /** `constructFace(h, e+j, k, f)` on two old records h, k and one new record between them. */
  method ConstructMiddleNew(g: Mesh, p: seq<HalfEdge>, l: seq<HalfEdge>, fs: seq<Face>,
                            h: nat, j: nat, k: nat, f: nat) returns (r: Mesh)
    requires g == Mesh(p + l, fs)
    requires h < |p| && k < |p| && h != k && j < |l| && f < |fs|
    requires p[h].index == h && p[k].index == k && l[j].index == |p| + j && fs[f].index == f
    ensures r == Mesh(p[h := Relink(p[h], f, k, |p| + j)][k := Relink(p[k], f, |p| + j, h)]
                      + l[j := Relink(l[j], f, h, k)],
                      fs[f := fs[f].(heid := At(h))])
  {
    ConstructOldNewOld(p, l, fs, h, j, k, f);
    r := ConstructFace(g, h, |p| + j, k, f);
  }

  /** `constructFace(h, k, e+j, f)` on two old records h, k followed by one new record. */
  method ConstructLastNew(g: Mesh, p: seq<HalfEdge>, l: seq<HalfEdge>, fs: seq<Face>,
                          h: nat, k: nat, j: nat, f: nat) returns (r: Mesh)
    requires g == Mesh(p + l, fs)
    requires h < |p| && k < |p| && h != k && j < |l| && f < |fs|
    requires p[h].index == h && p[k].index == k && l[j].index == |p| + j && fs[f].index == f
    ensures r == Mesh(p[h := Relink(p[h], f, |p| + j, k)][k := Relink(p[k], f, h, |p| + j)]
                      + l[j := Relink(l[j], f, k, h)],
                      fs[f := fs[f].(heid := At(h))])
  {
    ConstructOldOldNew(p, l, fs, h, k, j, f);
    r := ConstructFace(g, h, k, |p| + j, f);
  }

  /** `constructFace(h, e+i, e+j, f)` on an old record h and two new records. */
  method ConstructAround(g: Mesh, p: seq<HalfEdge>, l: seq<HalfEdge>, fs: seq<Face>,
                         h: nat, i: nat, j: nat, f: nat) returns (r: Mesh)
    requires g == Mesh(p + l, fs)
    requires h < |p| && i < |l| && j < |l| && i != j && f < |fs|
    requires p[h].index == h && l[i].index == |p| + i && l[j].index == |p| + j && fs[f].index == f
    ensures r == Mesh(p[h := Relink(p[h], f, |p| + j, |p| + i)]
                      + l[i := Relink(l[i], f, h, |p| + j)][j := Relink(l[j], f, |p| + i, h)],
                      fs[f := fs[f].(heid := At(h))])
  {
    ConstructOldAndNew(p, l, fs, h, i, j, f);
    r := ConstructFace(g, h, |p| + i, |p| + j, f);
  }

  /** `setVid` on a new record. */
  method WriteNew(g: Mesh, p: seq<HalfEdge>, l: seq<HalfEdge>, fs: seq<Face>, i: nat, v: VertexId) returns (r: Mesh)
    requires i < |l| && g == Mesh(p + l, fs)
    ensures r == Mesh(p + l[i := l[i].(vid := v)], fs)
  {
    SetVidInSuffix(p, l, fs, i, v);
    r := SetVid(g, |p| + i, v);
  }

  /** `setVid` on an old record. */
  method WriteOld(g: Mesh, p: seq<HalfEdge>, l: seq<HalfEdge>, fs: seq<Face>, i: nat, v: VertexId) returns (r: Mesh)
    requires i < |p| && g == Mesh(p + l, fs)
    ensures r == Mesh(p[i := p[i].(vid := v)] + l, fs)
  {
    SetVidInPrefix(p, l, fs, i, v);
    r := SetVid(g, i, v);
  }

  /** `setFlip(new[1], new[2])`, `(new[3], new[4])`, `(new[5], new[0])`. */
  method InFacePairFlips(g: Mesh, p: seq<HalfEdge>, l: seq<HalfEdge>, fs: seq<Face>) returns (r: Mesh)
    requires |l| == 6 && g == Mesh(p + l, fs)
    ensures r == Mesh(p + [l[0].(flipOffset := 5), l[1].(flipOffset := 1), l[2].(flipOffset := -1),
                           l[3].(flipOffset := 1), l[4].(flipOffset := -1), l[5].(flipOffset := -5)], fs)
  {
    var l1 := l[1 := l[1].(flipOffset := 1)][2 := l[2].(flipOffset := -1)];
    var l2 := l1[3 := l1[3].(flipOffset := 1)][4 := l1[4].(flipOffset := -1)];
    r := PairNew(g, p, l, fs, 1, 2);
    r := PairNew(r, p, l1, fs, 3, 4);
    r := PairNew(r, p, l2, fs, 5, 0);
    assert l2[5 := l2[5].(flipOffset := -5)][0 := l2[0].(flipOffset := 5)]
        == [l[0].(flipOffset := 5), l[1].(flipOffset := 1), l[2].(flipOffset := -1),
            l[3].(flipOffset := 1), l[4].(flipOffset := -1), l[5].(flipOffset := -5)];
  }

  /** `setFlip` of two new records: their flip offsets point at each other. */
  method PairNew(g: Mesh, p: seq<HalfEdge>, l: seq<HalfEdge>, fs: seq<Face>, i: nat, j: nat) returns (r: Mesh)
    requires i < |l| && j < |l| && i != j && g == Mesh(p + l, fs)
    ensures r == Mesh(p + l[i := l[i].(flipOffset := j - i)][j := l[j].(flipOffset := i - j)], fs)
  {
    SetFlipInSuffix(p, l, fs, i, j);
    r := SetFlip(g, |p| + i, |p| + j);
  }

  /** The relinked old records of the face cycle are the records the direct description names. */
  lemma InFaceOldPart(m: Mesh, fId: nat, h0: nat, h1: nat, h2: nat)
    requires Distinct3(m, h0, h1, h2) && fId < |m.faces|
    ensures var e, nf := |m.halfedges|, |m.faces|;
      m.halfedges[h0 := Relink(m.halfedges[h0], fId, e + 0, e + 1)]
                 [h1 := Relink(m.halfedges[h1], nf, e + 2, e + 3)]
                 [h2 := Relink(m.halfedges[h2], nf + 1, e + 4, e + 5)]
      == m.halfedges[h0 := Linked(h0, fId, m.halfedges[h0].vid, e + 0, e + 1, Flip(m, h0))]
                    [h1 := Linked(h1, nf, m.halfedges[h1].vid, e + 2, e + 3, Flip(m, h1))]
                    [h2 := Linked(h2, nf + 1, m.halfedges[h2].vid, e + 4, e + 5, Flip(m, h2))]
  {
    assert m.halfedges[h0].index == h0 && m.halfedges[h1].index == h1 && m.halfedges[h2].index == h2;
  }

  // ---------------------------------------------------------------------
  // The three-way split keeps the mesh valid
  // ---------------------------------------------------------------------

  /**
    Half-edge i closes the triangle (i, n, nn) of face f, and its flip
    partner fl (i itself for a boundary edge) points back at it from another
    face, starting where i ends.
   */
  lemma TriangleEdgeOk(r: Mesh, i: nat, n: nat, nn: nat, f: nat, fl: nat)
    requires i < |r.halfedges| && n < |r.halfedges| && nn < |r.halfedges| && fl < |r.halfedges|
    requires i != n && f < |r.faces|
    requires r.halfedges[i] == Linked(i, f, r.halfedges[i].vid, nn, n, fl)
    requires r.halfedges[n].nextOffset == nn - n && r.halfedges[n].fid == At(f)
    requires r.halfedges[nn].nextOffset == i - nn
    requires var h := r.faces[f].heid; h == At(i) || h == At(n) || h == At(nn)
    requires r.halfedges[fl].flipOffset == i - fl
    requires fl != i ==> r.halfedges[fl].fid != At(f) && r.halfedges[fl].vid == r.halfedges[n].vid
    ensures EdgeOk(r, i)
  {
    EdgeOkIntro(r, i, n, nn);
  }

  /** What the three-way split leaves where, record by record. */
  predicate InFaceShape(m: Mesh, vId: VertexId, fId: nat, h0: nat, h1: nat, h2: nat, r: Mesh)
    requires Distinct3(m, h0, h1, h2)
  {
    var e, nf := |m.halfedges|, |m.faces|;
    var a, b, c := m.halfedges[h0].vid, m.halfedges[h1].vid, m.halfedges[h2].vid;
    && |r.halfedges| == e + 6 && |r.faces| == nf + 2 && fId < nf
    && (forall j :: 0 <= j < e && j != h0 && j != h1 && j != h2 ==> r.halfedges[j] == m.halfedges[j])
    && r.halfedges[h0] == Linked(h0, fId, a, e + 0, e + 1, Flip(m, h0))
    && r.halfedges[h1] == Linked(h1, nf, b, e + 2, e + 3, Flip(m, h1))
    && r.halfedges[h2] == Linked(h2, nf + 1, c, e + 4, e + 5, Flip(m, h2))
    && r.halfedges[e + 0] == Linked(e + 0, fId, vId, e + 1, h0, e + 5)
    && r.halfedges[e + 1] == Linked(e + 1, fId, b, h0, e + 0, e + 2)
    && r.halfedges[e + 2] == Linked(e + 2, nf, vId, e + 3, h1, e + 1)
    && r.halfedges[e + 3] == Linked(e + 3, nf, c, h1, e + 2, e + 4)
    && r.halfedges[e + 4] == Linked(e + 4, nf + 1, vId, e + 5, h2, e + 3)
    && r.halfedges[e + 5] == Linked(e + 5, nf + 1, a, h2, e + 4, e + 0)
    && (forall g :: 0 <= g < nf && g != fId ==> r.faces[g] == m.faces[g])
    && r.faces[fId] == Face(fId, At(h0)) && r.faces[nf] == Face(nf, At(h1)) && r.faces[nf + 1] == Face(nf + 1, At(h2))
  }

  /** The direct description has that shape. */
  lemma InFaceSplitRecords(m: Mesh, vId: VertexId, fId: nat, h0: nat, h1: nat, h2: nat)
    requires FaceCycle(m, fId, h0, h1, h2)
    ensures InFaceShape(m, vId, fId, h0, h1, h2, InFaceSplit(m, vId, fId, h0, h1, h2))
  {
    assert m.faces[fId].index == fId;
  }

  /** The six new half-edges are well linked, two to each of the three faces. */
  lemma InFaceNewEdgesOk(m: Mesh, vId: VertexId, fId: nat, h0: nat, h1: nat, h2: nat, r: Mesh, k: nat)
    requires Distinct3(m, h0, h1, h2) && InFaceShape(m, vId, fId, h0, h1, h2, r) && k < 6
    ensures |m.halfedges| + k < |r.halfedges| && EdgeOk(r, |m.halfedges| + k)
  {
    if k < 2 {
      InFaceNewInOldFaceOk(m, vId, fId, h0, h1, h2, r);
    } else if k < 4 {
      InFaceNewInFirstFaceOk(m, vId, fId, h0, h1, h2, r);
    } else {
      InFaceNewInSecondFaceOk(m, vId, fId, h0, h1, h2, r);
    }
  }

  /** The new half-edges e+0 and e+1 close the triangle kept in face fId. */
  lemma InFaceNewInOldFaceOk(m: Mesh, vId: VertexId, fId: nat, h0: nat, h1: nat, h2: nat, r: Mesh)
    requires Distinct3(m, h0, h1, h2)
    requires InFaceShape(m, vId, fId, h0, h1, h2, r)
    ensures |m.halfedges| + 1 < |r.halfedges| && TwoEdgesOk(r, |m.halfedges|)
  {
    var e := |m.halfedges|;
    TriangleEdgeOk(r, e + 0, h0, e + 1, fId, e + 5);
    TriangleEdgeOk(r, e + 1, e + 0, h0, fId, e + 2);
  }

  /** The new half-edges e+2 and e+3 close the triangle of the first new face. */
  lemma InFaceNewInFirstFaceOk(m: Mesh, vId: VertexId, fId: nat, h0: nat, h1: nat, h2: nat, r: Mesh)
    requires Distinct3(m, h0, h1, h2)
    requires InFaceShape(m, vId, fId, h0, h1, h2, r)
    ensures |m.halfedges| + 3 < |r.halfedges| && TwoEdgesOk(r, |m.halfedges| + 2)
  {
    var e, nf := |m.halfedges|, |m.faces|;
    TriangleEdgeOk(r, e + 2, h1, e + 3, nf, e + 1);
    TriangleEdgeOk(r, e + 3, e + 2, h1, nf, e + 4);
  }

  /** The new half-edges e+4 and e+5 close the triangle of the second new face. */
  lemma InFaceNewInSecondFaceOk(m: Mesh, vId: VertexId, fId: nat, h0: nat, h1: nat, h2: nat, r: Mesh)
    requires Distinct3(m, h0, h1, h2)
    requires InFaceShape(m, vId, fId, h0, h1, h2, r)
    ensures |m.halfedges| + 5 < |r.halfedges| && TwoEdgesOk(r, |m.halfedges| + 4)
  {
    var e, nf := |m.halfedges|, |m.faces|;
    TriangleEdgeOk(r, e + 4, h2, e + 5, nf + 1, e + 3);
    TriangleEdgeOk(r, e + 5, e + 4, h2, nf + 1, e + 0);
  }

  /** The old cycle edges are well linked: each now closes a triangle with two new edges and keeps its flip. */
  lemma InFaceCycleEdgesOk(m: Mesh, vId: VertexId, fId: nat, h0: nat, h1: nat, h2: nat, r: Mesh, i: nat)
    requires FaceCycle(m, fId, h0, h1, h2) && InFaceShape(m, vId, fId, h0, h1, h2, r)
    requires i == h0 || i == h1 || i == h2
    ensures i < |r.halfedges| && EdgeOk(r, i)
  {
    var e, nf := |m.halfedges|, |m.faces|;
    CycleFlip(m, fId, h0, h1, h2, i);
    var fl := Flip(m, i);
    if fl != i {
      assert r.halfedges[fl] == m.halfedges[fl];
    }
    if i == h0 {
      TriangleEdgeOk(r, i, e + 1, e + 0, fId, fl);
    } else if i == h1 {
      TriangleEdgeOk(r, i, e + 3, e + 2, nf, fl);
    } else {
      TriangleEdgeOk(r, i, e + 5, e + 4, nf + 1, fl);
    }
  }

  /**
    The flip partner of an edge on the cycle of face f: itself (a boundary
    edge), or an edge outside the cycle, in another face, starting where the
    cycle edge ends.
   */
  lemma CycleFlip(m: Mesh, f: nat, h0: nat, h1: nat, h2: nat, i: nat)
    requires FaceCycle(m, f, h0, h1, h2) && (i == h0 || i == h1 || i == h2)
    ensures Next(m, h2) == h0
    ensures m.halfedges[h0].fid == At(f) && m.halfedges[h1].fid == At(f) && m.halfedges[h2].fid == At(f)
    ensures var fl := Flip(m, i);
      && InRange(m, fl) && Flip(m, fl) == i && (fl == i <==> IsBoundary(m.halfedges[i]))
      && (fl != i ==>
            && fl != h0 && fl != h1 && fl != h2
            && m.halfedges[fl].fid.At? && m.halfedges[fl].fid.pos < |m.faces| && m.halfedges[fl].fid != At(f)
            && m.halfedges[fl].vid == m.halfedges[Next(m, i)].vid)
  {
    assert FaceOk(m, f);
    assert EdgeOk(m, h0) && EdgeOk(m, h1) && EdgeOk(m, i);
    var fl := Flip(m, i);
    if fl != i {
      FlipFacts(m, i);
      assert EdgeOk(m, fl);
    }
  }

  /** Every other old half-edge is untouched and stays well linked. */
  lemma InFaceOtherEdgesOk(m: Mesh, vId: VertexId, fId: nat, h0: nat, h1: nat, h2: nat, r: Mesh, i: nat)
    requires FaceCycle(m, fId, h0, h1, h2) && InFaceShape(m, vId, fId, h0, h1, h2, r)
    requires i < |m.halfedges| && i != h0 && i != h1 && i != h2
    ensures i < |r.halfedges| && EdgeOk(r, i)
  {
    CycleFacts(m, h0);
    assert FaceOk(m, fId);
    assert EdgeOk(m, i);
    var T := {h0, h1, h2};
    assert m.halfedges[i].fid != At(fId);
    UntouchedEdgeOk(m, r, T, i);
  }

  /** Splitting a face of a valid mesh keeps the mesh valid. */
  lemma InFaceSplitValid(m: Mesh, vId: VertexId, fId: nat, h0: nat, h1: nat, h2: nat)
    requires FaceCycle(m, fId, h0, h1, h2)
    ensures Valid(InFaceSplit(m, vId, fId, h0, h1, h2))
  {
    var r := InFaceSplit(m, vId, fId, h0, h1, h2);
    InFaceSplitRecords(m, vId, fId, h0, h1, h2);
    InFaceShapeValid(m, vId, fId, h0, h1, h2, r);
  }

  /** Any mesh of that shape is valid. */
  lemma InFaceShapeValid(m: Mesh, vId: VertexId, fId: nat, h0: nat, h1: nat, h2: nat, r: Mesh)
    requires FaceCycle(m, fId, h0, h1, h2) && InFaceShape(m, vId, fId, h0, h1, h2, r)
    ensures Valid(r)
  {
    InFaceShapeIds(m, vId, fId, h0, h1, h2, r);
    InFaceShapeEdgesOk(m, vId, fId, h0, h1, h2, r);
    InFaceShapeFacesOk(m, vId, fId, h0, h1, h2, r);
  }

  lemma InFaceShapeIds(m: Mesh, vId: VertexId, fId: nat, h0: nat, h1: nat, h2: nat, r: Mesh)
    requires FaceCycle(m, fId, h0, h1, h2) && InFaceShape(m, vId, fId, h0, h1, h2, r)
    ensures IndexMatches(r)
  {
    var e, nf := |m.halfedges|, |m.faces|;
    forall j | 0 <= j < |r.halfedges| ensures r.halfedges[j].index == j {
      if j < e && j != h0 && j != h1 && j != h2 {
        assert r.halfedges[j] == m.halfedges[j];
      }
    }
    forall g | 0 <= g < |r.faces| ensures r.faces[g].index == g {
      if g < nf && g != fId {
        assert r.faces[g] == m.faces[g];
      }
    }
  }

  lemma InFaceShapeEdgesOk(m: Mesh, vId: VertexId, fId: nat, h0: nat, h1: nat, h2: nat, r: Mesh)
    requires FaceCycle(m, fId, h0, h1, h2) && InFaceShape(m, vId, fId, h0, h1, h2, r)
    ensures forall j :: 0 <= j < |r.halfedges| ==> EdgeOk(r, j)
  {
    var e := |m.halfedges|;
    forall j | 0 <= j < |r.halfedges| ensures EdgeOk(r, j) {
      if j >= e {
        InFaceNewEdgesOk(m, vId, fId, h0, h1, h2, r, j - e);
      } else if j == h0 || j == h1 || j == h2 {
        InFaceCycleEdgesOk(m, vId, fId, h0, h1, h2, r, j);
      } else {
        InFaceOtherEdgesOk(m, vId, fId, h0, h1, h2, r, j);
      }
    }
  }

  lemma InFaceShapeFacesOk(m: Mesh, vId: VertexId, fId: nat, h0: nat, h1: nat, h2: nat, r: Mesh)
    requires FaceCycle(m, fId, h0, h1, h2) && InFaceShape(m, vId, fId, h0, h1, h2, r)
    ensures forall g :: 0 <= g < |r.faces| ==> FaceOk(r, g)
  {
    var nf := |m.faces|;
    CycleFacts(m, h0);
    assert FaceOk(m, fId);
    forall g | 0 <= g < |r.faces| ensures FaceOk(r, g) {
      if g < nf && g != fId {
        assert FaceOk(m, g);
        var h := m.faces[g].heid.pos;
        assert m.halfedges[h].fid == At(g);
        assert h != h0 && h != h1 && h != h2;
      }
    }
  }

  // ---------------------------------------------------------------------
  // Splitting an edge: the two triangles beside it become four
  // ---------------------------------------------------------------------

  /**
    The two triangles beside a non-boundary half-edge `he`: he runs a -> b
    in the cycle (he, o0, o1) and its flip `hef` runs b -> a in the cycle
    (hef, o2, o3), so o0 leaves b, o1 leaves the apex c, o2 leaves a and o3
    leaves the apex d.
   */
  datatype Diamond = Diamond(he: nat, hef: nat, o0: nat, o1: nat, o2: nat, o3: nat)

  predicate IsDiamond(m: Mesh, d: Diamond)
  {
    && Valid(m) && d.he < |m.halfedges| && !IsBoundary(m.halfedges[d.he])
    && d.hef == Flip(m, d.he) && InRange(m, d.hef)
    && d.o0 == Next(m, d.he) && InRange(m, d.o0) && d.o1 == Next(m, d.o0) && InRange(m, d.o1)
    && d.o2 == Next(m, d.hef) && InRange(m, d.o2) && d.o3 == Next(m, d.o2) && InRange(m, d.o3)
  }

  /** The six half-edges of a diamond are distinct positions below n. */
  predicate DiamondSlots(n: nat, d: Diamond)
  {
    && d.he < n && d.hef < n && d.o0 < n && d.o1 < n && d.o2 < n && d.o3 < n
    && d.he != d.o0 && d.he != d.o1 && d.o0 != d.o1
    && d.hef != d.o2 && d.hef != d.o3 && d.o2 != d.o3
    && d.he != d.hef && d.he != d.o2 && d.he != d.o3
    && d.o0 != d.hef && d.o0 != d.o2 && d.o0 != d.o3
    && d.o1 != d.hef && d.o1 != d.o2 && d.o1 != d.o3
  }

  /** The diamond around a non-boundary half-edge of a valid mesh. */
  function DiamondOf(m: Mesh, i: nat): (d: Diamond)
    requires Valid(m) && i < |m.halfedges| && !IsBoundary(m.halfedges[i])
    ensures IsDiamond(m, d) && d.he == i
  {
    assert EdgeOk(m, i);
    var fl := Flip(m, i);
    assert EdgeOk(m, fl) && EdgeOk(m, Next(m, i)) && EdgeOk(m, Next(m, fl));
    Diamond(i, fl, Next(m, i), Next(m, Next(m, i)), Next(m, fl), Next(m, Next(m, fl)))
  }

  /** The face a half-edge belongs to (0 for a record with no face). */
  function FaceOfHe(m: Mesh, i: nat): nat
    requires i < |m.halfedges|
  {
    if m.halfedges[i].fid.At? then m.halfedges[i].fid.pos else 0
  }

  /**
    What a valid diamond is made of: six distinct half-edges in two faces,
    each face holding exactly its three, the flip pair running between the
    same two vertices.
   */
  lemma DiamondFacts(m: Mesh, d: Diamond)
    requires IsDiamond(m, d)
    ensures var f0, f3 := FaceOfHe(m, d.he), FaceOfHe(m, d.hef);
      && var hs := m.halfedges;
      && DiamondSlots(|m.halfedges|, d)
      && Next(m, d.o1) == d.he && Next(m, d.o3) == d.hef && Flip(m, d.hef) == d.he
      && Prev(m, d.he) == d.o1 && Prev(m, d.o0) == d.he && Prev(m, d.o1) == d.o0
      && Prev(m, d.hef) == d.o3 && Prev(m, d.o2) == d.hef && Prev(m, d.o3) == d.o2
      && f0 < |m.faces| && f3 < |m.faces| && f0 != f3
      && hs[d.he].fid == At(f0) && hs[d.o0].fid == At(f0) && hs[d.o1].fid == At(f0)
      && hs[d.hef].fid == At(f3) && hs[d.o2].fid == At(f3) && hs[d.o3].fid == At(f3)
      && hs[d.hef].vid == hs[d.o0].vid && hs[d.o2].vid == hs[d.he].vid
      && hs[d.he].index == d.he && hs[d.hef].index == d.hef && hs[d.o0].index == d.o0
      && hs[d.o1].index == d.o1 && hs[d.o2].index == d.o2 && hs[d.o3].index == d.o3
      && m.faces[f0].index == f0 && m.faces[f3].index == f3
      && (forall j :: 0 <= j < |hs| && hs[j].fid == At(f0) ==> j == d.he || j == d.o0 || j == d.o1)
      && (forall j :: 0 <= j < |hs| && hs[j].fid == At(f3) ==> j == d.hef || j == d.o2 || j == d.o3)
  {
    CycleFacts(m, d.he);
    CycleFacts(m, d.hef);
    FlipFacts(m, d.he);
  }

  /**
    The four-way split described directly. With e the first new slot and nf
    the first new face, the cycles become (o0, e+0, he) in he's face f0,
    (o1, e+2, e+1) in nf, (o2, e+4, e+3) in nf+1 and (o3, hef, e+5) in hef's
    face f3; he now leaves the new vertex, and the new edges pair up as flips
    0-1, 2-3 and 4-5.
   */
  function OnEdgeSplit(m: Mesh, vId: VertexId, d: Diamond): Mesh
    requires IsDiamond(m, d)
  {
    assert EdgeOk(m, d.he) && EdgeOk(m, d.hef);
    var e, nf := |m.halfedges|, |m.faces|;
    var f0, f3 := FaceOfHe(m, d.he), FaceOfHe(m, d.hef);
    var hs := m.halfedges;
    var hes := hs[d.o0 := Linked(d.o0, f0, hs[d.o0].vid, d.he, e + 0, Flip(m, d.o0))]
                 [d.he := Linked(d.he, f0, vId, e + 0, d.o0, d.hef)]
                 [d.o1 := Linked(d.o1, nf, hs[d.o1].vid, e + 1, e + 2, Flip(m, d.o1))]
                 [d.o2 := Linked(d.o2, nf + 1, hs[d.o2].vid, e + 3, e + 4, Flip(m, d.o2))]
                 [d.o3 := Linked(d.o3, f3, hs[d.o3].vid, e + 5, d.hef, Flip(m, d.o3))]
                 [d.hef := Linked(d.hef, f3, hs[d.hef].vid, d.o3, e + 5, d.he)];
    var faces := m.faces[f0 := Face(f0, At(d.o0))][f3 := Face(f3, At(d.o3))];
    Mesh(hes + OnEdgeAdded(m, vId, d), faces + [Face(nf, At(d.o1)), Face(nf + 1, At(d.o2))])
  }

  /** The six new records of the four-way split, at positions e+0 .. e+5. */
  function OnEdgeAdded(m: Mesh, vId: VertexId, d: Diamond): seq<HalfEdge>
    requires IsDiamond(m, d)
  {
    var e, nf := |m.halfedges|, |m.faces|;
    var f0, f3 := FaceOfHe(m, d.he), FaceOfHe(m, d.hef);
    var a, c, dd := m.halfedges[d.o2].vid, m.halfedges[d.o1].vid, m.halfedges[d.o3].vid;
    [ Linked(e + 0, f0, c, d.o0, d.he, e + 1),
      Linked(e + 1, nf, vId, e + 2, d.o1, e + 0),
      Linked(e + 2, nf, a, d.o1, e + 1, e + 3),
      Linked(e + 3, nf + 1, vId, e + 4, d.o2, e + 2),
      Linked(e + 4, nf + 1, dd, d.o2, e + 3, e + 5),
      Linked(e + 5, f3, vId, d.hef, d.o3, e + 4) ]
  }

  /**
    `HDS_Mesh::insertNewVertexOnEdge` as written: grow both arrays, write the
    new vids and he's, pair the new flips, then construct the four faces. The
    diamond is read after the resize, which does not move the old records.
   */
  method InsertNewVertexOnEdge(m: Mesh, vId: VertexId, heId: nat) returns (s: Split)
    requires Valid(m) && heId < |m.halfedges| && !IsBoundary(m.halfedges[heId])
    ensures s.firstEdge == |m.halfedges| && s.firstFace == |m.faces|
    ensures s.mesh == OnEdgeSplit(m, vId, DiamondOf(m, heId))
  {
    var d := DiamondOf(m, heId);
    DiamondFacts(m, d);
    var g := OnEdgeRecords(m, vId, d, FaceOfHe(m, d.he), FaceOfHe(m, d.hef));
    OnEdgeOldPart(m, vId, d);
    s := Split(g, |m.halfedges|, |m.faces|);
  }

  /** The same statements, needing only the ids of the records they name. */
  method OnEdgeRecords(m: Mesh, vId: VertexId, d: Diamond, f0: nat, f3: nat) returns (g: Mesh)
    requires DiamondSlots(|m.halfedges|, d)
    requires f0 < |m.faces| && f3 < |m.faces| && f0 != f3
    requires m.halfedges[d.he].index == d.he && m.halfedges[d.hef].index == d.hef && m.halfedges[d.o0].index == d.o0
    requires m.halfedges[d.o1].index == d.o1 && m.halfedges[d.o2].index == d.o2 && m.halfedges[d.o3].index == d.o3
    requires m.faces[f0].index == f0 && m.faces[f3].index == f3
    ensures var e, nf, hs := |m.halfedges|, |m.faces|, m.halfedges;
      var a, c, dd := hs[d.o2].vid, hs[d.o1].vid, hs[d.o3].vid;
      g == Mesh(OnEdgeOldRecords(hs, vId, d, f0, f3, nf)
                + [ Linked(e + 0, f0, c, d.o0, d.he, e + 1),
                    Linked(e + 1, nf, vId, e + 2, d.o1, e + 0),
                    Linked(e + 2, nf, a, d.o1, e + 1, e + 3),
                    Linked(e + 3, nf + 1, vId, e + 4, d.o2, e + 2),
                    Linked(e + 4, nf + 1, dd, d.o2, e + 3, e + 5),
                    Linked(e + 5, f3, vId, d.hef, d.o3, e + 4) ],
                m.faces[f0 := m.faces[f0].(heid := At(d.o0))][f3 := m.faces[f3].(heid := At(d.o3))]
                + [Face(nf, At(d.o1)), Face(nf + 1, At(d.o2))])
  {
    var e, nf, hs := |m.halfedges|, |m.faces|, m.halfedges;
    var a, c, dd := hs[d.o2].vid, hs[d.o1].vid, hs[d.o3].vid;
    g := OnEdgeWriteAndPair(m, vId, d.he, a, c, dd);
    var p := hs[d.he := hs[d.he].(vid := vId)];
    var fs := m.faces + [FreshFace(nf), FreshFace(nf + 1)];
    var l := OnEdgePaired(e, vId, a, c, dd);
    g := OnEdgeConstructFaces(g, p, l, fs, d, f0, f3, e, nf);
    OnEdgeOldAfterWrite(hs, vId, d, f0, f3, nf);
    OnEdgeNewRecords(e, nf, f0, f3, vId, a, c, dd, d);
    OnEdgeNewFaces(m.faces, f0, f3, d);
  }

  /**
    The old records after the four `constructFace` calls, in the order the
    calls update them; he's vid was written first.
   */
  function OnEdgeOldRecords(hs: seq<HalfEdge>, vId: VertexId, d: Diamond, f0: nat, f3: nat, nf: nat): seq<HalfEdge>
    requires d.he < |hs| && d.hef < |hs| && d.o0 < |hs| && d.o1 < |hs| && d.o2 < |hs| && d.o3 < |hs|
  {
    var e := |hs|;
    hs[d.o0 := Relink(hs[d.o0], f0, d.he, e + 0)]
      [d.he := Relink(hs[d.he].(vid := vId), f0, e + 0, d.o0)]
      [d.o1 := Relink(hs[d.o1], nf, e + 1, e + 2)]
      [d.o2 := Relink(hs[d.o2], nf + 1, e + 3, e + 4)]
      [d.o3 := Relink(hs[d.o3], f3, e + 5, d.hef)]
      [d.hef := Relink(hs[d.hef], f3, d.o3, e + 5)]
  }

  /** Writing he's vid first and then relinking the six old records gives the old records of the split. */
  lemma OnEdgeOldAfterWrite(hs: seq<HalfEdge>, vId: VertexId, d: Diamond, f0: nat, f3: nat, nf: nat)
    requires DiamondSlots(|hs|, d)
    ensures var e, p := |hs|, hs[d.he := hs[d.he].(vid := vId)];
      p[d.o0 := Relink(p[d.o0], f0, d.he, e + 0)][d.he := Relink(p[d.he], f0, e + 0, d.o0)]
       [d.o1 := Relink(p[d.o1], nf, e + 1, e + 2)][d.o2 := Relink(p[d.o2], nf + 1, e + 3, e + 4)]
       [d.o3 := Relink(p[d.o3], f3, e + 5, d.hef)][d.hef := Relink(p[d.hef], f3, d.o3, e + 5)]
      == OnEdgeOldRecords(hs, vId, d, f0, f3, nf)
  {
    var e := |hs|;
    OverwrittenUpdate(hs, d.he, d.o0, hs[d.he].(vid := vId), Relink(hs[d.o0], f0, d.he, e + 0),
                      Relink(hs[d.he].(vid := vId), f0, e + 0, d.o0));
  }

  /** The six new records after their vids are written and the flips paired. */
  function OnEdgePaired(e: nat, vId: VertexId, a: VertexId, c: VertexId, dd: VertexId): seq<HalfEdge>
  {
    [Bare(e, c).(flipOffset := 1), Bare(e + 1, vId).(flipOffset := -1), Bare(e + 2, a).(flipOffset := 1),
     Bare(e + 3, vId).(flipOffset := -1), Bare(e + 4, dd).(flipOffset := 1), Bare(e + 5, vId).(flipOffset := -1)]
  }

  /** The first two phases: `resize` and the vid writes, then the three `setFlip` calls. */
  method OnEdgeWriteAndPair(m: Mesh, vId: VertexId, he: nat, a: VertexId, c: VertexId, dd: VertexId) returns (g: Mesh)
    requires he < |m.halfedges|
    ensures var e, nf := |m.halfedges|, |m.faces|;
      g == Mesh(m.halfedges[he := m.halfedges[he].(vid := vId)] + OnEdgePaired(e, vId, a, c, dd),
                m.faces + [FreshFace(nf), FreshFace(nf + 1)])
  {
    var e, nf := |m.halfedges|, |m.faces|;
    g := OnEdgeGrowAndWrite(m, vId, he, a, c, dd);
    var l := [Bare(e, c), Bare(e + 1, vId), Bare(e + 2, a), Bare(e + 3, vId), Bare(e + 4, dd), Bare(e + 5, vId)];
    g := OnEdgePairFlips(g, m.halfedges[he := m.halfedges[he].(vid := vId)], l, m.faces + [FreshFace(nf), FreshFace(nf + 1)]);
  }

  /** `resize` of both arrays, then the vid writes: new[0], new[2], new[4], then `he = new[1] = new[3] = new[5] = vId`. */
  method OnEdgeGrowAndWrite(m: Mesh, vId: VertexId, he: nat, a: VertexId, c: VertexId, dd: VertexId) returns (g: Mesh)
    requires he < |m.halfedges|
    ensures var e, nf := |m.halfedges|, |m.faces|;
      g == Mesh(m.halfedges[he := m.halfedges[he].(vid := vId)]
                + [Bare(e, c), Bare(e + 1, vId), Bare(e + 2, a), Bare(e + 3, vId), Bare(e + 4, dd), Bare(e + 5, vId)],
                m.faces + [FreshFace(nf), FreshFace(nf + 1)])
  {
    var e, nf := |m.halfedges|, |m.faces|;
    var p, fs := m.halfedges, m.faces + [FreshFace(nf), FreshFace(nf + 1)];
    g := Grow(m, 6, 2);
    FreshSix(e, nf);
    var k := FreshEdges(e, 6);
    g := WriteNew(g, p, k, fs, 0, c);
    k := k[0 := k[0].(vid := c)];
    g := WriteNew(g, p, k, fs, 2, a);
    k := k[2 := k[2].(vid := a)];
    g := WriteNew(g, p, k, fs, 4, dd);
    k := k[4 := k[4].(vid := dd)];
    g := WriteNew(g, p, k, fs, 5, vId);
    k := k[5 := k[5].(vid := vId)];
    g := WriteNew(g, p, k, fs, 3, vId);
    k := k[3 := k[3].(vid := vId)];
    g := WriteNew(g, p, k, fs, 1, vId);
    k := k[1 := k[1].(vid := vId)];
    g := WriteOld(g, p, k, fs, he, vId);
    assert k == [Bare(e, c), Bare(e + 1, vId), Bare(e + 2, a), Bare(e + 3, vId), Bare(e + 4, dd), Bare(e + 5, vId)];
  }

  /** `setFlip(new[0], new[1])`, `(new[2], new[3])`, `(new[4], new[5])`. */
  method OnEdgePairFlips(g: Mesh, p: seq<HalfEdge>, l: seq<HalfEdge>, fs: seq<Face>) returns (r: Mesh)
    requires |l| == 6 && g == Mesh(p + l, fs)
    ensures r == Mesh(p + [l[0].(flipOffset := 1), l[1].(flipOffset := -1), l[2].(flipOffset := 1),
                           l[3].(flipOffset := -1), l[4].(flipOffset := 1), l[5].(flipOffset := -1)], fs)
  {
    var l1 := l[0 := l[0].(flipOffset := 1)][1 := l[1].(flipOffset := -1)];
    var l2 := l1[2 := l1[2].(flipOffset := 1)][3 := l1[3].(flipOffset := -1)];
    r := PairNew(g, p, l, fs, 0, 1);
    r := PairNew(r, p, l1, fs, 2, 3);
    r := PairNew(r, p, l2, fs, 4, 5);
    assert l2[4 := l2[4].(flipOffset := 1)][5 := l2[5].(flipOffset := -1)]
        == [l[0].(flipOffset := 1), l[1].(flipOffset := -1), l[2].(flipOffset := 1),
            l[3].(flipOffset := -1), l[4].(flipOffset := 1), l[5].(flipOffset := -1)];
  }

  /**
    `constructFace(oriHe0, new[0], he, face0)`, `(oriHe1, new[2], new[1], face1)`,
    `(oriHe2, new[4], new[3], face2)`, `(oriHe3, hef, new[5], face3)`.
   */
  method OnEdgeConstructFaces(g: Mesh, p: seq<HalfEdge>, l: seq<HalfEdge>, fs: seq<Face>,
                              d: Diamond, f0: nat, f3: nat, e: nat, nf: nat) returns (r: Mesh)
    requires |l| == 6 && e == |p| && nf + 2 == |fs| && g == Mesh(p + l, fs)
    requires DiamondSlots(|p|, d)
    requires f0 < nf && f3 < nf && f0 != f3
    requires p[d.he].index == d.he && p[d.hef].index == d.hef && p[d.o0].index == d.o0
    requires p[d.o1].index == d.o1 && p[d.o2].index == d.o2 && p[d.o3].index == d.o3
    requires l[0].index == e && l[1].index == e + 1 && l[2].index == e + 2
    requires l[3].index == e + 3 && l[4].index == e + 4 && l[5].index == e + 5
    requires fs[f0].index == f0 && fs[f3].index == f3 && fs[nf].index == nf && fs[nf + 1].index == nf + 1
    ensures r == Mesh(p[d.o0 := Relink(p[d.o0], f0, d.he, e + 0)][d.he := Relink(p[d.he], f0, e + 0, d.o0)]
                 [d.o1 := Relink(p[d.o1], nf, e + 1, e + 2)][d.o2 := Relink(p[d.o2], nf + 1, e + 3, e + 4)]
                 [d.o3 := Relink(p[d.o3], f3, e + 5, d.hef)][d.hef := Relink(p[d.hef], f3, d.o3, e + 5)]
                + [Relink(l[0], f0, d.o0, d.he), Relink(l[1], nf, e + 2, d.o1),
                   Relink(l[2], nf, d.o1, e + 1), Relink(l[3], nf + 1, e + 4, d.o2),
                   Relink(l[4], nf + 1, d.o2, e + 3), Relink(l[5], f3, d.hef, d.o3)],
                fs[f0 := fs[f0].(heid := At(d.o0))][nf := fs[nf].(heid := At(d.o1))]
                  [nf + 1 := fs[nf + 1].(heid := At(d.o2))][f3 := fs[f3].(heid := At(d.o3))])
  {
    r := OnEdgeConstructUpper(g, p, l, fs, d, f0, nf);
    var p2 := p[d.o0 := Relink(p[d.o0], f0, d.he, e + 0)][d.he := Relink(p[d.he], f0, e + 0, d.o0)]
               [d.o1 := Relink(p[d.o1], nf, e + 1, e + 2)];
    var l2 := l[0 := Relink(l[0], f0, d.o0, d.he)][2 := Relink(l[2], nf, d.o1, e + 1)][1 := Relink(l[1], nf, e + 2, d.o1)];
    var fs2 := fs[f0 := fs[f0].(heid := At(d.o0))][nf := fs[nf].(heid := At(d.o1))];
    r := OnEdgeConstructLower(r, p2, l2, fs2, d, nf + 1, f3);
    assert l2[4 := Relink(l[4], nf + 1, d.o2, e + 3)][3 := Relink(l[3], nf + 1, e + 4, d.o2)]
             [5 := Relink(l[5], f3, d.hef, d.o3)]
        == [Relink(l[0], f0, d.o0, d.he), Relink(l[1], nf, e + 2, d.o1),
            Relink(l[2], nf, d.o1, e + 1), Relink(l[3], nf + 1, e + 4, d.o2),
            Relink(l[4], nf + 1, d.o2, e + 3), Relink(l[5], f3, d.hef, d.o3)];
  }

  /** `constructFace(o0, e+0, he, f0)` then `constructFace(o1, e+2, e+1, nf)`: he's half of the diamond. */
  method OnEdgeConstructUpper(g: Mesh, p: seq<HalfEdge>, l: seq<HalfEdge>, fs: seq<Face>,
                              d: Diamond, f0: nat, nf: nat) returns (r: Mesh)
    requires |l| == 6 && g == Mesh(p + l, fs)
    requires d.he < |p| && d.o0 < |p| && d.o1 < |p| && d.he != d.o0 && d.he != d.o1 && d.o0 != d.o1
    requires f0 < |fs| && nf < |fs| && f0 != nf
    requires p[d.he].index == d.he && p[d.o0].index == d.o0 && p[d.o1].index == d.o1
    requires l[0].index == |p| && l[1].index == |p| + 1 && l[2].index == |p| + 2
    requires fs[f0].index == f0 && fs[nf].index == nf
    ensures var e := |p|;
      r == Mesh(p[d.o0 := Relink(p[d.o0], f0, d.he, e + 0)][d.he := Relink(p[d.he], f0, e + 0, d.o0)]
                 [d.o1 := Relink(p[d.o1], nf, e + 1, e + 2)]
                + l[0 := Relink(l[0], f0, d.o0, d.he)][2 := Relink(l[2], nf, d.o1, e + 1)][1 := Relink(l[1], nf, e + 2, d.o1)],
                fs[f0 := fs[f0].(heid := At(d.o0))][nf := fs[nf].(heid := At(d.o1))])
  {
    var e := |p|;
    r := ConstructMiddleNew(g, p, l, fs, d.o0, 0, d.he, f0);
    var p1 := p[d.o0 := Relink(p[d.o0], f0, d.he, e + 0)][d.he := Relink(p[d.he], f0, e + 0, d.o0)];
    r := ConstructAround(r, p1, l[0 := Relink(l[0], f0, d.o0, d.he)], fs[f0 := fs[f0].(heid := At(d.o0))], d.o1, 2, 1, nf);
  }

  /** `constructFace(o2, e+4, e+3, nf+1)` then `constructFace(o3, hef, e+5, f3)`: hef's half of the diamond. */
  method OnEdgeConstructLower(g: Mesh, p: seq<HalfEdge>, l: seq<HalfEdge>, fs: seq<Face>,
                              d: Diamond, nf1: nat, f3: nat) returns (r: Mesh)
    requires |l| == 6 && g == Mesh(p + l, fs)
    requires d.hef < |p| && d.o2 < |p| && d.o3 < |p| && d.hef != d.o2 && d.hef != d.o3 && d.o2 != d.o3
    requires nf1 < |fs| && f3 < |fs| && nf1 != f3
    requires p[d.hef].index == d.hef && p[d.o2].index == d.o2 && p[d.o3].index == d.o3
    requires l[3].index == |p| + 3 && l[4].index == |p| + 4 && l[5].index == |p| + 5
    requires fs[nf1].index == nf1 && fs[f3].index == f3
    ensures var e := |p|;
      r == Mesh(p[d.o2 := Relink(p[d.o2], nf1, e + 3, e + 4)]
                 [d.o3 := Relink(p[d.o3], f3, e + 5, d.hef)][d.hef := Relink(p[d.hef], f3, d.o3, e + 5)]
                + l[4 := Relink(l[4], nf1, d.o2, e + 3)][3 := Relink(l[3], nf1, e + 4, d.o2)][5 := Relink(l[5], f3, d.hef, d.o3)],
                fs[nf1 := fs[nf1].(heid := At(d.o2))][f3 := fs[f3].(heid := At(d.o3))])
  {
    var e := |p|;
    r := ConstructAround(g, p, l, fs, d.o2, 4, 3, nf1);
    r := ConstructLastNew(r, p[d.o2 := Relink(p[d.o2], nf1, e + 3, e + 4)],
                          l[4 := Relink(l[4], nf1, d.o2, e + 3)][3 := Relink(l[3], nf1, e + 4, d.o2)],
                          fs[nf1 := fs[nf1].(heid := At(d.o2))], d.o3, d.hef, 5, f3);
  }

  /** The six new records, written, paired and relinked, are the records of the direct description. */
  lemma OnEdgeNewRecords(e: nat, nf: nat, f0: nat, f3: nat, vId: VertexId, a: VertexId, c: VertexId, dd: VertexId, d: Diamond)
    ensures var l1 := OnEdgePaired(e, vId, a, c, dd);
      [Relink(l1[0], f0, d.o0, d.he), Relink(l1[1], nf, e + 2, d.o1),
       Relink(l1[2], nf, d.o1, e + 1), Relink(l1[3], nf + 1, e + 4, d.o2),
       Relink(l1[4], nf + 1, d.o2, e + 3), Relink(l1[5], f3, d.hef, d.o3)]
      == [ Linked(e + 0, f0, c, d.o0, d.he, e + 1),
           Linked(e + 1, nf, vId, e + 2, d.o1, e + 0),
           Linked(e + 2, nf, a, d.o1, e + 1, e + 3),
           Linked(e + 3, nf + 1, vId, e + 4, d.o2, e + 2),
           Linked(e + 4, nf + 1, dd, d.o2, e + 3, e + 5),
           Linked(e + 5, f3, vId, d.hef, d.o3, e + 4) ]
  {
  }

  /** The face array after the resize and the four `constructFace` calls. */
  lemma OnEdgeNewFaces(q: seq<Face>, f0: nat, f3: nat, d: Diamond)
    requires f0 < |q| && f3 < |q| && f0 != f3
    ensures var nf := |q|;
      var fs := q + [FreshFace(nf), FreshFace(nf + 1)];
      fs[f0 := fs[f0].(heid := At(d.o0))][nf := fs[nf].(heid := At(d.o1))]
        [nf + 1 := fs[nf + 1].(heid := At(d.o2))][f3 := fs[f3].(heid := At(d.o3))]
      == q[f0 := q[f0].(heid := At(d.o0))][f3 := q[f3].(heid := At(d.o3))] + [Face(nf, At(d.o1)), Face(nf + 1, At(d.o2))]
  {
    var nf := |q|;
    var t := [FreshFace(nf), FreshFace(nf + 1)];
    var q1 := q[f0 := q[f0].(heid := At(d.o0))];
    UpdatePrefix(q, t, f0, q[f0].(heid := At(d.o0)));
    UpdateSuffix(q1, t, 0, Face(nf, At(d.o1)));
    UpdateSuffix(q1, t[0 := Face(nf, At(d.o1))], 1, Face(nf + 1, At(d.o2)));
    UpdatePrefix(q1, [Face(nf, At(d.o1)), Face(nf + 1, At(d.o2))], f3, q[f3].(heid := At(d.o3)));
  }

  /** The relinked old records are the records the direct description names. */
  lemma OnEdgeOldPart(m: Mesh, vId: VertexId, d: Diamond)
    requires IsDiamond(m, d)
    ensures var f0, f3, nf := FaceOfHe(m, d.he), FaceOfHe(m, d.hef), |m.faces|;
      && f0 < |m.faces| && f3 < |m.faces|
      && OnEdgeSplit(m, vId, d)
         == Mesh(OnEdgeOldRecords(m.halfedges, vId, d, f0, f3, nf) + OnEdgeAdded(m, vId, d),
                 m.faces[f0 := m.faces[f0].(heid := At(d.o0))][f3 := m.faces[f3].(heid := At(d.o3))]
                 + [Face(nf, At(d.o1)), Face(nf + 1, At(d.o2))])
  {
    DiamondFacts(m, d);
  }

  // ---------------------------------------------------------------------
  // The four-way split keeps the mesh valid
  // ---------------------------------------------------------------------

  /** What the four-way split leaves where: the touched records as below, every other record as it was. */
  predicate OnEdgeShape(m: Mesh, vId: VertexId, d: Diamond, r: Mesh)
    requires DiamondSlots(|m.halfedges|, d)
  {
    var e, nf := |m.halfedges|, |m.faces|;
    var f0, f3 := FaceOfHe(m, d.he), FaceOfHe(m, d.hef);
    && OnEdgeTouched(m, vId, d, r)
    && (forall j :: 0 <= j < e && j != d.he && j != d.hef && j != d.o0 && j != d.o1 && j != d.o2 && j != d.o3
          ==> r.halfedges[j] == m.halfedges[j])
    && (forall g :: 0 <= g < nf && g != f0 && g != f3 ==> r.faces[g] == m.faces[g])
  }

  /** The twelve half-edges and four faces the four-way split writes. */
  predicate OnEdgeTouched(m: Mesh, vId: VertexId, d: Diamond, r: Mesh)
    requires DiamondSlots(|m.halfedges|, d)
  {
    var e, nf := |m.halfedges|, |m.faces|;
    var f0, f3, hs := FaceOfHe(m, d.he), FaceOfHe(m, d.hef), m.halfedges;
    var a, b, c, dd := hs[d.he].vid, hs[d.hef].vid, hs[d.o1].vid, hs[d.o3].vid;
    && |r.halfedges| == e + 6 && |r.faces| == nf + 2 && f0 < nf && f3 < nf && f0 != f3
    && r.halfedges[d.o0] == Linked(d.o0, f0, b, d.he, e + 0, Flip(m, d.o0))
    && r.halfedges[d.he] == Linked(d.he, f0, vId, e + 0, d.o0, d.hef)
    && r.halfedges[d.o1] == Linked(d.o1, nf, c, e + 1, e + 2, Flip(m, d.o1))
    && r.halfedges[d.o2] == Linked(d.o2, nf + 1, a, e + 3, e + 4, Flip(m, d.o2))
    && r.halfedges[d.o3] == Linked(d.o3, f3, dd, e + 5, d.hef, Flip(m, d.o3))
    && r.halfedges[d.hef] == Linked(d.hef, f3, b, d.o3, e + 5, d.he)
    && r.halfedges[e + 0] == Linked(e + 0, f0, c, d.o0, d.he, e + 1)
    && r.halfedges[e + 1] == Linked(e + 1, nf, vId, e + 2, d.o1, e + 0)
    && r.halfedges[e + 2] == Linked(e + 2, nf, a, d.o1, e + 1, e + 3)
    && r.halfedges[e + 3] == Linked(e + 3, nf + 1, vId, e + 4, d.o2, e + 2)
    && r.halfedges[e + 4] == Linked(e + 4, nf + 1, dd, d.o2, e + 3, e + 5)
    && r.halfedges[e + 5] == Linked(e + 5, f3, vId, d.hef, d.o3, e + 4)
    && r.faces[f0] == Face(f0, At(d.o0)) && r.faces[f3] == Face(f3, At(d.o3))
    && r.faces[nf] == Face(nf, At(d.o1)) && r.faces[nf + 1] == Face(nf + 1, At(d.o2))
  }

  /** The direct description has that shape. */
  lemma OnEdgeSplitRecords(m: Mesh, vId: VertexId, d: Diamond)
    requires IsDiamond(m, d)
    ensures DiamondSlots(|m.halfedges|, d) && OnEdgeShape(m, vId, d, OnEdgeSplit(m, vId, d))
  {
    OnEdgeSplitTouched(m, vId, d);
    OnEdgeSplitUntouched(m, vId, d);
  }

  lemma OnEdgeSplitTouched(m: Mesh, vId: VertexId, d: Diamond)
    requires IsDiamond(m, d)
    ensures DiamondSlots(|m.halfedges|, d) && OnEdgeTouched(m, vId, d, OnEdgeSplit(m, vId, d))
  {
    DiamondFacts(m, d);
  }

  lemma OnEdgeSplitUntouched(m: Mesh, vId: VertexId, d: Diamond)
    requires IsDiamond(m, d)
    ensures var r, f0, f3 := OnEdgeSplit(m, vId, d), FaceOfHe(m, d.he), FaceOfHe(m, d.hef);
      && |r.halfedges| > |m.halfedges| && |r.faces| > |m.faces|
      && (forall j :: 0 <= j < |m.halfedges| && j != d.he && j != d.hef && j != d.o0 && j != d.o1 && j != d.o2 && j != d.o3
            ==> r.halfedges[j] == m.halfedges[j])
      && (forall g :: 0 <= g < |m.faces| && g != f0 && g != f3 ==> r.faces[g] == m.faces[g])
  {
    DiamondFacts(m, d);
  }

  /** The vid the side edge i's successor leaves from, read off the diamond. */
  function SideNextVid(m: Mesh, d: Diamond, i: nat): VertexId
    requires DiamondSlots(|m.halfedges|, d)
  {
    var hs := m.halfedges;
    if i == d.o0 then hs[d.o1].vid
    else if i == d.o1 then hs[d.he].vid
    else if i == d.o2 then hs[d.o3].vid
    else hs[d.hef].vid
  }

  /**
    What the side edge i's flip looks like before the split: it is paired
    back with i, it is neither he nor hef, it leaves i's successor's vertex,
    and it is either another side edge or lies in a face other than the two
    diamond faces. The two diamond vertices each side edge shares with he or
    hef are included, as the split relabels side edges by them.
   */
  predicate SideFlipReady(m: Mesh, d: Diamond, i: nat)
    requires DiamondSlots(|m.halfedges|, d)
  {
    var hs := m.halfedges;
    && hs[d.hef].vid == hs[d.o0].vid && hs[d.o2].vid == hs[d.he].vid
    && i < |hs| && InRange(m, Flip(m, i)) && Flip(m, Flip(m, i)) == i
    && (Flip(m, i) != i ==>
          && Flip(m, i) != d.he && Flip(m, i) != d.hef
          && hs[Flip(m, i)].vid == SideNextVid(m, d, i)
          && (|| Flip(m, i) == d.o0 || Flip(m, i) == d.o1 || Flip(m, i) == d.o2 || Flip(m, i) == d.o3
              || (&& hs[Flip(m, i)].fid.At? && hs[Flip(m, i)].fid.pos < |m.faces|
                  && hs[Flip(m, i)].fid != At(FaceOfHe(m, d.he))
                  && hs[Flip(m, i)].fid != At(FaceOfHe(m, d.hef)))))
  }

  /** Every side edge of a diamond has a flip of that kind. */
  lemma DiamondSideFlip(m: Mesh, d: Diamond, i: nat)
    requires IsDiamond(m, d) && (i == d.o0 || i == d.o1 || i == d.o2 || i == d.o3)
    ensures DiamondSlots(|m.halfedges|, d) && SideFlipReady(m, d, i)
  {
    DiamondFacts(m, d);
    assert EdgeOk(m, i);
    var fl := Flip(m, i);
    if fl != i {
      FlipFacts(m, i);
      assert EdgeOk(m, fl);
      assert fl != d.he && fl != d.hef by {
        FlipFacts(m, d.he);
      }
    }
  }

  /** After the split, the side edge i's flip still points back at i, with the vid and face TriangleEdgeOk needs. */
  lemma OnEdgeSideFlip(m: Mesh, vId: VertexId, d: Diamond, r: Mesh, i: nat)
    requires DiamondSlots(|m.halfedges|, d) && OnEdgeShape(m, vId, d, r)
    requires (i == d.o0 || i == d.o1 || i == d.o2 || i == d.o3) && SideFlipReady(m, d, i)
    ensures var fl := Flip(m, i);
      && 0 <= fl < |r.halfedges| && r.halfedges[fl].flipOffset == i - fl
      && (fl != i ==> r.halfedges[fl].vid == SideNextVid(m, d, i) && r.halfedges[fl].fid != r.halfedges[i].fid)
  {
    var fl := Flip(m, i);
    if fl != d.o0 && fl != d.o1 && fl != d.o2 && fl != d.o3 {
      assert r.halfedges[fl] == m.halfedges[fl];
    }
  }

  /** The side edges o0 and o1 of he's triangle close their new triangles and keep their flips. */
  lemma OnEdgeUpperSidesOk(m: Mesh, vId: VertexId, d: Diamond, r: Mesh, i: nat)
    requires DiamondSlots(|m.halfedges|, d) && OnEdgeShape(m, vId, d, r)
    requires (i == d.o0 || i == d.o1) && SideFlipReady(m, d, i)
    ensures i < |r.halfedges| && EdgeOk(r, i)
  {
    var e, nf := |m.halfedges|, |m.faces|;
    OnEdgeSideFlip(m, vId, d, r, i);
    if i == d.o0 {
      TriangleEdgeOk(r, i, e + 0, d.he, FaceOfHe(m, d.he), Flip(m, i));
    } else {
      TriangleEdgeOk(r, i, e + 2, e + 1, nf, Flip(m, i));
    }
  }

  /** The side edges o2 and o3 of hef's triangle close their new triangles and keep their flips. */
  lemma OnEdgeLowerSidesOk(m: Mesh, vId: VertexId, d: Diamond, r: Mesh, i: nat)
    requires DiamondSlots(|m.halfedges|, d) && OnEdgeShape(m, vId, d, r)
    requires (i == d.o2 || i == d.o3) && SideFlipReady(m, d, i)
    ensures i < |r.halfedges| && EdgeOk(r, i)
  {
    var e, nf := |m.halfedges|, |m.faces|;
    OnEdgeSideFlip(m, vId, d, r, i);
    if i == d.o2 {
      TriangleEdgeOk(r, i, e + 4, e + 3, nf + 1, Flip(m, i));
    } else {
      TriangleEdgeOk(r, i, d.hef, e + 5, FaceOfHe(m, d.hef), Flip(m, i));
    }
  }

  /** The split edge and its flip: he now leaves the new vertex, hef still leaves b, and they stay paired. */
  lemma OnEdgeMiddleEdgesOk(m: Mesh, vId: VertexId, d: Diamond, r: Mesh, i: nat)
    requires DiamondSlots(|m.halfedges|, d) && OnEdgeTouched(m, vId, d, r) && (i == d.he || i == d.hef)
    ensures i < |r.halfedges| && EdgeOk(r, i)
  {
    var e := |m.halfedges|;
    var f0, f3 := FaceOfHe(m, d.he), FaceOfHe(m, d.hef);
    if i == d.he {
      TriangleEdgeOk(r, i, d.o0, e + 0, f0, d.hef);
    } else {
      TriangleEdgeOk(r, i, e + 5, d.o3, f3, d.he);
    }
  }

  /**
    The six new half-edges are well linked; they form three spokes from the
    new vertex, to c (new[0], new[1]), to a (new[2], new[3]) and to d
    (new[4], new[5]).
   */
  lemma OnEdgeNewEdgesOk(m: Mesh, vId: VertexId, d: Diamond, r: Mesh, k: nat)
    requires DiamondSlots(|m.halfedges|, d) && OnEdgeTouched(m, vId, d, r) && k < 6
    ensures |m.halfedges| + k < |r.halfedges| && EdgeOk(r, |m.halfedges| + k)
  {
    if k < 2 {
      OnEdgeSpokeToCOk(m, vId, d, r);
    } else if k < 4 {
      OnEdgeSpokeToAOk(m, vId, d, r);
    } else {
      OnEdgeSpokeToDOk(m, vId, d, r);
    }
  }

  /** The half-edges at i and i + 1 are both well linked. */
  predicate TwoEdgesOk(r: Mesh, i: nat)
    requires i + 1 < |r.halfedges|
  {
    EdgeOk(r, i) && EdgeOk(r, i + 1)
  }

  lemma OnEdgeSpokeToCOk(m: Mesh, vId: VertexId, d: Diamond, r: Mesh)
    requires DiamondSlots(|m.halfedges|, d)
    requires OnEdgeTouched(m, vId, d, r)
    ensures |m.halfedges| + 1 < |r.halfedges| && TwoEdgesOk(r, |m.halfedges| + 0)
  {
    var e, nf := |m.halfedges|, |m.faces|;
    TriangleEdgeOk(r, e + 0, d.he, d.o0, FaceOfHe(m, d.he), e + 1);
    TriangleEdgeOk(r, e + 1, d.o1, e + 2, nf, e + 0);
  }

  lemma OnEdgeSpokeToAOk(m: Mesh, vId: VertexId, d: Diamond, r: Mesh)
    requires DiamondSlots(|m.halfedges|, d)
    requires OnEdgeTouched(m, vId, d, r)
    ensures |m.halfedges| + 3 < |r.halfedges| && TwoEdgesOk(r, |m.halfedges| + 2)
  {
    var e, nf := |m.halfedges|, |m.faces|;
    TriangleEdgeOk(r, e + 2, e + 1, d.o1, nf, e + 3);
    TriangleEdgeOk(r, e + 3, d.o2, e + 4, nf + 1, e + 2);
  }

  lemma OnEdgeSpokeToDOk(m: Mesh, vId: VertexId, d: Diamond, r: Mesh)
    requires DiamondSlots(|m.halfedges|, d)
    requires OnEdgeTouched(m, vId, d, r)
    ensures |m.halfedges| + 5 < |r.halfedges| && TwoEdgesOk(r, |m.halfedges| + 4)
  {
    var e, nf := |m.halfedges|, |m.faces|;
    TriangleEdgeOk(r, e + 4, e + 3, d.o2, nf + 1, e + 5);
    TriangleEdgeOk(r, e + 5, d.o3, d.hef, FaceOfHe(m, d.hef), e + 4);
  }

  /** Every half-edge outside the diamond is untouched and stays well linked. */
  lemma OnEdgeOtherEdgesOk(m: Mesh, vId: VertexId, d: Diamond, r: Mesh, i: nat)
    requires IsDiamond(m, d) && DiamondSlots(|m.halfedges|, d) && OnEdgeShape(m, vId, d, r) && i < |m.halfedges|
    requires i != d.he && i != d.hef && i != d.o0 && i != d.o1 && i != d.o2 && i != d.o3
    ensures i < |r.halfedges| && EdgeOk(r, i)
  {
    DiamondFacts(m, d);
    var T := {d.he, d.hef, d.o0, d.o1, d.o2, d.o3};
    OutsideFlip(m, d, i);
    UntouchedEdgeOk(m, r, T, i);
  }

  /** An edge outside the diamond can only be the flip of a side edge, and lies in neither diamond face. */
  lemma OutsideFlip(m: Mesh, d: Diamond, i: nat)
    requires IsDiamond(m, d) && i < |m.halfedges|
    requires i != d.he && i != d.hef && i != d.o0 && i != d.o1 && i != d.o2 && i != d.o3
    ensures Flip(m, i) != d.he && Flip(m, i) != d.hef
    ensures m.halfedges[i].fid.At? && m.halfedges[i].fid.pos < |m.faces|
    ensures m.halfedges[i].fid != At(FaceOfHe(m, d.he)) && m.halfedges[i].fid != At(FaceOfHe(m, d.hef))
  {
    DiamondFacts(m, d);
    assert EdgeOk(m, i);
    var fl := Flip(m, i);
    if fl == d.he || fl == d.hef {
      FlipFacts(m, d.he);
      assert false;
    }
  }

  /** Splitting an edge of a valid mesh keeps the mesh valid. */
  lemma OnEdgeSplitValid(m: Mesh, vId: VertexId, d: Diamond)
    requires IsDiamond(m, d)
    ensures Valid(OnEdgeSplit(m, vId, d))
  {
    OnEdgeSplitRecords(m, vId, d);
    OnEdgeShapeValid(m, vId, d, OnEdgeSplit(m, vId, d));
  }

  /** Any mesh of that shape is valid. */
  lemma OnEdgeShapeValid(m: Mesh, vId: VertexId, d: Diamond, r: Mesh)
    requires IsDiamond(m, d) && DiamondSlots(|m.halfedges|, d) && OnEdgeShape(m, vId, d, r)
    ensures Valid(r)
  {
    OnEdgeShapeIds(m, vId, d, r);
    OnEdgeShapeEdgesOk(m, vId, d, r);
    OnEdgeShapeFacesOk(m, vId, d, r);
  }

  lemma OnEdgeShapeIds(m: Mesh, vId: VertexId, d: Diamond, r: Mesh)
    requires IsDiamond(m, d) && DiamondSlots(|m.halfedges|, d) && OnEdgeShape(m, vId, d, r)
    ensures IndexMatches(r)
  {
    var e, nf := |m.halfedges|, |m.faces|;
    var f0, f3 := FaceOfHe(m, d.he), FaceOfHe(m, d.hef);
    forall j | 0 <= j < |r.halfedges| ensures r.halfedges[j].index == j {
      if j < e && j != d.he && j != d.hef && j != d.o0 && j != d.o1 && j != d.o2 && j != d.o3 {
        assert r.halfedges[j] == m.halfedges[j];
      }
    }
    forall g | 0 <= g < |r.faces| ensures r.faces[g].index == g {
      if g < nf && g != f0 && g != f3 {
        assert r.faces[g] == m.faces[g];
      }
    }
  }

  lemma OnEdgeShapeEdgesOk(m: Mesh, vId: VertexId, d: Diamond, r: Mesh)
    requires IsDiamond(m, d) && DiamondSlots(|m.halfedges|, d) && OnEdgeShape(m, vId, d, r)
    ensures forall j :: 0 <= j < |r.halfedges| ==> EdgeOk(r, j)
  {
    var e := |m.halfedges|;
    forall j | 0 <= j < |r.halfedges| ensures EdgeOk(r, j) {
      if j >= e {
        OnEdgeNewEdgesOk(m, vId, d, r, j - e);
      } else if j == d.he || j == d.hef {
        OnEdgeMiddleEdgesOk(m, vId, d, r, j);
      } else if j == d.o0 || j == d.o1 {
        DiamondSideFlip(m, d, j);
        OnEdgeUpperSidesOk(m, vId, d, r, j);
      } else if j == d.o2 || j == d.o3 {
        DiamondSideFlip(m, d, j);
        OnEdgeLowerSidesOk(m, vId, d, r, j);
      } else {
        OnEdgeOtherEdgesOk(m, vId, d, r, j);
      }
    }
  }

  lemma OnEdgeShapeFacesOk(m: Mesh, vId: VertexId, d: Diamond, r: Mesh)
    requires IsDiamond(m, d) && DiamondSlots(|m.halfedges|, d) && OnEdgeShape(m, vId, d, r)
    ensures forall g :: 0 <= g < |r.faces| ==> FaceOk(r, g)
  {
    var nf := |m.faces|;
    var f0, f3 := FaceOfHe(m, d.he), FaceOfHe(m, d.hef);
    DiamondFacts(m, d);
    forall g | 0 <= g < |r.faces| ensures FaceOk(r, g) {
      if g < nf && g != f0 && g != f3 {
        assert FaceOk(m, g);
        var h := m.faces[g].heid.pos;
        assert m.halfedges[h].fid == At(g);
        assert h != d.he && h != d.hef && h != d.o0 && h != d.o1 && h != d.o2 && h != d.o3;
      }
    }
  }

  // ---------------------------------------------------------------------
  // Neither split creates a boundary edge
  // ---------------------------------------------------------------------

  /** The three-way split adds no boundary edge and moves no endpoint of one. */
  lemma InFaceKeepsBoundary(m: Mesh, vId: VertexId, fId: nat, h0: nat, h1: nat, h2: nat, r: Mesh)
    requires FaceCycle(m, fId, h0, h1, h2) && InFaceShape(m, vId, fId, h0, h1, h2, r)
    ensures KeepsBoundary(m, r)
  {
    forall i | 0 <= i < |r.halfedges| && IsBoundary(r.halfedges[i]) ensures BoundaryKept(m, r, i) {
      if i < |m.halfedges| && i != h0 && i != h1 && i != h2 {
        InFaceOutsideBoundary(m, vId, fId, h0, h1, h2, r, i);
      } else {
        InFaceCycleBoundary(m, vId, fId, h0, h1, h2, r, i);
      }
    }
  }

  lemma InFaceCycleBoundary(m: Mesh, vId: VertexId, fId: nat, h0: nat, h1: nat, h2: nat, r: Mesh, i: nat)
    requires FaceCycle(m, fId, h0, h1, h2) && InFaceShape(m, vId, fId, h0, h1, h2, r)
    requires i < |r.halfedges| && (i >= |m.halfedges| || i == h0 || i == h1 || i == h2)
    requires IsBoundary(r.halfedges[i])
    ensures BoundaryKept(m, r, i)
  {
    CycleFacts(m, h0);
  }

  lemma InFaceOutsideBoundary(m: Mesh, vId: VertexId, fId: nat, h0: nat, h1: nat, h2: nat, r: Mesh, i: nat)
    requires FaceCycle(m, fId, h0, h1, h2) && InFaceShape(m, vId, fId, h0, h1, h2, r)
    requires i < |m.halfedges| && i != h0 && i != h1 && i != h2
    requires IsBoundary(r.halfedges[i])
    ensures BoundaryKept(m, r, i)
  {
    assert FaceOk(m, fId);
    CycleFacts(m, h0);
    assert EdgeOk(m, i);
    var n := Next(m, i);
    assert m.halfedges[i].fid != At(fId);
    assert n != h0 && n != h1 && n != h2;
    assert r.halfedges[i] == m.halfedges[i] && r.halfedges[n] == m.halfedges[n];
  }

  /** The four-way split adds no boundary edge and moves no endpoint of one. */
  lemma OnEdgeKeepsBoundary(m: Mesh, vId: VertexId, d: Diamond, r: Mesh)
    requires IsDiamond(m, d) && DiamondSlots(|m.halfedges|, d) && OnEdgeShape(m, vId, d, r)
    ensures KeepsBoundary(m, r)
  {
    forall i | 0 <= i < |r.halfedges| && IsBoundary(r.halfedges[i]) ensures BoundaryKept(m, r, i) {
      if i < |m.halfedges| && i != d.he && i != d.hef && i != d.o0 && i != d.o1 && i != d.o2 && i != d.o3 {
        OnEdgeOutsideBoundary(m, vId, d, r, i);
      } else {
        OnEdgeDiamondBoundary(m, vId, d, r, i);
      }
    }
  }

  lemma OnEdgeDiamondBoundary(m: Mesh, vId: VertexId, d: Diamond, r: Mesh, i: nat)
    requires IsDiamond(m, d) && DiamondSlots(|m.halfedges|, d) && OnEdgeShape(m, vId, d, r)
    requires i < |r.halfedges|
    requires i >= |m.halfedges| || i == d.he || i == d.hef || i == d.o0 || i == d.o1 || i == d.o2 || i == d.o3
    requires IsBoundary(r.halfedges[i])
    ensures BoundaryKept(m, r, i)
  {
    DiamondFacts(m, d);
  }

  lemma OnEdgeOutsideBoundary(m: Mesh, vId: VertexId, d: Diamond, r: Mesh, i: nat)
    requires IsDiamond(m, d) && DiamondSlots(|m.halfedges|, d) && OnEdgeShape(m, vId, d, r)
    requires i < |m.halfedges| && i != d.he && i != d.hef && i != d.o0 && i != d.o1 && i != d.o2 && i != d.o3
    requires IsBoundary(r.halfedges[i])
    ensures BoundaryKept(m, r, i)
  {
    DiamondFacts(m, d);
    assert EdgeOk(m, i);
    OutsideFlip(m, d, i);
    var n := Next(m, i);
    assert n != d.he && n != d.hef && n != d.o0 && n != d.o1 && n != d.o2 && n != d.o3;
    assert r.halfedges[i] == m.halfedges[i] && r.halfedges[n] == m.halfedges[n];
  }

  /** A new half-edge with only its vid set. */
  function Bare(i: nat, v: VertexId): HalfEdge
  {
    FreshHalfEdge(i).(vid := v)
  }
}
