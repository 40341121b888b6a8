/**
  The Graham-scan convex hull: the bottom-most point is the pivot in slot
  0, the other indices follow sorted by angle around it, and `advance`
  runs a stack machine over the sorted slots in place: slots 0..top are the
  stack, slot pos is the next point, and each step pushes it or pops.

  The scan as written can read outside `mHullIndices` in two ways (a
  duplicate of the stack's first point, and fewer than two input points);
  `AdvanceAsWritten`, `ExtractAsWritten` and `ComputeHullAsWritten` model
  the code with those reads as explicit outcomes, and `Advance`,
  `ExtractIndices` and `ComputeHull` are the corrected scan the rest of
  the model proves things about.
 */
module ConvexHull {
  import opened Vector2

  /** `mHullIndices`, `mStackTop` and `mProcessPos`. */
  datatype HullState = HullState(hull: seq<nat>, top: nat, pos: nat)

  /**
    One call of `advance`: it returns false (`Stop`), or moves to a new
    state, or (as written) reads `mHullIndices[top - 1]` with top == 0.
   */
  datatype Step = Stop | Moved(next: HullState) | OutOfBounds

  /** What a run hands back: the index list, or a read outside `mHullIndices`. */
  datatype Extracted = Indices(out: seq<nat>) | OutOfRange

  /** Every index names a point. */
  predicate InBounds(s: seq<nat>, n: nat)
  {
    forall k :: 0 <= k < |s| ==> s[k] < n
  }

  predicate Distinct(s: seq<nat>)
  {
    forall i, j :: 0 <= i < j < |s| ==> s[i] != s[j]
  }

  /** `static_cast<uint32_t>` of a size_t: the value modulo 2^32. */
  function IndexToU32(i: nat): nat
  {
    i % 0x1_0000_0000
  }

  // ---------------------------------------------------------------------
  // toLeft
  // ---------------------------------------------------------------------

  /**
    `ConvexHull::toLeft(o, t, p)`: false when p is t itself; otherwise p is
    on the left of the line from o to t or on the line.
   */
  predicate ToLeft(o: Vec2, t: Vec2, p: Vec2)
  {
    if Equal(t, p) then false else Cross(Sub(t, o), Sub(p, o)) >= 0
  }

  /**
    The target itself is never to the left; any other point on the line
    counts as left; and the test only sees differences, so translating all
    three points does not change it.
   */
  lemma ToLeftProperties(o: Vec2, t: Vec2, p: Vec2, d: Vec2)
    ensures !ToLeft(o, t, t)
    ensures p != t && Cross(Sub(t, o), Sub(p, o)) == 0 ==> ToLeft(o, t, p)
    ensures ToLeft(Add(o, d), Add(t, d), Add(p, d)) == ToLeft(o, t, p)
  {
    SubTranslation(t, o, d);
    SubTranslation(p, o, d);
  }

  // ---------------------------------------------------------------------
  // preprocess: findBottomPoint, initIndices, sort
  // ---------------------------------------------------------------------

  /** The test of `findBottomPoint`: a lies lower than b, or level with it and to its left. */
  predicate Lower(a: Vec2, b: Vec2)
  {
    a.y < b.y || (a.y == b.y && a.x < b.x)
  }

  /** `findBottomPoint`: the first point no point is lower than. */
  method FindBottomPoint(pts: seq<Vec2>) returns (k: nat)
    requires |pts| > 0
    ensures k < |pts| && forall j :: 0 <= j < |pts| ==> !Lower(pts[j], pts[k])
    ensures forall j :: 0 <= j < k ==> Lower(pts[k], pts[j])
  {
    k := 0;
    for i := 1 to |pts|
      invariant k < i
      invariant forall j :: 0 <= j < i ==> !Lower(pts[j], pts[k])
      invariant forall j :: 0 <= j < k ==> Lower(pts[k], pts[j])
    {
      if (pts[i].y == pts[k].y && pts[i].x < pts[k].x) || pts[i].y < pts[k].y {
        k := i;
      }
    }
  }

  /**
    `initIndices` on the n zeros the constructor allocates, slot 0 holding
    the pivot: the other indices in increasing order fill slots 1..n-1;
    the stack is slots 0..1 and the scan starts at slot 2.
   */
  method InitIndices(n: nat, pivot: nat) returns (s: HullState)
    requires pivot < n
    ensures |s.hull| == n && s.hull[0] == pivot && s.top == 1 && s.pos == 2
    ensures forall k :: 1 <= k < n ==> s.hull[k] == if k - 1 < pivot then k - 1 else k
  {
    var hull := seq(n, _ => 0)[0 := pivot];
    var idx := 1;
    for i := 0 to n
      invariant idx == if i <= pivot then i + 1 else i
      invariant |hull| == n && hull[0] == pivot
      invariant forall k :: 1 <= k < idx ==> hull[k] == if k - 1 < pivot then k - 1 else k
    {
      if i != pivot {
        hull := hull[idx := i];
        idx := idx + 1;
      }
    }
    s := HullState(hull, 1, 2);
  }

  /** The laid-out indices are a permutation of 0..n-1 with the pivot first. */
  lemma InitIndicesPermutation(n: nat, pivot: nat, hull: seq<nat>)
    requires pivot < n && |hull| == n && hull[0] == pivot
    requires forall k :: 1 <= k < n ==> hull[k] == if k - 1 < pivot then k - 1 else k
    ensures InBounds(hull, n) && Distinct(hull)
    ensures forall i :: 0 <= i < n ==> i in hull
  {
    forall i | 0 <= i < n ensures i in hull {
      if i < pivot {
        assert hull[i + 1] == i;
      } else if i > pivot {
        assert hull[i] == i;
      }
    }
  }

  /**
    The comparator of `sort`: with v0, v1 the vectors from the pivot to
    points i and j, i comes first when v1 is counter-clockwise of v0, or
    collinear with it and longer.
   */
  predicate AngleLess(pts: seq<Vec2>, pivot: nat, i: nat, j: nat)
    requires pivot < |pts| && i < |pts| && j < |pts|
  {
    var v0, v1 := Sub(pts[i], pts[pivot]), Sub(pts[j], pts[pivot]);
    var res := Cross(v0, v1);
    res > 0 || (res == 0 && LengthSquared(v1) > LengthSquared(v0))
  }

  /** The comparator is irreflexive and asymmetric on every input. */
  lemma AngleLessAsymmetric(pts: seq<Vec2>, pivot: nat, i: nat, j: nat)
    requires pivot < |pts| && i < |pts| && j < |pts|
    ensures !AngleLess(pts, pivot, i, i)
    ensures AngleLess(pts, pivot, i, j) ==> !AngleLess(pts, pivot, j, i)
  {
    CrossAlternating(Sub(pts[i], pts[pivot]), Sub(pts[j], pts[pivot]));
  }

  /** No neighbouring pair is out of order under the comparator. */
  predicate AngleSorted(pts: seq<Vec2>, pivot: nat, s: seq<nat>)
    requires pivot < |pts| && InBounds(s, |pts|)
  {
    forall k :: 0 <= k < |s| - 1 ==> !AngleLess(pts, pivot, s[k + 1], s[k])
  }

  /** x inserted into s from the back: it moves left past every entry it comes before. */
  function Insert(pts: seq<Vec2>, pivot: nat, s: seq<nat>, x: nat): (r: seq<nat>)
    requires pivot < |pts| && x < |pts| && InBounds(s, |pts|)
    ensures |r| == |s| + 1 && InBounds(r, |pts|)
    decreases |s|
  {
    if s == [] then [x]
    else if AngleLess(pts, pivot, x, s[|s| - 1]) then Insert(pts, pivot, s[..|s| - 1], x) + [s[|s| - 1]]
    else s + [x]
  }

  /** Insertion adds exactly x, and keeps a sorted sequence sorted. */
  lemma {:induction false} InsertFacts(pts: seq<Vec2>, pivot: nat, s: seq<nat>, x: nat)
    requires pivot < |pts| && x < |pts| && InBounds(s, |pts|)
    ensures multiset(Insert(pts, pivot, s, x)) == multiset(s) + multiset{x}
    ensures var r := Insert(pts, pivot, s, x); r[|r| - 1] == x || (s != [] && r[|r| - 1] == s[|s| - 1])
    ensures AngleSorted(pts, pivot, s) ==> AngleSorted(pts, pivot, Insert(pts, pivot, s, x))
    decreases |s|
  {
    if s != [] {
      var l := s[|s| - 1];
      var front := s[..|s| - 1];
      assert s == front + [l];
      if AngleLess(pts, pivot, x, l) {
        InsertFacts(pts, pivot, front, x);
        var r' := Insert(pts, pivot, front, x);
        assert Insert(pts, pivot, s, x) == r' + [l];
        if AngleSorted(pts, pivot, s) {
          AngleLessAsymmetric(pts, pivot, x, l);
          assert AngleSorted(pts, pivot, front);
          var r := r' + [l];
          forall k | 0 <= k < |r| - 1 ensures !AngleLess(pts, pivot, r[k + 1], r[k]) {
            if k < |r| - 2 {
              assert r[k] == r'[k] && r[k + 1] == r'[k + 1];
            }
          }
        }
      }
    }
  }

  /** `sort`: slot 0 stays, slots 1.. become a sorted permutation of themselves. */
  method Sort(pts: seq<Vec2>, s: HullState) returns (r: HullState)
    requires |s.hull| > 0 && InBounds(s.hull, |pts|)
    ensures r.top == s.top && r.pos == s.pos && |r.hull| == |s.hull| && r.hull[0] == s.hull[0]
    ensures multiset(r.hull[1..]) == multiset(s.hull[1..])
    ensures InBounds(r.hull, |pts|) && AngleSorted(pts, r.hull[0], r.hull[1..])
  {
    var pivot := s.hull[0];
    var sorted: seq<nat> := [];
    for k := 1 to |s.hull|
      invariant |sorted| == k - 1 && InBounds(sorted, |pts|)
      invariant multiset(sorted) == multiset(s.hull[1..k])
      invariant AngleSorted(pts, pivot, sorted)
    {
      InsertFacts(pts, pivot, sorted, s.hull[k]);
      assert s.hull[1..k + 1] == s.hull[1..k] + [s.hull[k]];
      sorted := Insert(pts, pivot, sorted, s.hull[k]);
    }
    assert s.hull[1..] == s.hull[1..|s.hull|];
    r := s.(hull := [pivot] + sorted);
    assert r.hull[1..] == sorted;
  }

  /** A distinct sequence holds each value at most once. */
  lemma {:induction false} DistinctCount(a: seq<nat>, x: nat)
    requires Distinct(a)
    ensures multiset(a)[x] <= 1
  {
    if a != [] {
      assert a == [a[0]] + a[1..];
      assert Distinct(a[1..]);
      DistinctCount(a[1..], x);
      if a[0] == x {
        assert x !in a[1..];
      }
    }
  }

  /** A permutation of a distinct sequence is distinct. */
  lemma PermutationDistinct(a: seq<nat>, b: seq<nat>)
    requires multiset(a) == multiset(b) && Distinct(a)
    ensures Distinct(b)
  {
    forall i, j | 0 <= i < j < |b| ensures b[i] != b[j] {
      if b[i] == b[j] {
        var x := b[i];
        assert b == b[..j] + [b[j]] + b[j + 1..];
        assert x in b[..j];
        assert multiset(b)[x] >= 2;
        DistinctCount(a, x);
      }
    }
  }

  /** What `preprocess` leaves: pivot first, a sorted permutation after it, stack 0..1, scan at 2. */
  predicate Preprocessed(pts: seq<Vec2>, s: HullState)
  {
    && |pts| > 0 && |s.hull| == |pts| && s.top == 1 && s.pos == 2
    && InBounds(s.hull, |pts|) && Distinct(s.hull)
    && (forall j :: 0 <= j < |pts| ==> !Lower(pts[j], pts[s.hull[0]]))
    && (forall j :: 0 <= j < s.hull[0] ==> Lower(pts[s.hull[0]], pts[j]))
    && AngleSorted(pts, s.hull[0], s.hull[1..])
  }

  /** `preprocess`: findBottomPoint, initIndices, sort. */
  method Preprocess(pts: seq<Vec2>) returns (s: HullState)
    requires |pts| > 0
    ensures Preprocessed(pts, s)
  {
    var pivot := FindBottomPoint(pts);
    var laid := InitIndices(|pts|, pivot);
    InitIndicesPermutation(|pts|, pivot, laid.hull);
    s := Sort(pts, laid);
    assert laid.hull == [pivot] + laid.hull[1..];
    assert s.hull == [pivot] + s.hull[1..];
    PermutationDistinct(laid.hull, s.hull);
  }

  // ---------------------------------------------------------------------
  // advance, process
  // ---------------------------------------------------------------------

  /** The state `advance` can read: one slot per point, every slot a point, the stack below the scan. */
  predicate WellFormed(pts: seq<Vec2>, s: HullState)
  {
    |s.hull| == |pts| && InBounds(s.hull, |pts|) && s.top < s.pos
  }

  /** The termination measure: each push or pop lowers it. */
  function Measure(pts: seq<Vec2>, s: HullState): int
  {
    2 * (|pts| - s.pos) + s.top
  }

  /** `hull[++top] = hull[pos++]` */
  function Push(s: HullState): HullState
    requires s.top < s.pos < |s.hull|
  {
    HullState(s.hull[s.top + 1 := s.hull[s.pos]], s.top + 1, s.pos + 1)
  }

  /** `top--` */
  function Pop(s: HullState): HullState
    requires s.top > 0
  {
    s.(top := s.top - 1)
  }

  /**
    `advance` as written: past the last point it stops; otherwise it pushes
    the next point when it is left of the top two stack entries and pops
    otherwise. With top == 0 the read of slot top - 1 wraps below the array.
   */
  function AdvanceAsWritten(pts: seq<Vec2>, s: HullState): (r: Step)
    requires WellFormed(pts, s)
    ensures r.Stop? <==> s.pos >= |pts|
    ensures r.OutOfBounds? <==> s.pos < |pts| && s.top == 0
    ensures r.Moved? ==> WellFormed(pts, r.next) && Measure(pts, r.next) < Measure(pts, s)
  {
    if s.pos >= |pts| then Stop
    else if s.top == 0 then OutOfBounds
    else if ToLeft(pts[s.hull[s.top - 1]], pts[s.hull[s.top]], pts[s.hull[s.pos]]) then Moved(Push(s))
    else Moved(Pop(s))
  }

  /**
    `advance` corrected: a stack holding only the pivot takes the next point
    without a test, so no step reads below the array.
   */
  function Advance(pts: seq<Vec2>, s: HullState): (r: Step)
    requires WellFormed(pts, s)
    ensures !r.OutOfBounds?
    ensures r.Stop? <==> s.pos >= |pts|
    ensures r.Moved? ==> WellFormed(pts, r.next) && Measure(pts, r.next) < Measure(pts, s)
  {
    if s.pos >= |pts| then Stop
    else if s.top == 0 then Moved(Push(s))
    else if ToLeft(pts[s.hull[s.top - 1]], pts[s.hull[s.top]], pts[s.hull[s.pos]]) then Moved(Push(s))
    else Moved(Pop(s))
  }

  /** Wherever the code as written does not fault, the corrected step agrees with it. */
  lemma AdvanceAgrees(pts: seq<Vec2>, s: HullState)
    requires WellFormed(pts, s)
    ensures !AdvanceAsWritten(pts, s).OutOfBounds? ==> Advance(pts, s) == AdvanceAsWritten(pts, s)
    ensures AdvanceAsWritten(pts, s).OutOfBounds? <==> s.pos < |pts| && s.top == 0
  {
  }

  /** Every turn along the stack is a left turn (or straight on). */
  predicate LeftChain(pts: seq<Vec2>, h: seq<nat>, top: nat)
    requires top < |h| && InBounds(h, |pts|)
  {
    forall k :: 1 <= k < top ==> ToLeft(pts[h[k - 1]], pts[h[k]], pts[h[k + 1]])
  }

  /**
    The scan invariant against the sorted layout: slots from pos on are
    untouched, slot 0 keeps the pivot, the stack holds distinct points none
    of which is still to come, its turns are all left turns, and the stack
    is only ever down to the pivot while points remain.
   */
  predicate ScanInv(pts: seq<Vec2>, sorted: seq<nat>, s: HullState)
  {
    var n := |pts|;
    && WellFormed(pts, s) && s.pos <= n && |sorted| == n && InBounds(sorted, n) && Distinct(sorted)
    && s.hull[0] == sorted[0]
    && (forall k :: s.pos <= k < n ==> s.hull[k] == sorted[k])
    && Distinct(s.hull[..s.top + 1])
    && (forall k, j :: 0 <= k <= s.top && s.pos <= j < n ==> s.hull[k] != sorted[j])
    && LeftChain(pts, s.hull, s.top)
    && (s.top >= 1 || s.pos < n)
  }

  /** The sorted layout itself satisfies the scan invariant. */
  lemma ScanStart(pts: seq<Vec2>, s: HullState)
    requires Preprocessed(pts, s) && |pts| >= 2
    ensures ScanInv(pts, s.hull, s)
  {
  }

  /** A push keeps the scan invariant when the pushed point turns left, or the stack is just the pivot. */
  lemma PushKeepsScan(pts: seq<Vec2>, sorted: seq<nat>, s: HullState)
    requires ScanInv(pts, sorted, s) && s.pos < |pts|
    requires s.top >= 1 ==> ToLeft(pts[s.hull[s.top - 1]], pts[s.hull[s.top]], pts[s.hull[s.pos]])
    ensures ScanInv(pts, sorted, Push(s))
  {
    var r := Push(s);
    var n := |pts|;
    assert s.hull[s.pos] == sorted[s.pos];
    var before, after := s.hull[..s.top + 1], r.hull[..r.top + 1];
    forall i, j | 0 <= i < j < |after| ensures after[i] != after[j] {
      if j < r.top {
        assert before[i] != before[j];
      }
    }
    forall k, j | 0 <= k <= r.top && r.pos <= j < n ensures r.hull[k] != sorted[j] {
      if k == r.top {
        assert sorted[s.pos] != sorted[j];
      }
    }
    forall k | 1 <= k < r.top ensures ToLeft(pts[r.hull[k - 1]], pts[r.hull[k]], pts[r.hull[k + 1]]) {
    }
  }

  /** A pop keeps the scan invariant. */
  lemma PopKeepsScan(pts: seq<Vec2>, sorted: seq<nat>, s: HullState)
    requires ScanInv(pts, sorted, s) && s.pos < |pts| && s.top >= 1
    ensures ScanInv(pts, sorted, Pop(s))
  {
    var r := Pop(s);
    assert r.hull[..r.top + 1] == s.hull[..s.top + 1][..r.top + 1];
  }

  /** Each corrected step keeps the scan invariant. */
  lemma AdvanceKeepsScan(pts: seq<Vec2>, sorted: seq<nat>, s: HullState)
    requires ScanInv(pts, sorted, s)
    ensures Advance(pts, s).Moved? ==> ScanInv(pts, sorted, Advance(pts, s).next)
  {
    if s.pos < |pts| {
      if s.top == 0 || ToLeft(pts[s.hull[s.top - 1]], pts[s.hull[s.top]], pts[s.hull[s.pos]]) {
        PushKeepsScan(pts, sorted, s);
      } else {
        PopKeepsScan(pts, sorted, s);
      }
    }
  }

  /** `process`: advance until it reports the end. */
  method Process(pts: seq<Vec2>, ghost sorted: seq<nat>, s: HullState) returns (r: HullState)
    requires WellFormed(pts, s)
    ensures WellFormed(pts, r) && Advance(pts, r) == Stop
    ensures ScanInv(pts, sorted, s) ==> ScanInv(pts, sorted, r)
  {
    r := s;
    while true
      invariant WellFormed(pts, r)
      invariant ScanInv(pts, sorted, s) ==> ScanInv(pts, sorted, r)
      decreases Measure(pts, r)
    {
      var step := Advance(pts, r);
      if !step.Moved? {
        break;
      }
      if ScanInv(pts, sorted, s) {
        AdvanceKeepsScan(pts, sorted, r);
      }
      r := step.next;
    }
  }

  // ---------------------------------------------------------------------
  // extractLineSegmentIndices, and the whole run
  // ---------------------------------------------------------------------

  /** `extractLineSegmentIndices` as written: empty for top == 0, else slots 0..top, read even past the array. */
  function ExtractAsWritten(s: HullState): (r: Extracted)
    ensures r.OutOfRange? <==> s.top != 0 && s.top >= |s.hull|
    ensures r.Indices? && s.top != 0 ==> |r.out| == s.top + 1
  {
    if s.top == 0 then Indices([])
    else if s.top >= |s.hull| then OutOfRange
    else Indices(seq(s.top + 1, k requires 0 <= k < s.top + 1 => IndexToU32(s.hull[k])))
  }

  /** `extractLineSegmentIndices` corrected: a stack top outside the array yields no segments. */
  function ExtractIndices(s: HullState): (r: seq<nat>)
    ensures |r| <= |s.hull| && (r == [] <==> s.top == 0 || s.top >= |s.hull|)
    ensures r != [] ==> |r| == s.top + 1
  {
    if s.top == 0 || s.top >= |s.hull| then []
    else seq(s.top + 1, k requires 0 <= k < s.top + 1 => IndexToU32(s.hull[k]))
  }

  /** Wherever the code as written reads inside the array, the corrected extraction agrees. */
  lemma ExtractAgrees(s: HullState)
    ensures ExtractAsWritten(s).Indices? ==> ExtractAsWritten(s).out == ExtractIndices(s)
  {
  }

  /**
    The hull as the application drives it, corrected: constructor, then
    `process`, then `extractLineSegmentIndices`. With at least two points
    the result starts at the bottom-most point, has at least two entries,
    names distinct points, and turns left (or straight on) at every inner
    entry.
   */
  method ComputeHull(pts: seq<Vec2>) returns (out: seq<nat>)
    ensures |pts| < 2 ==> out == []
    ensures |pts| >= 2 ==> |out| >= 2
    ensures |pts| <= 0x1_0000_0000 ==> InBounds(out, |pts|) && Distinct(out)
    ensures |pts| <= 0x1_0000_0000 ==> forall k :: 1 <= k < |out| - 1 ==> ToLeft(pts[out[k - 1]], pts[out[k]], pts[out[k + 1]])
    ensures |pts| >= 2 && |pts| <= 0x1_0000_0000 ==> forall j :: 0 <= j < |pts| ==> !Lower(pts[j], pts[out[0]])
  {
    if |pts| == 0 {
      return [];
    }
    var s := Preprocess(pts);
    if |pts| == 1 {
      out := ExtractIndices(s);
      return;
    }
    ScanStart(pts, s);
    var r := Process(pts, s.hull, s);
    out := ExtractIndices(r);
    if |pts| <= 0x1_0000_0000 {
      StackOutput(pts, s.hull, r, out);
    }
  }

  /** The extracted stack of a finished scan carries the scan invariant's facts. */
  lemma StackOutput(pts: seq<Vec2>, sorted: seq<nat>, r: HullState, out: seq<nat>)
    requires ScanInv(pts, sorted, r) && r.pos >= |pts| && |pts| <= 0x1_0000_0000 && out == ExtractIndices(r)
    ensures |out| >= 2 && out == r.hull[..r.top + 1] && out[0] == sorted[0]
    ensures InBounds(out, |pts|) && Distinct(out)
    ensures forall k :: 1 <= k < |out| - 1 ==> ToLeft(pts[out[k - 1]], pts[out[k]], pts[out[k + 1]])
  {
    forall k | 0 <= k < |out| ensures out[k] == r.hull[k] {
      assert r.hull[k] < |pts|;
    }
  }

  /**
    The run as written. For empty input the constructor leaves top and pos
    uninitialised; their values are the parameters here. A run that reads
    inside the array throughout yields what the corrected run yields.
   */
  method ComputeHullAsWritten(pts: seq<Vec2>, initialTop: nat, initialPos: nat) returns (r: Extracted)
    ensures |pts| == 0 ==> r == ExtractAsWritten(HullState([], initialTop, initialPos))
    ensures |pts| == 1 ==> r == OutOfRange
    ensures |pts| >= 2 && r.Indices? ==> |r.out| >= 2
    ensures |pts| >= 2 && |pts| <= 0x1_0000_0000 && r.Indices? ==> InBounds(r.out, |pts|) && Distinct(r.out)
    ensures |pts| >= 2 && |pts| <= 0x1_0000_0000 && r.Indices? ==>
      forall k :: 1 <= k < |r.out| - 1 ==> ToLeft(pts[r.out[k - 1]], pts[r.out[k]], pts[r.out[k + 1]])
    ensures |pts| >= 2 && |pts| <= 0x1_0000_0000 && r.Indices? ==>
      forall j :: 0 <= j < |pts| ==> !Lower(pts[j], pts[r.out[0]])
  {
    if |pts| == 0 {
      return ExtractAsWritten(HullState([], initialTop, initialPos));
    }
    var s := Preprocess(pts);
    ghost var sorted := s.hull;
    if |pts| >= 2 {
      ScanStart(pts, s);
    }
    while true
      invariant WellFormed(pts, s)
      invariant |pts| >= 2 ==> ScanInv(pts, sorted, s)
      invariant |pts| == 1 ==> s.top == 1
      decreases Measure(pts, s)
    {
      var step := AdvanceAsWritten(pts, s);
      if step.OutOfBounds? {
        return OutOfRange;
      }
      if step.Stop? {
        break;
      }
      AdvanceAgrees(pts, s);
      if |pts| >= 2 {
        AdvanceKeepsScan(pts, sorted, s);
      }
      s := step.next;
    }
    r := ExtractAsWritten(s);
    ExtractAgrees(s);
    if |pts| >= 2 && |pts| <= 0x1_0000_0000 {
      StackOutput(pts, sorted, s, r.out);
    }
  }

  // ---------------------------------------------------------------------
  // Where the code as written reads outside the array
  // ---------------------------------------------------------------------

  /** Three points, the last two equal. */
  const DuplicatePoints: seq<Vec2> := [Vec2(0, 0), Vec2(1, 0), Vec2(1, 0)]

  /**
    With a duplicate of the first point after the pivot, `toLeft` of the
    point against itself is false, the stack is popped down to the pivot,
    and the next `advance` reads slot top - 1 = -1. The corrected step pushes.
   */
  lemma DuplicateReadsBelowStack(s: HullState)
    requires Preprocessed(DuplicatePoints, s)
    ensures WellFormed(DuplicatePoints, s) && s.top >= 1 && WellFormed(DuplicatePoints, Pop(s))
    ensures AdvanceAsWritten(DuplicatePoints, s) == Moved(Pop(s))
    ensures AdvanceAsWritten(DuplicatePoints, Pop(s)) == OutOfBounds
    ensures Advance(DuplicatePoints, Pop(s)).Moved?
  {
    var pts, h := DuplicatePoints, s.hull;
    assert forall j :: 0 <= j < 3 ==> pts[j].y == 0 && pts[j].x >= 0;
    assert h[0] == 0 || Lower(pts[h[0]], pts[0]);
    assert h[0] == 0;
    assert h[0] != h[1] && h[0] != h[2] && h[1] != h[2];
    assert pts[h[1]] == pts[h[2]] == Vec2(1, 0);
    assert !ToLeft(pts[h[0]], pts[h[1]], pts[h[2]]);
  }

  /** With one point the scan stops at once and extraction reads slot 1 of a one-slot array; corrected, it yields nothing. */
  lemma SinglePointReadsPastEnd(p: Vec2, s: HullState)
    requires Preprocessed([p], s)
    ensures WellFormed([p], s) && AdvanceAsWritten([p], s) == Stop
    ensures ExtractAsWritten(s) == OutOfRange && ExtractIndices(s) == []
  {
  }

  /** With no points and any nonzero uninitialised top, extraction reads past the empty array. */
  lemma EmptyInputReadsPastEnd(initialTop: nat, initialPos: nat)
    requires initialTop != 0
    ensures ExtractAsWritten(HullState([], initialTop, initialPos)) == OutOfRange
    ensures ExtractIndices(HullState([], 0, 0)) == []
  {
  }
}
