/**
  The in-circle test: the sign of the paraboloid-lifted determinant, reduced
  from 4x4 to 3x3 by subtracting the query point's row from the other three.
 */
module Utils {
  import opened Vector2

  /** One row of a 3x3 matrix. */
  datatype Row = Row(c0: int, c1: int, c2: int)

  /** The six-term (rule of Sarrus) expansion, in the order the original sums it. */
  function Det3(r0: Row, r1: Row, r2: Row): int
  {
    r0.c0 * r1.c1 * r2.c2 +
    r0.c1 * r1.c2 * r2.c0 +
    r0.c2 * r1.c0 * r2.c1 -
    r0.c2 * r1.c1 * r2.c0 -
    r0.c1 * r1.c0 * r2.c2 -
    r0.c0 * r1.c2 * r2.c1
  }

  /** The row of a circle point Q, taken relative to the query point P. */
  function LiftedRow(q: Vec2, p: Vec2): Row
  {
    Row(q.x - p.x, q.y - p.y, LengthSquared(q) - LengthSquared(p))
  }

  function InCircleDet(a: Vec2, b: Vec2, c: Vec2, p: Vec2): int
  {
    Det3(LiftedRow(a, p), LiftedRow(b, p), LiftedRow(c, p))
  }

  /** `Utils::inCircle`: true exactly when the reduced determinant is strictly positive. */
  predicate InCircle(a: Vec2, b: Vec2, c: Vec2, p: Vec2)
  {
    InCircleDet(a, b, c, p) > 0
  }

  /**
    The 4x4 determinant whose rows are (x, y, l, 1), expanded along the
    column of ones (cofactor signs -, +, -, +).
   */
  function Det4Ones(r0: Row, r1: Row, r2: Row, r3: Row): int
  {
    - Det3(r1, r2, r3) + Det3(r0, r2, r3) - Det3(r0, r1, r3) + Det3(r0, r1, r2)
  }

  /** The unreduced lifted matrix of the comment above the original's computation. */
  function LiftedDet4(a: Vec2, b: Vec2, c: Vec2, p: Vec2): int
  {
    Det4Ones(
      Row(a.x, a.y, LengthSquared(a)),
      Row(b.x, b.y, LengthSquared(b)),
      Row(c.x, c.y, LengthSquared(c)),
      Row(p.x, p.y, LengthSquared(p)))
  }

  function Minus(r: Row, s: Row): Row
  {
    Row(r.c0 - s.c0, r.c1 - s.c1, r.c2 - s.c2)
  }

  /** The determinant is linear in each row. */
  lemma Det3Linear(r: Row, s: Row, u: Row, v: Row)
    ensures Det3(Minus(r, s), u, v) == Det3(r, u, v) - Det3(s, u, v)
    ensures Det3(u, Minus(r, s), v) == Det3(u, r, v) - Det3(u, s, v)
    ensures Det3(u, v, Minus(r, s)) == Det3(u, v, r) - Det3(u, v, s)
  {
  }

  /** Two equal rows give a zero determinant. */
  lemma Det3RepeatedRow(r: Row, s: Row)
    ensures Det3(r, r, s) == 0 && Det3(r, s, r) == 0 && Det3(s, r, r) == 0
  {
  }

  /** Subtracting the last row from the other three and expanding gives the 3x3 determinant. */
  lemma Det4OnesReduces(a: Row, b: Row, c: Row, d: Row)
    ensures Det4Ones(a, b, c, d) == Det3(Minus(a, d), Minus(b, d), Minus(c, d))
  {
    var bd, cd := Minus(b, d), Minus(c, d);
    Det3Linear(a, d, bd, cd);
    Det3Linear(b, d, d, cd);
    Det3Linear(c, d, d, b);
    Det3Linear(b, d, a, cd);
    Det3Linear(c, d, a, b);
    Det3Linear(c, d, a, d);
    Det3RepeatedRow(d, cd);
    Det3RepeatedRow(d, b);
    Det3RepeatedRow(d, a);
    Det3RowPermutations(a, c, d);
    Det3RowPermutations(b, c, d);
    Det3RowPermutations(a, d, c);
  }

  /** The reduced 3x3 determinant equals the 4x4 lifted determinant. */
  lemma ReducedEqualsLifted(a: Vec2, b: Vec2, c: Vec2, p: Vec2)
    ensures InCircleDet(a, b, c, p) == LiftedDet4(a, b, c, p)
  {
    var rp := Row(p.x, p.y, LengthSquared(p));
    Det4OnesReduces(Row(a.x, a.y, LengthSquared(a)), Row(b.x, b.y, LengthSquared(b)),
                    Row(c.x, c.y, LengthSquared(c)), rp);
  }

  /** A query point equal to one of the three circle points gives a zero row, hence `false`. */
  lemma OnCircleVertexIsNotInside(a: Vec2, b: Vec2, c: Vec2, p: Vec2)
    requires p == a || p == b || p == c
    ensures InCircleDet(a, b, c, p) == 0
    ensures !InCircle(a, b, c, p)
  {
  }

  /** Rotating the three rows is an even permutation; swapping two is odd. */
  lemma Det3RowPermutations(r0: Row, r1: Row, r2: Row)
    ensures Det3(r1, r2, r0) == Det3(r0, r1, r2)
    ensures Det3(r1, r0, r2) == -Det3(r0, r1, r2)
    ensures Det3(r0, r2, r1) == -Det3(r0, r1, r2)
  {
  }

  /** Cyclic rotation of (a, b, c) keeps the verdict; swapping two circle points negates the determinant. */
  lemma InCircleSymmetries(a: Vec2, b: Vec2, c: Vec2, p: Vec2)
    ensures InCircleDet(b, c, a, p) == InCircleDet(a, b, c, p)
    ensures InCircle(b, c, a, p) <==> InCircle(a, b, c, p)
    ensures InCircleDet(b, a, c, p) == -InCircleDet(a, b, c, p)
    ensures InCircleDet(a, c, b, p) == -InCircleDet(a, b, c, p)
  {
    Det3RowPermutations(LiftedRow(a, p), LiftedRow(b, p), LiftedRow(c, p));
  }
}
