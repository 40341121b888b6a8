/**
  The 2D vector value type shared by the triangulator and the convex hull.
  Coordinates are exact integers: the float (and int32) arithmetic of the
  original is read as exact arithmetic, so every predicate built on these
  operations becomes an exact sign test.
 */
module Vector2 {

  datatype Vec2 = Vec2(x: int, y: int)

  /** `operator[]`: index 0 selects x, every other index selects y. */
  function Component(v: Vec2, i: int): int
  {
    if i == 0 then v.x else v.y
  }

  function Add(a: Vec2, b: Vec2): Vec2
  {
    Vec2(a.x + b.x, a.y + b.y)
  }

  function Sub(a: Vec2, b: Vec2): Vec2
  {
    Vec2(a.x - b.x, a.y - b.y)
  }

  function Neg(v: Vec2): Vec2
  {
    Vec2(-v.x, -v.y)
  }

  /** `operator==` compares the two components. */
  predicate Equal(a: Vec2, b: Vec2)
  {
    a.x == b.x && a.y == b.y
  }

  /** `operator!=` is written out on its own in the original. */
  predicate NotEqual(a: Vec2, b: Vec2)
  {
    a.x != b.x || a.y != b.y
  }

  /** `v * s` */
  function Scale(v: Vec2, s: int): Vec2
  {
    Vec2(v.x * s, v.y * s)
  }

  /** `s * v`, defined in the original as `v * s`. */
  function ScaleLeft(s: int, v: Vec2): Vec2
  {
    Scale(v, s)
  }

  function LengthSquared(v: Vec2): int
  {
    v.x * v.x + v.y * v.y
  }

  function Cross(a: Vec2, b: Vec2): int
  {
    a.x * b.y - a.y * b.x
  }

  function Dot(a: Vec2, b: Vec2): int
  {
    a.x * b.x + a.y * b.y
  }

  lemma ComponentSelects(v: Vec2, i: int)
    ensures Component(v, 0) == v.x
    ensures i != 0 ==> Component(v, i) == v.y
  {
  }

  /** Subtraction and addition are inverse, and negation is an involution whose sum with v is zero. */
  lemma SubAddRoundTrip(a: Vec2, b: Vec2)
    ensures Add(Sub(a, b), b) == a
    ensures Sub(Add(a, b), b) == a
    ensures Neg(Neg(a)) == a
    ensures Add(a, Neg(a)) == Vec2(0, 0)
    ensures Sub(a, b) == Add(a, Neg(b))
  {
  }

  /** `==` is exactly value equality, and `!=` is exactly its negation. */
  lemma EqualityOperators(a: Vec2, b: Vec2)
    ensures Equal(a, b) <==> a == b
    ensures NotEqual(a, b) <==> !Equal(a, b)
  {
  }

  /** Both scalar products scale each component, and they agree. */
  lemma ScaleCommutes(v: Vec2, s: int)
    ensures ScaleLeft(s, v) == Scale(v, s)
    ensures Component(Scale(v, s), 0) == s * Component(v, 0)
    ensures Component(Scale(v, s), 1) == s * Component(v, 1)
  {
  }

  /** The cross product is alternating and antisymmetric. */
  lemma CrossAlternating(a: Vec2, b: Vec2)
    ensures Cross(a, a) == 0
    ensures Cross(a, b) == -Cross(b, a)
  {
  }

  /** The dot product is symmetric and squared length is the self dot product. */
  lemma DotSymmetric(a: Vec2, b: Vec2)
    ensures Dot(a, b) == Dot(b, a)
    ensures LengthSquared(a) == Dot(a, a)
    ensures LengthSquared(a) >= 0
    ensures LengthSquared(a) == 0 <==> a == Vec2(0, 0)
  {
    if a != Vec2(0, 0) {
      assert a.x * a.x > 0 || a.y * a.y > 0;
    }
  }

  /** Shifting both arguments of a difference by the same vector does not change it. */
  lemma SubTranslation(a: Vec2, b: Vec2, d: Vec2)
    ensures Sub(Add(a, d), Add(b, d)) == Sub(a, b)
  {
  }
}
