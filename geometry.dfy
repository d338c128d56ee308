/**
  Vector arithmetic on glm::vec3 and the Heron triangle area of sampler.h.
  Floating-point components are idealised as reals.  The square root is the
  one primitive left abstract: every member that needs it takes it as a
  parameter `sqrt`, and glm's `distance` and `normalize` are defined over it
  the way glm defines them.
*/
module Geometry {

  datatype Vec3 = Vec3(x: real, y: real, z: real)

  function Add(p: Vec3, q: Vec3): Vec3 { Vec3(p.x + q.x, p.y + q.y, p.z + q.z) }

  function Sub(p: Vec3, q: Vec3): Vec3 { Vec3(p.x - q.x, p.y - q.y, p.z - q.z) }

  function Scale(k: real, p: Vec3): Vec3 { Vec3(k * p.x, k * p.y, k * p.z) }

  function Neg(p: Vec3): Vec3 { Vec3(-p.x, -p.y, -p.z) }

  function Dot(p: Vec3, q: Vec3): real { p.x * q.x + p.y * q.y + p.z * q.z }

  /** Real division made total: where IEEE arithmetic would give an infinity
      or NaN (a zero divisor) the model yields 0. */
  function Div(x: real, y: real): real { if y == 0.0 then 0.0 else x / y }

  /** glm::distance(p, q): the length of q - p. */
  function Distance(sqrt: real -> real, p: Vec3, q: Vec3): real
  {
    sqrt(Dot(Sub(q, p), Sub(q, p)))
  }

  /** glm::normalize(v): v scaled by the inverse of its length. */
  function Normalize(sqrt: real -> real, v: Vec3): Vec3
  {
    Scale(Div(1.0, sqrt(Dot(v, v))), v)
  }

  lemma DistanceSymmetric(sqrt: real -> real, p: Vec3, q: Vec3)
    ensures Distance(sqrt, p, q) == Distance(sqrt, q, p)
  {
    assert Dot(Sub(q, p), Sub(q, p)) == Dot(Sub(p, q), Sub(p, q));
  }

  /** Normalisation commutes with negation, whatever sqrt is. */
  lemma NormalizeOdd(sqrt: real -> real, v: Vec3)
    ensures Normalize(sqrt, Neg(v)) == Neg(Normalize(sqrt, v))
  {
    assert Dot(Neg(v), Neg(v)) == Dot(v, v);
  }

  /** The radicand s(s - e0)(s - e1)(s - e2) of Heron's formula, s the semi-perimeter. */
  function HeronRadicand(e0: real, e1: real, e2: real): real
  {
    var s := (e0 + e1 + e2) / 2.0;
    s * (s - e0) * (s - e1) * (s - e2)
  }

  /** The radicand depends only on the multiset of the three edge lengths. */
  lemma HeronRadicandSymmetric(e0: real, e1: real, e2: real)
    ensures HeronRadicand(e0, e1, e2) == HeronRadicand(e1, e0, e2)
    ensures HeronRadicand(e0, e1, e2) == HeronRadicand(e0, e2, e1)
    ensures HeronRadicand(e0, e1, e2) == HeronRadicand(e2, e1, e0)
    ensures HeronRadicand(e0, e1, e2) == HeronRadicand(e1, e2, e0)
    ensures HeronRadicand(e0, e1, e2) == HeronRadicand(e2, e0, e1)
  {
    var s := (e0 + e1 + e2) / 2.0;
    var p, q, r := s - e0, s - e1, s - e2;
    assert s * p * q * r == s * q * p * r;
    assert s * p * q * r == s * p * r * q;
    assert s * p * q * r == s * r * q * p;
    assert s * p * q * r == s * q * r * p;
    assert s * p * q * r == s * r * p * q;
  }

  /** A right triangle with unit legs (hypotenuse sqrt 2) has radicand 1/4,
      i.e. area 1/2. */
  lemma HeronRightTriangle(root2: real)
    requires root2 * root2 == 2.0
    ensures HeronRadicand(1.0, 1.0, root2) == 0.25
  {
    var s := (1.0 + 1.0 + root2) / 2.0;
    var p, q := s - 1.0, s - root2;
    assert 2.0 * p == root2;
    assert 2.0 * s == 2.0 + root2 && 2.0 * q == 2.0 - root2;
    assert (2.0 * s) * (2.0 * q) == 4.0 - root2 * root2 == 2.0;
    assert s * q == 0.5;
    assert (2.0 * p) * (2.0 * p) == 2.0;
    assert p * p == 0.5;
    assert HeronRadicand(1.0, 1.0, root2) == s * p * p * q == (s * q) * (p * p);
  }

  /** A collinear triangle, one edge the sum of the other two, has radicand 0. */
  lemma HeronCollinear(e0: real, e1: real)
    ensures HeronRadicand(e0, e1, e0 + e1) == 0.0
  {
    var s := (e0 + e1 + (e0 + e1)) / 2.0;
    assert s - (e0 + e1) == 0.0;
  }

  /** getTriArea: Heron's formula over the edges |ab|, |bc|, |ca|. */
  function TriArea(sqrt: real -> real, a: Vec3, b: Vec3, c: Vec3): real
  {
    sqrt(HeronRadicand(Distance(sqrt, a, b), Distance(sqrt, b, c), Distance(sqrt, c, a)))
  }

  /** The area does not depend on the order in which the corners are given. */
  lemma TriAreaPermutationInvariant(sqrt: real -> real, a: Vec3, b: Vec3, c: Vec3)
    ensures TriArea(sqrt, a, b, c) == TriArea(sqrt, b, c, a)
    ensures TriArea(sqrt, a, b, c) == TriArea(sqrt, c, a, b)
    ensures TriArea(sqrt, a, b, c) == TriArea(sqrt, a, c, b)
    ensures TriArea(sqrt, a, b, c) == TriArea(sqrt, b, a, c)
    ensures TriArea(sqrt, a, b, c) == TriArea(sqrt, c, b, a)
  {
    var ab, bc, ca := Distance(sqrt, a, b), Distance(sqrt, b, c), Distance(sqrt, c, a);
    DistanceSymmetric(sqrt, a, b);
    DistanceSymmetric(sqrt, b, c);
    DistanceSymmetric(sqrt, c, a);
    HeronRadicandSymmetric(ab, bc, ca);
  }

  /** getTriArea on the corners (0,0,0), (1,0,0), (0,1,0): edges 1, sqrt 2
      and 1, hence area sqrt(1/4) = 1/2, for any square root that is exact
      on 1 and 1/4 and whose value root2 at 2 squares to 2. */
  lemma TriAreaRightTriangle(sqrt: real -> real, a: Vec3, b: Vec3, c: Vec3, root2: real)
    requires a == Vec3(0.0, 0.0, 0.0) && b == Vec3(1.0, 0.0, 0.0) && c == Vec3(0.0, 1.0, 0.0)
    requires sqrt(1.0) == 1.0 && sqrt(2.0) == root2 && root2 * root2 == 2.0 && sqrt(0.25) == 0.5
    ensures TriArea(sqrt, a, b, c) == 0.5
  {
    RightCornerEdges(sqrt, a, b, c);
    TriAreaOfEdges(sqrt, a, b, c, 1.0, root2, 1.0);
    HeronRightTriangle(root2);
    HeronRadicandSymmetric(1.0, 1.0, root2);
  }

  /** The edges of (0,0,0), (1,0,0), (0,1,0) have squared lengths 1, 2 and 1. */
  lemma RightCornerEdges(sqrt: real -> real, a: Vec3, b: Vec3, c: Vec3)
    requires a == Vec3(0.0, 0.0, 0.0) && b == Vec3(1.0, 0.0, 0.0) && c == Vec3(0.0, 1.0, 0.0)
    ensures Distance(sqrt, a, b) == sqrt(1.0)
    ensures Distance(sqrt, b, c) == sqrt(2.0)
    ensures Distance(sqrt, c, a) == sqrt(1.0)
  {
    assert Sub(b, a) == Vec3(1.0, 0.0, 0.0) && Dot(Sub(b, a), Sub(b, a)) == 1.0;
    assert Sub(c, b) == Vec3(-1.0, 1.0, 0.0) && Dot(Sub(c, b), Sub(c, b)) == 2.0;
    assert Sub(a, c) == Vec3(0.0, -1.0, 0.0) && Dot(Sub(a, c), Sub(a, c)) == 1.0;
    DistanceOfSquare(sqrt, a, b, 1.0);
    DistanceOfSquare(sqrt, b, c, 2.0);
    DistanceOfSquare(sqrt, c, a, 1.0);
  }

  /** The distance of two points whose squared offset is known. */
  lemma DistanceOfSquare(sqrt: real -> real, p: Vec3, q: Vec3, r: real)
    requires Dot(Sub(q, p), Sub(q, p)) == r
    ensures Distance(sqrt, p, q) == sqrt(r)
  {
  }

  /** getTriArea on the collinear corners (0,0,0), (1,0,0), (2,0,0): edges 1,
      1 and 2, hence area sqrt(0) = 0, for any square root that is exact on
      0, 1 and 4. */
  lemma TriAreaCollinearCorners(sqrt: real -> real, a: Vec3, b: Vec3, c: Vec3)
    requires a == Vec3(0.0, 0.0, 0.0) && b == Vec3(1.0, 0.0, 0.0) && c == Vec3(2.0, 0.0, 0.0)
    requires sqrt(0.0) == 0.0 && sqrt(1.0) == 1.0 && sqrt(4.0) == 2.0
    ensures TriArea(sqrt, a, b, c) == 0.0
  {
    assert Distance(sqrt, a, b) == 1.0;
    assert Distance(sqrt, b, c) == 1.0;
    assert Distance(sqrt, c, a) == 2.0;
    TriAreaOfEdges(sqrt, a, b, c, 1.0, 1.0, 2.0);
    HeronCollinear(1.0, 1.0);
  }

  /** getTriArea of corners whose edge lengths are known. */
  lemma TriAreaOfEdges(sqrt: real -> real, a: Vec3, b: Vec3, c: Vec3, e0: real, e1: real, e2: real)
    requires Distance(sqrt, a, b) == e0 && Distance(sqrt, b, c) == e1 && Distance(sqrt, c, a) == e2
    ensures TriArea(sqrt, a, b, c) == sqrt(HeronRadicand(e0, e1, e2))
  {
  }
}
