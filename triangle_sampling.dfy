/**
  getRandomPtOnTri: a point drawn on the parallelogram spanned by the
  triangle's edges, folded back into the triangle by reflecting the draw, and
  a normal interpolated from the corner normals with sub-area weights.
*/
module TriangleSampling {

  import opened Wrappers
  import opened Geometry

  /** Three per-corner vectors of one triangle (positions or normals). */
  datatype Corners = Corners(a: Vec3, b: Vec3, c: Vec3)

  /** A generated surface point and its normal. */
  datatype Sample = Sample(position: Vec3, normal: Vec3)

  /** Both the draw and its reflection failed the inclusion test: the source
      logs and spins forever at this point. */
  datatype SampleError = DoubleRejection

  /** Slack allowed below zero on u and v by the inclusion test. */
  const Tolerance: real := 0.00001

  /** a + r0 (b - a) + r1 (c - a). */
  function ParallelogramPoint(t: Corners, r0: real, r1: real): (p: Vec3)
    ensures Sub(p, t.a) == Add(Scale(r0, Sub(t.b, t.a)), Scale(r1, Sub(t.c, t.a)))
    ensures r0 == 0.0 && r1 == 0.0 ==> p == t.a
    ensures r0 == 1.0 && r1 == 0.0 ==> p == t.b
    ensures r0 == 0.0 && r1 == 1.0 ==> p == t.c
  {
    Add(Add(t.a, Scale(r0, Sub(t.b, t.a))), Scale(r1, Sub(t.c, t.a)))
  }

  /** dot00 * dot11 - dot01 * dot01 of the edge vectors; zero exactly for a
      degenerate (collinear) triangle. */
  function Denominator(t: Corners): real
  {
    var e0, e1 := Sub(t.b, t.a), Sub(t.c, t.a);
    Dot(e0, e0) * Dot(e1, e1) - Dot(e0, e1) * Dot(e0, e1)
  }

  /** The 2x2 dot-product solve for (u, v) with pt - a = u e0 + v e1.  With a
      zero denominator invDenom is infinite and u, v are NaN, so no inclusion
      test can pass: modelled as None. */
  function Solve(t: Corners, pt: Vec3): (r: Option<(real, real)>)
    ensures r.None? <==> Denominator(t) == 0.0
    ensures r.Some? ==>
      var e0, e1, e2 := Sub(t.b, t.a), Sub(t.c, t.a), Sub(pt, t.a);
      && Dot(e0, e0) * r.value.0 + Dot(e0, e1) * r.value.1 == Dot(e0, e2)
      && Dot(e0, e1) * r.value.0 + Dot(e1, e1) * r.value.1 == Dot(e1, e2)
  {
    var e0, e1, e2 := Sub(t.b, t.a), Sub(t.c, t.a), Sub(pt, t.a);
    Cramer(Dot(e0, e0), Dot(e0, e1), Dot(e0, e2), Dot(e1, e1), Dot(e1, e2))
  }

  /** u and v from the five dot products, through invDenom as the source
      computes them: the solution of the normal equations
      dot00 u + dot01 v = dot02, dot01 u + dot11 v = dot12, when the Gram
      determinant is non-zero. */
  function Cramer(dot00: real, dot01: real, dot02: real, dot11: real, dot12: real): (r: Option<(real, real)>)
    ensures r.None? <==> dot00 * dot11 - dot01 * dot01 == 0.0
    ensures r.Some? ==>
      && dot00 * r.value.0 + dot01 * r.value.1 == dot02
      && dot01 * r.value.0 + dot11 * r.value.1 == dot12
  {
    var denom := dot00 * dot11 - dot01 * dot01;
    if denom == 0.0 then None
    else
      var invDenom := 1.0 / denom;
      var p, q := dot11 * dot02 - dot01 * dot12, dot00 * dot12 - dot01 * dot02;
      CramerSolves(dot00, dot01, dot02, dot11, dot12, p * invDenom, q * invDenom);
      Some((p * invDenom, q * invDenom))
  }

  /** The two Cramer quotients satisfy both normal equations. */
  lemma CramerSolves(d00: real, d01: real, d02: real, d11: real, d12: real, u: real, v: real)
    requires d00 * d11 - d01 * d01 != 0.0
    requires u == (d11 * d02 - d01 * d12) * (1.0 / (d00 * d11 - d01 * d01))
    requires v == (d00 * d12 - d01 * d02) * (1.0 / (d00 * d11 - d01 * d01))
    ensures d00 * u + d01 * v == d02 && d01 * u + d11 * v == d12
  {
    var denom := d00 * d11 - d01 * d01;
    var inv := 1.0 / denom;
    var p, q := d11 * d02 - d01 * d12, d00 * d12 - d01 * d02;
    assert d00 * p + d01 * q == d02 * denom;
    assert d01 * p + d11 * q == d12 * denom;
    assert denom * inv == 1.0;
    assert d00 * u + d01 * v == (d00 * p + d01 * q) * inv;
    assert d01 * u + d11 * v == (d01 * p + d11 * q) * inv;
    assert (d02 * denom) * inv == d02 * (denom * inv);
    assert (d12 * denom) * inv == d12 * (denom * inv);
  }

  /** The inclusion test u >= -0.00001, v >= -0.00001, u + v <= 1. */
  predicate Accepts(uv: Option<(real, real)>)
  {
    uv.Some? && uv.value.0 >= -Tolerance && uv.value.1 >= -Tolerance && uv.value.0 + uv.value.1 <= 1.0
  }

  /** w0, w1, w2: the areas of (b, c, pt), (c, a, pt) and (a, c, pt) over the
      area of (a, b, c). */
  function NormalWeights(sqrt: real -> real, t: Corners, pt: Vec3): (real, real, real)
  {
    var total := TriArea(sqrt, t.a, t.b, t.c);
    (Div(TriArea(sqrt, t.b, t.c, pt), total),
     Div(TriArea(sqrt, t.c, t.a, pt), total),
     Div(TriArea(sqrt, t.a, t.c, pt), total))
  }

  /** The weighted sum w0 a_n + w1 b_n + w2 c_n, before flipping and normalising. */
  function WeightedNormal(w: (real, real, real), n: Corners): Vec3
  {
    Add(Add(Scale(w.0, n.a), Scale(w.1, n.b)), Scale(w.2, n.c))
  }

  /** The emitted normal: the weighted normal, negated when flip is set, normalised. */
  function SampleNormal(sqrt: real -> real, flip: bool, t: Corners, n: Corners, pt: Vec3): Vec3
  {
    var m := WeightedNormal(NormalWeights(sqrt, t, pt), n);
    Normalize(sqrt, if flip then Neg(m) else m)
  }

  /** The sample at a point that passed the inclusion test; shared by both
      branches of getRandomPtOnTri, which compute it identically. */
  function Emit(sqrt: real -> real, flip: bool, t: Corners, n: Corners, pt: Vec3): Sample
  {
    Sample(pt, SampleNormal(sqrt, flip, t, n, pt))
  }

  /** getRandomPtOnTri with the two random draws r0, r1 given. */
  function RandomPtOnTri(sqrt: real -> real, flip: bool, t: Corners, n: Corners, r0: real, r1: real)
    : (r: Result<Sample, SampleError>)
    ensures r.Ok? ==> Accepts(Solve(t, r.value.position))
    ensures r.Ok? ==>
      || r.value.position == ParallelogramPoint(t, r0, r1)
      || r.value.position == ParallelogramPoint(t, 1.0 - r0, 1.0 - r1)
    ensures r.Ok? ==> r.value.normal == SampleNormal(sqrt, flip, t, n, r.value.position)
    ensures r.Err? <==>
      !Accepts(Solve(t, ParallelogramPoint(t, r0, r1))) && !Accepts(Solve(t, ParallelogramPoint(t, 1.0 - r0, 1.0 - r1)))
  {
    var pt := ParallelogramPoint(t, r0, r1);
    if Accepts(Solve(t, pt)) then Ok(Emit(sqrt, flip, t, n, pt))
    else
      var reflected := ParallelogramPoint(t, 1.0 - r0, 1.0 - r1);
      if Accepts(Solve(t, reflected)) then Ok(Emit(sqrt, flip, t, n, reflected))
      else Err(DoubleRejection)
  }

  lemma DotLinear(p: Vec3, r0: real, q0: Vec3, r1: real, q1: Vec3)
    ensures Dot(p, Add(Scale(r0, q0), Scale(r1, q1))) == r0 * Dot(p, q0) + r1 * Dot(p, q1)
  {
  }

  /** The solve inverts the 2x2 system it is given: if pt - a = r0 e0 + r1 e1
      then dot02 and dot12 are the corresponding combinations of the Gram
      entries, and a non-zero denominator yields (r0, r1) back. */
  lemma CramerInverts(d00: real, d01: real, d02: real, d11: real, d12: real, r0: real, r1: real)
    requires d00 * d11 - d01 * d01 != 0.0
    requires d02 == r0 * d00 + r1 * d01 && d12 == r0 * d01 + r1 * d11
    ensures Cramer(d00, d01, d02, d11, d12) == Some((r0, r1))
  {
    var denom := d00 * d11 - d01 * d01;
    assert d11 * d02 - d01 * d12 == r0 * denom;
    assert d00 * d12 - d01 * d02 == r1 * denom;
    var inv := 1.0 / denom;
    assert denom * inv == 1.0;
    assert (r0 * denom) * inv == r0 * (denom * inv) == r0;
    assert (r1 * denom) * inv == r1 * (denom * inv) == r1;
    assert (d11 * d02 - d01 * d12) * inv == r0;
    assert (d00 * d12 - d01 * d02) * inv == r1;
    var uv := Cramer(d00, d01, d02, d11, d12);
    assert uv.Some? && uv.value.0 == r0 && uv.value.1 == r1;
  }

  /** In exact arithmetic the solve recovers the draw that produced the point. */
  lemma SolveRecoversDraw(t: Corners, r0: real, r1: real)
    ensures Denominator(t) != 0.0 ==> Solve(t, ParallelogramPoint(t, r0, r1)) == Some((r0, r1))
    ensures Denominator(t) == 0.0 ==> Solve(t, ParallelogramPoint(t, r0, r1)) == None
  {
    var e0, e1 := Sub(t.b, t.a), Sub(t.c, t.a);
    var e2 := Sub(ParallelogramPoint(t, r0, r1), t.a);
    assert e2 == Add(Scale(r0, e0), Scale(r1, e1));
    var d00, d01, d11 := Dot(e0, e0), Dot(e0, e1), Dot(e1, e1);
    DotLinear(e0, r0, e0, r1, e1);
    DotLinear(e1, r0, e0, r1, e1);
    assert Dot(e1, e0) == d01;
    assert Solve(t, ParallelogramPoint(t, r0, r1)) == Cramer(d00, d01, Dot(e0, e2), d11, Dot(e1, e2));
    assert Dot(e0, e2) == r0 * d00 + r1 * d01;
    assert Dot(e1, e2) == r0 * d01 + r1 * d11;
    if Denominator(t) != 0.0 {
      CramerInverts(d00, d01, Dot(e0, e2), d11, Dot(e1, e2), r0, r1);
    }
  }

  /** For draws in [0, 1] on a non-degenerate triangle, a draw rejected by
      the inclusion test is accepted once reflected. */
  lemma ReflectionAccepts(t: Corners, r0: real, r1: real)
    requires 0.0 <= r0 <= 1.0 && 0.0 <= r1 <= 1.0
    requires Denominator(t) != 0.0
    requires !Accepts(Solve(t, ParallelogramPoint(t, r0, r1)))
    ensures Accepts(Solve(t, ParallelogramPoint(t, 1.0 - r0, 1.0 - r1)))
  {
    SolveRecoversDraw(t, r0, r1);
    SolveRecoversDraw(t, 1.0 - r0, 1.0 - r1);
  }

  /** For draws in [0, 1] sampling fails exactly on degenerate triangles, so
      the spin after the second rejection is unreachable otherwise.  An
      accepted sample is the parallelogram point of the draw when
      r0 + r1 <= 1 and of the reflected draw otherwise, and it carries the
      interpolated normal of that point. */
  lemma RandomPtOnTriOutcome(sqrt: real -> real, flip: bool, t: Corners, n: Corners, r0: real, r1: real)
    requires 0.0 <= r0 <= 1.0 && 0.0 <= r1 <= 1.0
    ensures RandomPtOnTri(sqrt, flip, t, n, r0, r1).Ok? <==> Denominator(t) != 0.0
    ensures RandomPtOnTri(sqrt, flip, t, n, r0, r1).Ok? ==>
      var pt := if r0 + r1 <= 1.0 then ParallelogramPoint(t, r0, r1)
                else ParallelogramPoint(t, 1.0 - r0, 1.0 - r1);
      RandomPtOnTri(sqrt, flip, t, n, r0, r1).value == Sample(pt, SampleNormal(sqrt, flip, t, n, pt))
  {
    SolveRecoversDraw(t, r0, r1);
    SolveRecoversDraw(t, 1.0 - r0, 1.0 - r1);
  }

  /** Every emitted point lies in the closed triangle: it is a + u e0 + v e1
      with u, v >= 0 and u + v <= 1. */
  lemma SampleInsideTriangle(sqrt: real -> real, flip: bool, t: Corners, n: Corners, r0: real, r1: real)
    returns (u: real, v: real)
    requires 0.0 <= r0 <= 1.0 && 0.0 <= r1 <= 1.0
    requires RandomPtOnTri(sqrt, flip, t, n, r0, r1).Ok?
    ensures 0.0 <= u && 0.0 <= v && u + v <= 1.0
    ensures RandomPtOnTri(sqrt, flip, t, n, r0, r1).value.position == ParallelogramPoint(t, u, v)
  {
    RandomPtOnTriOutcome(sqrt, flip, t, n, r0, r1);
    if r0 + r1 <= 1.0 {
      u, v := r0, r1;
    } else {
      u, v := 1.0 - r0, 1.0 - r1;
    }
  }

  /** The second and third sub-areas, of (c, a, pt) and (a, c, pt), are the
      same triangle, so w1 == w2 always: the weights are not barycentric. */
  lemma SecondAndThirdWeightsEqual(sqrt: real -> real, t: Corners, pt: Vec3)
    ensures NormalWeights(sqrt, t, pt).1 == NormalWeights(sqrt, t, pt).2
  {
    TriAreaPermutationInvariant(sqrt, t.c, t.a, pt);
  }

  /** The flag negates the emitted normal and leaves the point unchanged. */
  lemma FlipNegatesNormal(sqrt: real -> real, t: Corners, n: Corners, r0: real, r1: real)
    ensures RandomPtOnTri(sqrt, true, t, n, r0, r1).Ok? == RandomPtOnTri(sqrt, false, t, n, r0, r1).Ok?
    ensures RandomPtOnTri(sqrt, true, t, n, r0, r1).Ok? ==>
      RandomPtOnTri(sqrt, true, t, n, r0, r1).value.position == RandomPtOnTri(sqrt, false, t, n, r0, r1).value.position
      && RandomPtOnTri(sqrt, true, t, n, r0, r1).value.normal == Neg(RandomPtOnTri(sqrt, false, t, n, r0, r1).value.normal)
  {
    var p0 := ParallelogramPoint(t, r0, r1);
    var p1 := ParallelogramPoint(t, 1.0 - r0, 1.0 - r1);
    NormalizeOdd(sqrt, WeightedNormal(NormalWeights(sqrt, t, p0), n));
    NormalizeOdd(sqrt, WeightedNormal(NormalWeights(sqrt, t, p1), n));
  }
}
