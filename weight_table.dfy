/**
  The per-triangle area table built by the Sampler constructor: the area of
  every triangle of the triangle soup, their running total, and the table
  normalised by that total.
*/
module WeightTable {

  import opened Geometry

  /** Left-to-right sum, in the order the constructor accumulates it. */
  function Sum(s: seq<real>): real
  {
    if s == [] then 0.0 else Sum(s[..|s| - 1]) + s[|s| - 1]
  }

  /** Areas of the complete vertex triples of the soup, in order; vertices
      left over after the last triple are ignored. */
  function Areas(sqrt: real -> real, tris: seq<Vec3>): seq<real>
    decreases |tris|
  {
    if |tris| < 3 then [] else [TriArea(sqrt, tris[0], tris[1], tris[2])] + Areas(sqrt, tris[3..])
  }

  /** Triangle i is made of slots 3i, 3i+1, 3i+2, and there are |tris| / 3 of them. */
  lemma {:induction false} AreasAt(sqrt: real -> real, tris: seq<Vec3>)
    ensures |Areas(sqrt, tris)| == |tris| / 3
    ensures forall i :: 0 <= i < |tris| / 3 ==>
      Areas(sqrt, tris)[i] == TriArea(sqrt, tris[3 * i], tris[3 * i + 1], tris[3 * i + 2])
    decreases |tris|
  {
    if |tris| >= 3 {
      var rest := tris[3..];
      AreasAt(sqrt, rest);
      forall i | 1 <= i < |tris| / 3
        ensures Areas(sqrt, tris)[i] == TriArea(sqrt, tris[3 * i], tris[3 * i + 1], tris[3 * i + 2])
      {
        assert Areas(sqrt, tris)[i] == Areas(sqrt, rest)[i - 1];
        assert rest[3 * (i - 1)] == tris[3 * i];
        assert rest[3 * (i - 1) + 1] == tris[3 * i + 1];
        assert rest[3 * (i - 1) + 2] == tris[3 * i + 2];
      }
    }
  }

  /** Every entry divided by t (by Div, so a zero t gives zeros). */
  function DividedBy(s: seq<real>, t: real): (r: seq<real>)
    ensures |r| == |s|
  {
    seq(|s|, i requires 0 <= i < |s| => Div(s[i], t))
  }

  /** The weight table after construction: every area divided by the total.
      When the total is 0 the source's division yields NaN weights, which the
      model replaces by zeros. */
  function Table(areas: seq<real>): (w: seq<real>)
    ensures |w| == |areas|
  {
    DividedBy(areas, Sum(areas))
  }

  lemma {:induction false} DividedBySum(s: seq<real>, t: real)
    requires t != 0.0
    ensures Sum(DividedBy(s, t)) == Sum(s) / t
  {
    if s != [] {
      var n := |s|;
      assert DividedBy(s, t)[..n - 1] == DividedBy(s[..n - 1], t);
      DividedBySum(s[..n - 1], t);
      assert Sum(DividedBy(s, t)) == Sum(s[..n - 1]) / t + s[n - 1] / t;
    }
  }

  lemma {:induction false} SumBoundsEntries(s: seq<real>)
    requires forall i :: 0 <= i < |s| ==> s[i] >= 0.0
    ensures Sum(s) >= 0.0
    ensures forall i :: 0 <= i < |s| ==> s[i] <= Sum(s)
  {
    if s != [] {
      var n := |s|;
      SumBoundsEntries(s[..n - 1]);
      forall i | 0 <= i < n - 1 ensures s[i] <= Sum(s) {
        assert s[..n - 1][i] == s[i];
      }
    }
  }

  /** With a non-zero total the weights sum to 1. */
  lemma WeightsSumToOne(areas: seq<real>)
    requires Sum(areas) != 0.0
    ensures Sum(Table(areas)) == 1.0
  {
    var t := Sum(areas);
    DividedBySum(areas, t);
    OneOver(Sum(areas), t);
  }

  /** With a non-zero total each weight is its triangle's share of the total area. */
  lemma WeightIsShare(areas: seq<real>, i: nat)
    requires Sum(areas) != 0.0 && i < |areas|
    ensures Table(areas)[i] * Sum(areas) == areas[i]
  {
    var t := Sum(areas);
    assert Table(areas)[i] == Div(areas[i], t);
    DivTimes(areas[i], t);
  }

  lemma OneOver(s: real, t: real)
    requires s == t && t != 0.0
    ensures s / t == 1.0
  {
  }

  lemma DivTimes(x: real, t: real)
    requires t != 0.0
    ensures Div(x, t) * t == x
  {
  }

  /** With non-negative areas and a positive total every weight lies in [0, 1]. */
  lemma WeightsInUnitInterval(areas: seq<real>)
    requires forall i :: 0 <= i < |areas| ==> areas[i] >= 0.0
    requires Sum(areas) > 0.0
    ensures forall i :: 0 <= i < |areas| ==> 0.0 <= Table(areas)[i] <= 1.0
  {
    var t := Sum(areas);
    var w := DividedBy(areas, t);
    assert Table(areas) == w;
    SumBoundsEntries(areas);
    forall i | 0 <= i < |areas| ensures 0.0 <= w[i] <= 1.0 {
      assert w[i] == areas[i] / t;
      FractionInUnitInterval(areas[i], t);
    }
  }

  lemma FractionInUnitInterval(x: real, t: real)
    requires 0.0 <= x <= t && t > 0.0
    ensures 0.0 <= x / t <= 1.0
  {
    assert x / t * t == x;
  }
}
