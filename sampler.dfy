/**
  The Sampler class: the triangle soup, its area-weight table built in
  place by the constructor, and getPointCloud, which draws area-weighted
  samples into a point cloud of (position, normal) records.
*/
module SamplerModel {

  import opened Wrappers
  import opened Geometry
  import opened WeightTable
  import opened Selection
  import opened TriangleSampling

  /** pcl::PointNormal: position and normal components of one point. */
  datatype PointNormal = PointNormal(x: real, y: real, z: real, normalX: real, normalY: real, normalZ: real)

  /** pcl::PointCloud<pcl::PointNormal>: an unorganised cloud has height 1. */
  datatype PointCloud = PointCloud(width: int, height: int, isDense: bool, points: seq<PointNormal>)

  /** The uniform draws one sample consumes: x chooses the triangle, r0 and r1
      the point on it. */
  datatype Draw = Draw(x: real, r0: real, r1: real)

  datatype CloudError =
    | NegativeSize     // a negative count: resize(size_t(num_samples)) throws
    | DoubleRejected   // a sample failed the inclusion test twice: the source spins forever

  /** C++ conversion of a floating-point value to int: truncation toward zero. */
  function Truncate(r: real): (n: int)
    ensures 0.0 <= r ==> 0 <= n && n as real <= r < n as real + 1.0
    ensures r < 0.0 ==> n <= 0 && n as real - 1.0 < r <= n as real
  {
    if r >= 0.0 then r.Floor else -((-r).Floor)
  }

  /** num_samples = int(sample_density * tarea). */
  function NumSamples(sampleDensity: int, tarea: real): int
  {
    Truncate(sampleDensity as real * tarea)
  }

  /** A mesh of zero total area yields no samples. */
  lemma ZeroAreaNoSamples(sampleDensity: int)
    ensures NumSamples(sampleDensity, 0.0) == 0
  {
    assert sampleDensity as real * 0.0 == 0.0;
  }

  function ToPointNormal(s: Sample): PointNormal
  {
    PointNormal(s.position.x, s.position.y, s.position.z, s.normal.x, s.normal.y, s.normal.z)
  }

  predicate InUnitInterval(r: real) { 0.0 <= r <= 1.0 }

  class Sampler {
    const tris: seq<Vec3>
    const normals: seq<Vec3>
    const numTris: nat
    const tarea: real
    const weights: array<real>
    const flipFlag: bool
    const sqrt: real -> real

    /** The weight table holds one entry per triangle, area over total area. */
    ghost predicate Valid()
      reads this, weights
    {
      && numTris == |tris| / 3
      && |normals| == |tris|
      && weights.Length == numTris
      && tarea == Sum(Areas(sqrt, tris))
      && weights[..] == Table(Areas(sqrt, tris))
    }

    /** Triangle k's corner positions, slots 3k, 3k+1, 3k+2. */
    function TriangleAt(k: nat): Corners
      requires k < |tris| / 3
    {
      Corners(tris[k * 3], tris[k * 3 + 1], tris[k * 3 + 2])
    }

    /** Triangle k's corner normals, slots 3k, 3k+1, 3k+2. */
    function NormalsAt(k: nat): Corners
      requires k < |tris| / 3 && |normals| == |tris|
    {
      Corners(normals[k * 3], normals[k * 3 + 1], normals[k * 3 + 2])
    }

    /** The mesh is given as loaded (one normal per vertex); the constructor
        fills the weight table with the triangle areas while summing them,
        then divides every entry by the sum. */
    constructor (tris: seq<Vec3>, normals: seq<Vec3>, flip: bool, sqrt: real -> real)
      requires |normals| == |tris|
      ensures Valid() && fresh(weights)
      ensures this.tris == tris && this.normals == normals && flipFlag == flip && this.sqrt == sqrt
    {
      var n := |tris| / 3;
      AreasAt(sqrt, tris);
      ghost var areas := Areas(sqrt, tris);
      var w := new real[n];
      var total := 0.0;
      for i := 0 to n
        invariant w[..i] == areas[..i]
        invariant total == Sum(areas[..i])
      {
        var carea := TriArea(sqrt, tris[i * 3], tris[i * 3 + 1], tris[i * 3 + 2]);
        w[i] := carea;
        total := total + carea;
        assert areas[..i + 1][..i] == areas[..i];
        assert w[..i + 1] == areas[..i + 1];
      }
      assert areas[..n] == areas;
      for i := 0 to n
        invariant forall k :: 0 <= k < i ==> w[k] == Div(areas[k], total)
        invariant forall k :: i <= k < n ==> w[k] == areas[k]
      {
        w[i] := Div(w[i], total);
      }
      assert w[..] == Table(areas);
      this.tris, this.normals, this.flipFlag, this.sqrt := tris, normals, flip, sqrt;
      numTris, weights, tarea := n, w, total;
    }

    /** The selection scan of getPointCloud: x is reduced by each weight until
        it is at most the current one; with no such index below the bound the
        result is 0.  The scan reads the table only while it has not broken,
        hence the in-bounds precondition. */
    method SelectTriangle(x: real, bound: int) returns (triIndex: nat)
      requires Valid()
      requires ScanInBounds(weights[..], x, bound)
      ensures triIndex == Selected(weights[..], x, if bound < 0 then 0 else bound)
    {
      ghost var w := weights[..];
      triIndex := 0;
      var rest := x;
      var j := 0;
      while j < bound
        invariant 0 <= j <= weights.Length
        invariant bound >= 0 ==> j <= bound
        invariant Hit(w, x, j) == None
        invariant rest == x - Sum(w[..j])
      {
        assert j < weights.Length;
        assert w[..j + 1][..j] == w[..j];
        if rest <= weights[j] {
          triIndex := j;
          assert Hit(w, x, j + 1) == Some(j);
          HitStable(w, x, j + 1, bound);
          return;
        }
        rest := rest - weights[j];
        j := j + 1;
      }
    }

    /** The sample drawn for d: the triangle the scan over all triangles
        selects, then a point and normal on it. */
    function SampleFor(d: Draw): Result<Sample, SampleError>
      reads this, weights
      requires Valid() && numTris > 0
    {
      SelectedIndexInRange(weights[..], d.x);
      var k := Selected(weights[..], d.x, numTris);
      RandomPtOnTri(sqrt, flipFlag, TriangleAt(k), NormalsAt(k), d.r0, d.r1)
    }

    /** Draw d yields a sample, and p is the point-cloud record of it. */
    ghost predicate Produces(d: Draw, p: PointNormal)
      reads this, weights
      requires Valid()
    {
      numTris > 0 && SampleFor(d).Ok? && p == ToPointNormal(SampleFor(d).value)
    }

    /** Draw d yields a sample. */
    ghost predicate Succeeds(d: Draw)
      reads this, weights
      requires Valid()
    {
      numTris > 0 && SampleFor(d).Ok?
    }

    /** A positive sample count implies a positive total area, hence a triangle. */
    lemma SamplingNeedsTriangles(sampleDensity: int)
      requires Valid()
      requires NumSamples(sampleDensity, tarea) > 0
      ensures numTris > 0
    {
      if tarea == 0.0 {
        ZeroAreaNoSamples(sampleDensity);
      }
      AreasAt(sqrt, tris);
    }

    /** One iteration of getPointCloud: choose a triangle with the scan,
        bounded by the number of triangles (see SelectTriangle), then a point
        on it. */
    method DrawSample(d: Draw) returns (s: Result<Sample, SampleError>)
      requires Valid() && numTris > 0
      ensures s == SampleFor(d)
    {
      SelectedIndexInRange(weights[..], d.x);
      var triIndex := SelectTriangle(d.x, numTris);
      s := RandomPtOnTri(sqrt, flipFlag, TriangleAt(triIndex), NormalsAt(triIndex), d.r0, d.r1);
    }

    /** getPointCloud with the i-th sample's random draws given by draws(i):
        exactly int(sample_density * tarea) points, point i made from draw i.
        A negative count and a doubly rejected draw are reported as errors. */
    method GetPointCloud(sampleDensity: int, draws: nat -> Draw) returns (r: Result<PointCloud, CloudError>)
      requires Valid()
      ensures var n := NumSamples(sampleDensity, tarea);
        r.Ok? <==> n >= 0 && forall i :: 0 <= i < n ==> Succeeds(draws(i))
      ensures r.Err? ==> r.error == if NumSamples(sampleDensity, tarea) < 0 then NegativeSize else DoubleRejected
      ensures r.Ok? ==>
        var n := NumSamples(sampleDensity, tarea);
        && r.value.width == n && r.value.height == 1 && !r.value.isDense
        && |r.value.points| == n
        && forall i :: 0 <= i < n ==> Produces(draws(i), r.value.points[i])
    {
      var n := NumSamples(sampleDensity, tarea);
      if n < 0 {
        return Err(NegativeSize);
      }
      if n > 0 {
        SamplingNeedsTriangles(sampleDensity);
      }
      var points := seq(n, _ => PointNormal(0.0, 0.0, 0.0, 0.0, 0.0, 0.0));
      for i := 0 to n
        invariant |points| == n
        invariant forall k :: 0 <= k < i ==> Produces(draws(k), points[k])
      {
        var d := draws(i);
        var s := DrawSample(d);
        if s.Err? {
          assert !Succeeds(draws(i));
          return Err(DoubleRejected);
        }
        points := points[i := ToPointNormal(s.value)];
        assert Produces(d, points[i]);
      }
      r := Ok(PointCloud(n, 1, false, points));
      assert forall i :: 0 <= i < n ==> Produces(draws(i), r.value.points[i]);
    }

    /** On a mesh whose triangles are all non-degenerate, a draw with r0 and
        r1 in [0, 1] always yields a sample, on a triangle of the mesh. */
    lemma SampleForSucceeds(d: Draw)
      requires Valid() && numTris > 0
      requires forall k :: 0 <= k < numTris ==> Denominator(TriangleAt(k)) != 0.0
      requires InUnitInterval(d.r0) && InUnitInterval(d.r1)
      ensures SampleFor(d).Ok?
      ensures Selected(weights[..], d.x, numTris) < numTris
    {
      SelectedIndexInRange(weights[..], d.x);
      var k := Selected(weights[..], d.x, numTris);
      RandomPtOnTriOutcome(sqrt, flipFlag, TriangleAt(k), NormalsAt(k), d.r0, d.r1);
    }
  }
}
