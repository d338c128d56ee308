/**
  Inverse-CDF selection of a triangle by a linear scan of the weight table.
  The scan subtracts weights from the draw x until the remaining x is at most
  the current weight; in exact arithmetic that is the first index j whose
  cumulative weight w[0] + ... + w[j] reaches x.
*/
module Selection {

  import opened Wrappers
  import opened WeightTable

  /** w[0] + ... + w[j], the cumulative weight up to and including j. */
  function Cum(w: seq<real>, j: nat): real
    requires j < |w|
  {
    Sum(w[..j + 1])
  }

  /** j is the first index whose cumulative weight reaches x. */
  ghost predicate IsFirstHit(w: seq<real>, x: real, j: nat)
    requires j < |w|
  {
    x <= Cum(w, j) && forall k :: 0 <= k < j ==> Cum(w, k) < x
  }

  /** The first index below the bound (and below |w|) whose cumulative weight reaches x, if any. */
  function Hit(w: seq<real>, x: real, bound: nat): (r: Option<nat>)
    ensures r.Some? ==> r.value < bound && r.value < |w| && IsFirstHit(w, x, r.value)
    ensures r.None? ==> forall k :: 0 <= k < bound && k < |w| ==> Cum(w, k) < x
  {
    if bound == 0 then None
    else
      var earlier := Hit(w, x, bound - 1);
      if earlier.Some? then earlier
      else if bound - 1 < |w| && x <= Cum(w, bound - 1) then Some(bound - 1)
      else None
  }

  /** The index the scan leaves in tri_index: the first hit, or the default 0. */
  function Selected(w: seq<real>, x: real, bound: nat): (r: nat)
    ensures || (r < bound && r < |w| && IsFirstHit(w, x, r))
            || (r == 0 && forall k :: 0 <= k < bound && k < |w| ==> Cum(w, k) < x)
  {
    match Hit(w, x, bound)
    case Some(j) => j
    case None => 0
  }

  /** The scan reads w[j] for every j below the bound until it breaks, so it
      stays inside w exactly when the bound is at most |w| or a hit occurs
      below |w|. */
  predicate ScanInBounds(w: seq<real>, x: real, bound: int)
  {
    bound <= |w| || exists j :: 0 <= j < |w| && x <= Cum(w, j)
  }

  /** Once found, a hit stays the answer for every larger bound. */
  lemma {:induction false} HitStable(w: seq<real>, x: real, bound: nat, larger: nat)
    requires bound <= larger
    requires Hit(w, x, bound).Some?
    ensures Hit(w, x, larger) == Hit(w, x, bound)
    decreases larger
  {
    if larger > bound {
      HitStable(w, x, bound, larger - 1);
    }
  }

  /** Bounds beyond the table change nothing: the source's bound num_samples selects correctly whenever
      num_samples >= num_tris and the scan stays in the table. */
  lemma LargerBoundSameSelection(w: seq<real>, x: real, bound: nat)
    requires bound >= |w|
    requires ScanInBounds(w, x, bound)
    ensures Hit(w, x, bound) == Hit(w, x, |w|)
    ensures Selected(w, x, bound) == Selected(w, x, |w|)
  {
    if bound > |w| {
      var j :| 0 <= j < |w| && x <= Cum(w, j);
      assert Hit(w, x, |w|).Some?;
      HitStable(w, x, |w|, bound);
    }
  }

  /** With the bound set to the number of triangles the scan is always in
      bounds and the chosen index names a triangle; when x does not exceed
      the total weight (1 after normalisation) the scan never falls back to
      the default. */
  lemma SelectedIndexInRange(w: seq<real>, x: real)
    requires |w| > 0
    ensures ScanInBounds(w, x, |w|)
    ensures Selected(w, x, |w|) < |w|
    ensures x <= Sum(w) ==> Hit(w, x, |w|).Some?
  {
    if x <= Sum(w) {
      assert w[..|w|] == w;
      assert x <= Cum(w, |w| - 1);
    }
  }

  /** In exact arithmetic the source's scan, bounded by num_samples, never
      reads past the table either, provided x does not exceed the total weight. */
  lemma AsWrittenScanInBounds(w: seq<real>, x: real, bound: int)
    requires |w| > 0
    requires x <= Sum(w)
    ensures ScanInBounds(w, x, bound)
  {
    assert w[..|w|] == w;
    assert x <= Cum(w, |w| - 1);
  }

  /** The as-written bound mis-selects: two triangles of weight 1/2, one
      sample (so the scan stops after index 0) and x = 3/4 yield triangle 0,
      while the scan over both triangles yields triangle 1. */
  lemma AsWrittenBoundMisselects()
    ensures Selected([0.5, 0.5], 0.75, 1) == 0
    ensures Selected([0.5, 0.5], 0.75, 2) == 1
  {
    var w := [0.5, 0.5];
    assert w[..1] == [0.5] && w[..1][..0] == [];
    assert w[..2] == w && w[..2][..1] == [0.5];
    assert Cum(w, 0) == 0.5;
    assert Cum(w, 1) == 1.0;
  }
}
