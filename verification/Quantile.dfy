/** Quantiles estimated from cumulative histogram buckets (internal/agent/engine_vllm.go, histogramQuantile). */
module Quantile {
  import opened Prelude

  /** A bucket's upper bound; scraped histograms end in an infinite one that holds the total. */
  datatype Bound = Finite(v: real) | Infinite

  datatype Point = Point(le: Bound, count: real)

  /** The part of a width that corresponds to a part of a whole. */
  function Portion(width: real, part: real, whole: real): real
    requires whole != 0.0
  {
    width * part / whole
  }

  /** The estimate inside a bucket that starts at (lo, c). */
  function Interpolated(p: Point, rank: real, lo: real, c: real): real
    requires p.le.Finite?
  {
    if p.count == c then lo else lo + Portion(p.le.v - lo, rank - c, p.count - c)
  }

  /** The first finite bucket that reaches the rank, seen from the bucket edge (lo, c). */
  function Scan(pts: seq<Point>, rank: real, lo: real, c: real): Option<real> {
    if pts == [] || pts[0].le.Infinite? then None
    else if pts[0].count >= rank then Some(Interpolated(pts[0], rank, lo, c))
    else Scan(pts[1..], rank, pts[0].le.v, pts[0].count)
  }

  function LastFinite(pts: seq<Point>): Option<real> {
    if pts == [] then None
    else if pts[|pts| - 1].le.Finite? then Some(pts[|pts| - 1].le.v)
    else LastFinite(pts[..|pts| - 1])
  }

  function Estimate(pts: seq<Point>, rank: real): Option<real>
    requires pts != []
  {
    var found := Scan(pts, rank, 0.0, 0.0);
    if found.Some? then found else LastFinite(pts[..|pts| - 1])
  }

  function Rank(pts: seq<Point>, q: real): real
    requires pts != []
  {
    q * pts[|pts| - 1].count
  }

  function Quantile(pts: seq<Point>, q: real): Option<real> {
    if pts == [] || pts[|pts| - 1].count == 0.0 then None else Estimate(pts, Rank(pts, q))
  }

  method HistogramQuantile(pts: seq<Point>, q: real) returns (r: Option<real>)
    ensures r == Quantile(pts, q)
  {
    if |pts| == 0 { return None; }
    var total := pts[|pts| - 1].count;
    if total == 0.0 { return None; }
    r := ScanBuckets(pts, q * total);
    if r.None? { r := FindLastFinite(pts[..|pts| - 1]); }
  }

  method ScanBuckets(pts: seq<Point>, rank: real) returns (r: Option<real>)
    ensures r == Scan(pts, rank, 0.0, 0.0)
  {
    var prevLe, prevCount := 0.0, 0.0;
    var i := 0;
    assert pts[0..] == pts;
    while i < |pts|
      invariant i <= |pts| && Scan(pts, rank, 0.0, 0.0) == Scan(pts[i..], rank, prevLe, prevCount)
    {
      var p := pts[i];
      if p.le.Infinite? { break; }
      if p.count >= rank {
        if p.count == prevCount { return Some(prevLe); }
        return Some(prevLe + Portion(p.le.v - prevLe, rank - prevCount, p.count - prevCount));
      }
      prevLe, prevCount, i := p.le.v, p.count, i + 1;
    }
    return None;
  }

  method FindLastFinite(pts: seq<Point>) returns (r: Option<real>)
    ensures r == LastFinite(pts)
  {
    var i := |pts|;
    assert pts[..i] == pts;
    while i > 0
      invariant 0 <= i <= |pts| && LastFinite(pts[..i]) == LastFinite(pts)
    {
      i := i - 1;
      if pts[i].le.Finite? { return Some(pts[i].le.v); }
      assert pts[..i + 1][..i] == pts[..i];
    }
    return None;
  }

  // ----- what the estimate means

  /** Buckets as scraped and sorted: increasing bounds from 0 up, a positive total in the last one. */
  ghost predicate WellFormed(pts: seq<Point>) {
    && pts != [] && pts[|pts| - 1].le.Infinite? && pts[|pts| - 1].count > 0.0
    && (forall i :: 0 <= i < |pts| - 1 ==> pts[i].le.Finite? && pts[i].le.v >= 0.0)
    && (forall i :: 0 <= i < |pts| - 2 ==> pts[i].le.v < pts[i + 1].le.v)
  }

  function Lower(pts: seq<Point>, k: nat): real
    requires k <= |pts| && forall i :: 0 <= i < k ==> pts[i].le.Finite?
  {
    if k == 0 then 0.0 else pts[k - 1].le.v
  }

  function CountBelow(pts: seq<Point>, k: nat): real
    requires k <= |pts|
  {
    if k == 0 then 0.0 else pts[k - 1].count
  }

  /** Bucket k is the first finite one whose count reaches the rank. */
  ghost predicate Reaches(pts: seq<Point>, rank: real, k: nat) {
    k < |pts| - 1 && pts[k].count >= rank && forall i :: 0 <= i < k ==> pts[i].count < rank
  }

  lemma {:induction false} ScanFrom(pts: seq<Point>, rank: real, i: nat, k: nat)
    requires WellFormed(pts) && i <= k < |pts| && forall j :: i <= j < k ==> pts[j].count < rank
    ensures Scan(pts[i..], rank, Lower(pts, i), CountBelow(pts, i))
            == Scan(pts[k..], rank, Lower(pts, k), CountBelow(pts, k))
    decreases k - i
  {
    if i < k {
      assert pts[i..][1..] == pts[i + 1..];
      ScanFrom(pts, rank, i + 1, k);
    }
  }

  lemma Share(d: real, part: real, whole: real)
    requires d >= 0.0 && 0.0 <= part <= whole && whole > 0.0
    ensures 0.0 <= Portion(d, part, whole) <= d
  {
    var t := d * part / whole;
    assert t * whole == d * part;
    assert d * part <= d * whole;
  }

  lemma SharesGrow(d: real, part: real, part': real, whole: real)
    requires d >= 0.0 && part <= part' && whole > 0.0
    ensures Portion(d, part, whole) <= Portion(d, part', whole)
  {
    assert d * part <= d * part';
    var t, t' := d * part / whole, d * part' / whole;
    assert t * whole == d * part && t' * whole == d * part';
  }

  lemma ShareOfShare(d: real, part: real, whole: real)
    requires d > 0.0 && whole > 0.0
    ensures Portion(whole, Portion(d, part, whole), d) == part
  {
    var t := d * part / whole;
    assert t * whole == d * part;
    assert whole * t == d * part;
    assert d * part / d == part;
  }

  lemma InterpolatedInside(p: Point, rank: real, lo: real, c: real)
    requires p.le.Finite? && lo <= p.le.v && c < rank <= p.count
    ensures lo <= Interpolated(p, rank, lo, c) <= p.le.v
  {
    Share(p.le.v - lo, rank - c, p.count - c);
  }

  lemma InterpolatedGrows(p: Point, rank: real, rank': real, lo: real, c: real)
    requires p.le.Finite? && lo <= p.le.v && c < rank <= rank' <= p.count
    ensures Interpolated(p, rank, lo, c) <= Interpolated(p, rank', lo, c)
  {
    SharesGrow(p.le.v - lo, rank - c, rank' - c, p.count - c);
  }

  /**
   * The estimate lies in the first bucket that reaches the rank. The branch for a bucket without counts of its own
   * is never taken: that bucket's count is above the one below it.
   */
  lemma EstimateLiesInItsBucket(pts: seq<Point>, rank: real, k: nat)
    requires WellFormed(pts) && rank > 0.0 && Reaches(pts, rank, k)
    ensures CountBelow(pts, k) < rank <= pts[k].count
    ensures var r := Estimate(pts, rank);
            && r == Some(Interpolated(pts[k], rank, Lower(pts, k), CountBelow(pts, k)))
            && Lower(pts, k) <= r.value <= pts[k].le.v
  {
    assert pts[0..] == pts;
    ScanFrom(pts, rank, 0, k);
    assert Lower(pts, k) <= pts[k].le.v;
    InterpolatedInside(pts[k], rank, Lower(pts, k), CountBelow(pts, k));
  }

  /** A rank beyond every finite bucket gives the last finite bound, and nothing when there is none. */
  lemma EstimateBeyondTheBuckets(pts: seq<Point>, rank: real)
    requires WellFormed(pts) && forall i :: 0 <= i < |pts| - 1 ==> pts[i].count < rank
    ensures Estimate(pts, rank) == if |pts| == 1 then None else Some(pts[|pts| - 2].le.v)
  {
    assert pts[0..] == pts;
    ScanFrom(pts, rank, 0, |pts| - 1);
  }

  /** One of the two cases applies to every rank. */
  lemma {:induction false} ReachesOrNot(pts: seq<Point>, rank: real, i: nat)
    requires WellFormed(pts) && i <= |pts| - 1 && forall j :: 0 <= j < i ==> pts[j].count < rank
    ensures (exists k :: Reaches(pts, rank, k)) || forall j :: 0 <= j < |pts| - 1 ==> pts[j].count < rank
    decreases |pts| - i
  {
    if i < |pts| - 1 {
      if pts[i].count >= rank { assert Reaches(pts, rank, i); } else { ReachesOrNot(pts, rank, i + 1); }
    }
  }

  lemma {:induction false} BoundsGrow(pts: seq<Point>, i: nat, j: nat)
    requires WellFormed(pts) && i <= j < |pts| - 1
    ensures pts[i].le.v <= pts[j].le.v
    decreases j - i
  {
    if i < j { BoundsGrow(pts, i, j - 1); }
  }

  lemma GrowsInReach(pts: seq<Point>, rank: real, rank': real, k: nat, k': nat)
    requires WellFormed(pts) && 0.0 < rank <= rank' && Reaches(pts, rank, k) && Reaches(pts, rank', k')
    ensures Estimate(pts, rank).Some? && Estimate(pts, rank').Some?
    ensures Estimate(pts, rank).value <= Estimate(pts, rank').value
  {
    EstimateLiesInItsBucket(pts, rank, k);
    EstimateLiesInItsBucket(pts, rank', k');
    if k < k' {
      BoundsGrow(pts, k, k' - 1);
    } else {
      InterpolatedGrows(pts[k], rank, rank', Lower(pts, k), CountBelow(pts, k));
    }
  }

  lemma EstimateGrowsWithRank(pts: seq<Point>, rank: real, rank': real)
    requires WellFormed(pts) && |pts| > 1 && 0.0 < rank <= rank'
    ensures Estimate(pts, rank).Some? && Estimate(pts, rank').Some?
    ensures Estimate(pts, rank).value <= Estimate(pts, rank').value
  {
    ReachesOrNot(pts, rank, 0);
    ReachesOrNot(pts, rank', 0);
    if exists k :: Reaches(pts, rank, k) {
      var k :| Reaches(pts, rank, k);
      EstimateLiesInItsBucket(pts, rank, k);
      if exists k' :: Reaches(pts, rank', k') {
        var k' :| Reaches(pts, rank', k');
        GrowsInReach(pts, rank, rank', k, k');
      } else {
        EstimateBeyondTheBuckets(pts, rank');
        BoundsGrow(pts, k, |pts| - 2);
      }
    } else {
      EstimateBeyondTheBuckets(pts, rank);
      EstimateBeyondTheBuckets(pts, rank');
    }
  }

  lemma RankGrows(q: real, q': real, total: real)
    requires 0.0 < q <= q' && total > 0.0
    ensures 0.0 < q * total <= q' * total
  {
  }

  /** A higher quantile never has a lower estimate; there is one as soon as there is a finite bucket. */
  lemma QuantileGrows(pts: seq<Point>, q: real, q': real)
    requires WellFormed(pts) && 0.0 < q <= q'
    ensures |pts| == 1 ==> Quantile(pts, q) == Quantile(pts, q') == None
    ensures |pts| > 1 ==>
              Quantile(pts, q).Some? && Quantile(pts, q').Some? && Quantile(pts, q).value <= Quantile(pts, q').value
  {
    RankGrows(q, q', pts[|pts| - 1].count);
    if |pts| > 1 { EstimateGrowsWithRank(pts, Rank(pts, q), Rank(pts, q')); }
  }

  /** Observations at or below x, when those of a bucket that starts at (lo, c) are spread evenly over it. */
  function Cumulative(p: Point, x: real, lo: real, c: real): real
    requires p.le.Finite? && lo < p.le.v
  {
    c + Portion(p.count - c, x - lo, p.le.v - lo)
  }

  lemma InterpolationInverts(p: Point, rank: real, lo: real, c: real)
    requires p.le.Finite? && lo < p.le.v && c < rank <= p.count
    ensures Cumulative(p, Interpolated(p, rank, lo, c), lo, c) == rank
  {
    ShareOfShare(p.le.v - lo, rank - c, p.count - c);
    assert Interpolated(p, rank, lo, c) - lo == Portion(p.le.v - lo, rank - c, p.count - c);
  }

  /** The estimate inverts the histogram: exactly the share q of the observations lies at or below it. */
  lemma QuantileInvertsTheHistogram(pts: seq<Point>, q: real, k: nat)
    requires WellFormed(pts) && q > 0.0 && Reaches(pts, Rank(pts, q), k) && pts[k].le.v > 0.0
    ensures Quantile(pts, q).Some? && Lower(pts, k) < pts[k].le.v
    ensures Cumulative(pts[k], Quantile(pts, q).value, Lower(pts, k), CountBelow(pts, k)) == q * pts[|pts| - 1].count
  {
    RankGrows(q, q, pts[|pts| - 1].count);
    EstimateLiesInItsBucket(pts, Rank(pts, q), k);
    InterpolationInverts(pts[k], Rank(pts, q), Lower(pts, k), CountBelow(pts, k));
  }
}
