/** src/utils/HeatmapUtils.ts: inverse-distance-weighted interpolation of
    signal strength, exponential position smoothing, and the colour used for a
    heatmap cell. */
module HeatmapUtils {
  import opened Wrappers
  import opened HeatmapTypes
  import Sums
  import Colors

  /** Radius of influence of a sample, in plan pixels (inclusive). */
  const MaxDistance: real := 50.0

  /** Smoothing factor used when the caller gives none. */
  const DefaultSmoothingFactor: real := 0.2

  /** `Math.sqrt` is a foreign call; the model receives it as a parameter and
      relies only on it returning the non-negative square root. The squaring
      half is triggered on `Square(sqrt(x))` so that it is used only where a
      proof asks for it. */
  ghost predicate IsSqrt(sqrt: real -> real)
  {
    && (forall x: real :: 0.0 <= x ==> 0.0 <= sqrt(x))
    && (forall x: real {:trigger Square(sqrt(x))} :: 0.0 <= x ==> Square(sqrt(x)) == x)
  }

  function Square(r: real): real
  {
    r * r
  }

  function SquaredDistance(q: Point, p: HeatmapDataPoint): real
  {
    (q.x - p.x) * (q.x - p.x) + (q.y - p.y) * (q.y - p.y)
  }

  /** Euclidean distance from the query point to a sample. */
  function Distance(sqrt: real -> real, q: Point, p: HeatmapDataPoint): (d: real)
    requires IsSqrt(sqrt)
    ensures 0.0 <= d
  {
    sqrt(SquaredDistance(q, p))
  }

  predicate InRange(sqrt: real -> real, q: Point, p: HeatmapDataPoint)
    requires IsSqrt(sqrt)
  {
    Distance(sqrt, q, p) <= MaxDistance
  }

  /** The radius test is the squared-distance test `d² <= 2500`, inclusive. */
  lemma InRangeIffSquared(sqrt: real -> real, q: Point, p: HeatmapDataPoint)
    requires IsSqrt(sqrt)
    ensures InRange(sqrt, q, p) <==> SquaredDistance(q, p) <= MaxDistance * MaxDistance
  {
    var d := Distance(sqrt, q, p);
    assert Square(sqrt(SquaredDistance(q, p))) == SquaredDistance(q, p);
    if d <= 50.0 {
      assert d * d <= 50.0 * d;
    } else {
      assert d * d > 50.0 * d;
    }
  }

  /** Multiplying both sides by a non-negative factor keeps an inequality. */
  lemma MulLe(a: real, b: real, c: real)
    requires a <= b && 0.0 <= c
    ensures a * c <= b * c
  {
  }

  lemma MulLt(a: real, b: real, c: real)
    requires a < b && 0.0 < c
    ensures a * c < b * c
  {
  }

  /** Scaling the gap `b - a` by a factor of at most one does not enlarge it. */
  lemma ScaledGapLe(a: real, b: real, f: real)
    requires a <= b && f <= 1.0
    ensures b * f - a * f <= b - a
  {
  }

  /** Weight of a sample at distance `d`; the `+ 1` caps it at 1. */
  function Weight(d: real): (w: real)
    requires 0.0 <= d
    ensures 0.0 < w <= 1.0
    ensures w == 1.0 <==> d == 0.0
  {
    1.0 / (d + 1.0)
  }

  /** A farther sample always weighs strictly less. */
  lemma WeightStrictlyDecreasing(d1: real, d2: real)
    requires 0.0 <= d1 < d2
    ensures Weight(d2) < Weight(d1)
  {
    ReciprocalDecreasing(d1 + 1.0, d2 + 1.0);
  }

  lemma ReciprocalDecreasing(x: real, y: real)
    requires 0.0 < x < y
    ensures 1.0 / y < 1.0 / x
  {
    var u := 1.0 / x;
    var v := 1.0 / y;
    assert u * x == 1.0 && v * y == 1.0;
    if u <= v {
      MulLt(x, y, u);
      MulLe(u, v, y);
      assert false;
    }
  }

  /** What one sample adds to the total weight: its weight if in range, else nothing. */
  function WeightOf(sqrt: real -> real, q: Point, p: HeatmapDataPoint): real
    requires IsSqrt(sqrt)
  {
    if InRange(sqrt, q, p) then Weight(Distance(sqrt, q, p)) else 0.0
  }

  /** What one sample adds to the weighted sum. */
  function WeightedStrengthOf(sqrt: real -> real, q: Point, p: HeatmapDataPoint): real
    requires IsSqrt(sqrt)
  {
    if InRange(sqrt, q, p) then Weight(Distance(sqrt, q, p)) * p.strength else 0.0
  }

  function WeightFn(sqrt: real -> real, q: Point): HeatmapDataPoint -> real
    requires IsSqrt(sqrt)
  {
    p => WeightOf(sqrt, q, p)
  }

  function WeightedStrengthFn(sqrt: real -> real, q: Point): HeatmapDataPoint -> real
    requires IsSqrt(sqrt)
  {
    p => WeightedStrengthOf(sqrt, q, p)
  }

  function TotalWeight(sqrt: real -> real, q: Point, pts: seq<HeatmapDataPoint>): real
    requires IsSqrt(sqrt)
  {
    Sums.Sum(pts, WeightFn(sqrt, q))
  }

  function WeightedSum(sqrt: real -> real, q: Point, pts: seq<HeatmapDataPoint>): real
    requires IsSqrt(sqrt)
  {
    Sums.Sum(pts, WeightedStrengthFn(sqrt, q))
  }

  predicate SomeInRange(sqrt: real -> real, q: Point, pts: seq<HeatmapDataPoint>)
    requires IsSqrt(sqrt)
  {
    exists i :: 0 <= i < |pts| && InRange(sqrt, q, pts[i])
  }

  /** The total weight is positive exactly when some sample is in range. */
  lemma {:induction false} TotalWeightPositive(sqrt: real -> real, q: Point, pts: seq<HeatmapDataPoint>)
    requires IsSqrt(sqrt)
    ensures 0.0 <= TotalWeight(sqrt, q, pts)
    ensures 0.0 < TotalWeight(sqrt, q, pts) <==> SomeInRange(sqrt, q, pts)
  {
    if |pts| > 0 {
      var n := |pts| - 1;
      TotalWeightPositive(sqrt, q, pts[..n]);
      if SomeInRange(sqrt, q, pts[..n]) {
        var i :| 0 <= i < n && InRange(sqrt, q, pts[..n][i]);
        assert InRange(sqrt, q, pts[i]);
      }
      if SomeInRange(sqrt, q, pts) {
        var i :| 0 <= i < |pts| && InRange(sqrt, q, pts[i]);
        if i < n {
          assert InRange(sqrt, q, pts[..n][i]);
        }
      }
    }
  }

  /** Interpolated strength at `q`: the weighted mean of the samples within
      `MaxDistance`, or `None` (the source's `null`) when none is in range. */
  function Interpolate(sqrt: real -> real, q: Point, pts: seq<HeatmapDataPoint>): (r: Option<real>)
    requires IsSqrt(sqrt)
    ensures r.None? <==> forall i :: 0 <= i < |pts| ==> !InRange(sqrt, q, pts[i])
  {
    TotalWeightPositive(sqrt, q, pts);
    var total := TotalWeight(sqrt, q, pts);
    if total > 0.0 then Some(WeightedSum(sqrt, q, pts) / total) else None
  }

  /** Without samples every query point is uncovered. */
  lemma InterpolateEmpty(sqrt: real -> real, q: Point)
    requires IsSqrt(sqrt)
    ensures Interpolate(sqrt, q, []) == None
  {
  }

  /** The source's loop over the data points, accumulating the total weight
      and the weighted sum of the in-range samples. */
  method AccumulateWeights(sqrt: real -> real, q: Point, dataPoints: seq<HeatmapDataPoint>)
    returns (totalWeight: real, weightedSum: real)
    requires IsSqrt(sqrt)
    ensures totalWeight == TotalWeight(sqrt, q, dataPoints)
    ensures weightedSum == WeightedSum(sqrt, q, dataPoints)
  {
    totalWeight := 0.0;
    weightedSum := 0.0;
    var i := 0;
    while i < |dataPoints|
      invariant 0 <= i <= |dataPoints|
      invariant totalWeight == Sums.Sum(dataPoints[..i], WeightFn(sqrt, q))
      invariant weightedSum == Sums.Sum(dataPoints[..i], WeightedStrengthFn(sqrt, q))
    {
      var point := dataPoints[i];
      assert dataPoints[..i + 1][..i] == dataPoints[..i];
      assert dataPoints[..i + 1][i] == point;
      var distance := Distance(sqrt, q, point);
      if distance <= MaxDistance {
        var weight := Weight(distance);
        totalWeight := totalWeight + weight;
        weightedSum := weightedSum + weight * point.strength;
      }
      assert WeightFn(sqrt, q)(point) == WeightOf(sqrt, q, point);
      assert WeightedStrengthFn(sqrt, q)(point) == WeightedStrengthOf(sqrt, q, point);
      i := i + 1;
    }
    assert dataPoints[..i] == dataPoints;
  }

  /** `interpolateSignalStrength`: the weighted mean when the total weight is
      positive, `None` otherwise. */
  method InterpolateSignalStrength(sqrt: real -> real, x: real, y: real, dataPoints: seq<HeatmapDataPoint>)
    returns (r: Option<real>)
    requires IsSqrt(sqrt)
    ensures r == Interpolate(sqrt, Point(x, y), dataPoints)
  {
    var totalWeight, weightedSum := AccumulateWeights(sqrt, Point(x, y), dataPoints);
    if totalWeight > 0.0 {
      r := Some(weightedSum / totalWeight);
    } else {
      r := None;
    }
  }

  /** With exactly one sample in range the result is that sample's strength,
      whatever its distance. */
  lemma InterpolateSingleInRange(sqrt: real -> real, q: Point, pts: seq<HeatmapDataPoint>, k: nat)
    requires IsSqrt(sqrt)
    requires k < |pts| && InRange(sqrt, q, pts[k])
    requires forall i :: 0 <= i < |pts| && i != k ==> !InRange(sqrt, q, pts[i])
    ensures Interpolate(sqrt, q, pts) == Some(pts[k].strength)
  {
    OnlySampleInRange(sqrt, q, pts, k);
    var total := TotalWeight(sqrt, q, pts);
    var strength := pts[k].strength;
    DivCancel(total, strength);
    assert WeightedSum(sqrt, q, pts) / total == strength;
    assert Interpolate(sqrt, q, pts) == Some(WeightedSum(sqrt, q, pts) / total);
  }

  lemma OnlySampleInRange(sqrt: real -> real, q: Point, pts: seq<HeatmapDataPoint>, k: nat)
    requires IsSqrt(sqrt)
    requires k < |pts| && InRange(sqrt, q, pts[k])
    requires forall i :: 0 <= i < |pts| && i != k ==> !InRange(sqrt, q, pts[i])
    ensures TotalWeight(sqrt, q, pts) == WeightOf(sqrt, q, pts[k]) > 0.0
    ensures WeightedSum(sqrt, q, pts) == TotalWeight(sqrt, q, pts) * pts[k].strength
  {
    OnlySampleWeight(sqrt, q, pts, k);
    OnlySampleWeightedStrength(sqrt, q, pts, k);
  }

  lemma OnlySampleWeight(sqrt: real -> real, q: Point, pts: seq<HeatmapDataPoint>, k: nat)
    requires IsSqrt(sqrt)
    requires k < |pts|
    requires forall i :: 0 <= i < |pts| && i != k ==> !InRange(sqrt, q, pts[i])
    ensures TotalWeight(sqrt, q, pts) == WeightOf(sqrt, q, pts[k])
  {
    var f := WeightFn(sqrt, q);
    forall i | 0 <= i < |pts| && i != k
      ensures f(pts[i]) == 0.0
    {
      assert !InRange(sqrt, q, pts[i]);
    }
    Sums.SumSingleSupport(pts, f, k);
  }

  lemma OnlySampleWeightedStrength(sqrt: real -> real, q: Point, pts: seq<HeatmapDataPoint>, k: nat)
    requires IsSqrt(sqrt)
    requires k < |pts|
    requires forall i :: 0 <= i < |pts| && i != k ==> !InRange(sqrt, q, pts[i])
    ensures WeightedSum(sqrt, q, pts) == WeightedStrengthOf(sqrt, q, pts[k])
  {
    var g := WeightedStrengthFn(sqrt, q);
    forall i | 0 <= i < |pts| && i != k
      ensures g(pts[i]) == 0.0
    {
      assert !InRange(sqrt, q, pts[i]);
    }
    Sums.SumSingleSupport(pts, g, k);
  }

  lemma DivCancel(w: real, s: real)
    requires w != 0.0
    ensures (w * s) / w == s
  {
  }

  /** Bounds on the in-range strengths carry over to the weighted sum. */
  lemma {:induction false} WeightedSumBounded(sqrt: real -> real, q: Point, pts: seq<HeatmapDataPoint>, lo: real, hi: real)
    requires IsSqrt(sqrt)
    requires forall i :: 0 <= i < |pts| && InRange(sqrt, q, pts[i]) ==> lo <= pts[i].strength <= hi
    ensures lo * TotalWeight(sqrt, q, pts) <= WeightedSum(sqrt, q, pts) <= hi * TotalWeight(sqrt, q, pts)
  {
    if |pts| > 0 {
      var n := |pts| - 1;
      var prefix := pts[..n];
      var p := pts[n];
      assert forall i :: 0 <= i < n ==> prefix[i] == pts[i];
      WeightedSumBounded(sqrt, q, prefix, lo, hi);
      var w := WeightOf(sqrt, q, p);
      var ws := WeightedStrengthOf(sqrt, q, p);
      assert WeightFn(sqrt, q)(p) == w && WeightedStrengthFn(sqrt, q)(p) == ws;
      assert TotalWeight(sqrt, q, pts) == TotalWeight(sqrt, q, prefix) + w;
      assert WeightedSum(sqrt, q, pts) == WeightedSum(sqrt, q, prefix) + ws;
      assert InRange(sqrt, q, p) ==> ws == w * p.strength && lo <= p.strength <= hi;
      assert !InRange(sqrt, q, p) ==> w == 0.0 && ws == 0.0;
      BoundStep(lo, hi, TotalWeight(sqrt, q, prefix), WeightedSum(sqrt, q, prefix), w, ws, p.strength,
                TotalWeight(sqrt, q, pts), WeightedSum(sqrt, q, pts));
    }
  }

  /** One step of the convex-combination bound: adding a term `w * s` with
      `lo <= s <= hi` (or nothing) keeps `lo * total <= sum <= hi * total`. */
  lemma BoundStep(lo: real, hi: real, total: real, sum: real, w: real, ws: real, s: real, total': real, sum': real)
    requires lo * total <= sum <= hi * total
    requires 0.0 <= w
    requires (ws == w * s && lo <= s <= hi) || (w == 0.0 && ws == 0.0)
    requires total' == total + w && sum' == sum + ws
    ensures lo * total' <= sum' <= hi * total'
  {
    if ws == w * s && lo <= s <= hi {
      MulLe(lo, s, w);
      MulLe(s, hi, w);
    }
  }

  /** The result is a convex combination of the in-range strengths: any
      bounds on them, in particular their minimum and maximum, bound it. */
  lemma InterpolateBounded(sqrt: real -> real, q: Point, pts: seq<HeatmapDataPoint>, lo: real, hi: real)
    requires IsSqrt(sqrt)
    requires forall i :: 0 <= i < |pts| && InRange(sqrt, q, pts[i]) ==> lo <= pts[i].strength <= hi
    ensures Interpolate(sqrt, q, pts).Some? ==> lo <= Interpolate(sqrt, q, pts).value <= hi
  {
    var r := Interpolate(sqrt, q, pts);
    if r.Some? {
      WeightedSumBounded(sqrt, q, pts, lo, hi);
      var total := TotalWeight(sqrt, q, pts);
      var sum := WeightedSum(sqrt, q, pts);
      assert r.value == sum / total;
      assert r.value * total == sum;
    }
  }

  /** The result does not depend on the order of the samples. */
  lemma InterpolatePermutation(sqrt: real -> real, q: Point, a: seq<HeatmapDataPoint>, b: seq<HeatmapDataPoint>)
    requires IsSqrt(sqrt)
    requires multiset(a) == multiset(b)
    ensures Interpolate(sqrt, q, a) == Interpolate(sqrt, q, b)
  {
    Sums.SumPermutation(a, b, WeightFn(sqrt, q));
    Sums.SumPermutation(a, b, WeightedStrengthFn(sqrt, q));
  }

  /** `m` lies on the segment between `a` and `b`. */
  predicate Between(a: real, m: real, b: real)
  {
    (a <= m <= b) || (b <= m <= a)
  }

  /** Moves `oldPos` the fraction `factor` of the way towards `newPos`. */
  function SmoothPosition(newPos: Point, oldPos: Point, factor: real): (p: Point)
    ensures factor == 0.0 ==> p == oldPos
    ensures factor == 1.0 ==> p == newPos
    ensures newPos == oldPos ==> p == oldPos
    ensures 0.0 <= factor <= 1.0 ==>
              Between(oldPos.x, p.x, newPos.x) && Between(oldPos.y, p.y, newPos.y)
  {
    StepBetween(oldPos.x, newPos.x, factor);
    StepBetween(oldPos.y, newPos.y, factor);
    Point(oldPos.x + (newPos.x - oldPos.x) * factor,
          oldPos.y + (newPos.y - oldPos.y) * factor)
  }

  lemma StepBetween(a: real, b: real, factor: real)
    ensures 0.0 <= factor <= 1.0 ==> Between(a, a + (b - a) * factor, b)
  {
    if 1.0 < factor || factor < 0.0 {
    } else if a <= b {
      MulLe(a, b, factor);
      ScaledGapLe(a, b, factor);
    } else {
      MulLe(b, a, factor);
      ScaledGapLe(b, a, factor);
    }
  }

  /** `SmoothPosition` with the source's default factor: it moves strictly
      towards a different target without reaching it. */
  function SmoothPositionDefault(newPos: Point, oldPos: Point): (p: Point)
    ensures Between(oldPos.x, p.x, newPos.x) && Between(oldPos.y, p.y, newPos.y)
    ensures oldPos.x != newPos.x ==> p.x != oldPos.x && p.x != newPos.x
    ensures oldPos.y != newPos.y ==> p.y != oldPos.y && p.y != newPos.y
  {
    SmoothPosition(newPos, oldPos, DefaultSmoothingFactor)
  }

  /** `n` smoothing steps towards a fixed target. */
  function SmoothRepeatedly(target: Point, pos: Point, factor: real, n: nat): Point
  {
    if n == 0 then pos else SmoothPosition(target, SmoothRepeatedly(target, pos, factor, n - 1), factor)
  }

  /** Repeated smoothing towards a fixed target never overshoots it, and each
      step ends no farther from the target than the one before. */
  lemma {:induction false} SmoothRepeatedlyNoOvershoot(target: Point, pos: Point, factor: real, n: nat)
    requires 0.0 <= factor <= 1.0
    ensures Between(pos.x, SmoothRepeatedly(target, pos, factor, n).x, target.x)
    ensures Between(pos.y, SmoothRepeatedly(target, pos, factor, n).y, target.y)
    ensures n > 0 ==>
              Between(SmoothRepeatedly(target, pos, factor, n - 1).x, SmoothRepeatedly(target, pos, factor, n).x, target.x)
    ensures n > 0 ==>
              Between(SmoothRepeatedly(target, pos, factor, n - 1).y, SmoothRepeatedly(target, pos, factor, n).y, target.y)
  {
    if n > 0 {
      SmoothRepeatedlyNoOvershoot(target, pos, factor, n - 1);
    }
  }

  /** The colour of a heatmap cell: the three-band mapping of the theme. */
  function ColorForSignalStrength(strength: real): (c: string)
    ensures c == Colors.StrongColor <==> strength > -51.0
    ensures c == Colors.MediumColor <==> -72.0 < strength <= -51.0
    ensures c == Colors.WeakColor <==> strength <= -72.0
  {
    Colors.SignalStrengthColor(strength)
  }
}
