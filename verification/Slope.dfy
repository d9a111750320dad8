// The least-squares slope of internal/bandit/regret.go over a window of cumulative regret: it is
// always defined, and it lies between the smallest and the largest step of the window.
module Slope {

  // ---------------------------------------------------------------- the four running sums

  function SumX(k: nat): real { if k == 0 then 0.0 else SumX(k - 1) + (k - 1) as real }

  function SumX2(k: nat): real { if k == 0 then 0.0 else SumX2(k - 1) + (k - 1) as real * (k - 1) as real }

  function SumY(y: seq<real>, k: nat): real
    requires k <= |y|
  {
    if k == 0 then 0.0 else SumY(y, k - 1) + y[k - 1]
  }

  function SumXY(y: seq<real>, k: nat): real
    requires k <= |y|
  {
    if k == 0 then 0.0 else SumXY(y, k - 1) + (k - 1) as real * y[k - 1]
  }

  function Cross(n: real, sx: real, sy: real, sxy: real): real { n * sxy - sx * sy }

  function Denominator(k: nat): real { Cross(k as real, SumX(k), SumX(k), SumX2(k)) }

  function Numerator(y: seq<real>, k: nat): real
    requires k <= |y|
  {
    Cross(k as real, SumX(k), SumY(y, k), SumXY(y, k))
  }

  // ---------------------------------------------------------------- sums over pairs of points

  /** Squared distances from point `k` to the first `i` points. */
  function Spread(k: nat, i: nat): real {
    if i == 0 then 0.0 else Spread(k, i - 1) + (k as real - (i - 1) as real) * (k as real - (i - 1) as real)
  }

  /** Products of the two coordinate differences between point `k` and the first `i` points. */
  function Rise(y: seq<real>, k: nat, i: nat): real
    requires i <= k < |y|
  {
    if i == 0 then 0.0 else Rise(y, k, i - 1) + (k as real - (i - 1) as real) * (y[k] - y[i - 1])
  }

  function PairSpread(k: nat): real { if k == 0 then 0.0 else PairSpread(k - 1) + Spread(k - 1, k - 1) }

  function PairRise(y: seq<real>, k: nat): real
    requires k <= |y|
  {
    if k == 0 then 0.0 else PairRise(y, k - 1) + Rise(y, k - 1, k - 1)
  }

  /** Products of differences to the point (`x`, `v`), summed over `n` points with the given sums. */
  function Around(x: real, v: real, n: real, sx: real, sy: real, sxy: real): real {
    n * (x * v) - x * sy - sx * v + sxy
  }

  lemma {:induction false} SpreadSums(k: nat, i: nat)
    ensures var x := k as real;
            Spread(k, i) == i as real * (x * x) - 2.0 * x * SumX(i) + SumX2(i)
  {
    if i > 0 {
      SpreadSums(k, i - 1);
    }
  }

  lemma {:induction false} RiseSums(y: seq<real>, k: nat, i: nat)
    requires i <= k < |y|
    ensures Rise(y, k, i) == Around(k as real, y[k], i as real, SumX(i), SumY(y, i), SumXY(y, i))
  {
    if i == 0 {
      assert Around(k as real, y[k], 0.0, 0.0, 0.0, 0.0) == 0.0;
    } else {
      RiseSums(y, k, i - 1);
      hide Around;
      TermAdded((i - 1) as real, k as real, y[k], y[i - 1], SumX(i - 1), SumY(y, i - 1), SumXY(y, i - 1));
    }
  }

  /** How the numerator grows by one point at `x == n`. */
  lemma PointAdded(n: real, sx: real, sy: real, sxy: real, y: real, n': real, sx': real, sy': real, sxy': real)
    requires n' == n + 1.0 && sx' == sx + n && sy' == sy + y && sxy' == sxy + n * y
    ensures Cross(n', sx', sy', sxy') == Cross(n, sx, sy, sxy) + Around(n, y, n, sx, sy, sxy)
  {
    assert n' * sxy' == n * sxy + sxy + n * (n * y) + n * y;
    assert sx' * sy' == sx * sy + sx * y + n * sy + n * y;
  }

  lemma TermAdded(t: real, x: real, v: real, y: real, sx: real, sy: real, sxy: real)
    ensures Around(x, v, t, sx, sy, sxy) + (x - t) * (v - y) == Around(x, v, t + 1.0, sx + t, sy + y, sxy + t * y)
  {
    assert (x - t) * (v - y) == x * v - x * y - t * v + t * y;
  }

  lemma Scaled(d: real, lo: real, r: real, hi: real)
    requires d >= 0.0 && lo <= r <= hi
    ensures d * lo <= d * r <= d * hi
  {
    assert d * (r - lo) >= 0.0 && d * (hi - r) >= 0.0;
  }

  lemma {:induction false} PairwiseSpread(k: nat)
    ensures Denominator(k) == PairSpread(k)
  {
    if k > 0 {
      PairwiseSpread(k - 1);
      SpreadSums(k - 1, k - 1);
    }
  }

  lemma SumsStep(y: seq<real>, k: nat)
    requires k <= |y|
    ensures k == 0 ==> Numerator(y, k) == PairRise(y, k) == 0.0
    ensures k > 0 ==>
              && SumX(k) == SumX(k - 1) + (k - 1) as real
              && SumY(y, k) == SumY(y, k - 1) + y[k - 1]
              && SumXY(y, k) == SumXY(y, k - 1) + (k - 1) as real * y[k - 1]
              && PairRise(y, k) == PairRise(y, k - 1) + Rise(y, k - 1, k - 1)
  {
  }

  lemma {:induction false} PairwiseRise(y: seq<real>, k: nat)
    requires k <= |y|
    ensures Numerator(y, k) == PairRise(y, k)
  {
    SumsStep(y, k);
    hide SumX, SumY, SumXY, PairRise, Rise, Around, Cross;
    if k > 0 {
      PairwiseRise(y, k - 1);
      RiseSums(y, k - 1, k - 1);
      PointAdded((k - 1) as real, SumX(k - 1), SumY(y, k - 1), SumXY(y, k - 1), y[k - 1],
                 k as real, SumX(k), SumY(y, k), SumXY(y, k));
    }
  }

  // ---------------------------------------------------------------- bounds

  predicate StepWithin(y: seq<real>, i: int, lo: real, hi: real)
    requires 0 < i < |y|
  {
    lo <= y[i] - y[i - 1] <= hi
  }

  ghost predicate StepsWithin(y: seq<real>, lo: real, hi: real) {
    forall i :: 0 < i < |y| ==> StepWithin(y, i, lo, hi)
  }

  lemma ClimbStep(d: real, lo: real, hi: real, u: real, v: real)
    requires (d - 1.0) * lo <= u <= (d - 1.0) * hi && lo <= v <= hi
    ensures d * lo <= u + v <= d * hi
  {
    assert (d - 1.0) * lo == d * lo - lo && (d - 1.0) * hi == d * hi - hi;
  }

  lemma {:induction false} Climb(y: seq<real>, lo: real, hi: real, i: nat, k: nat, d: real)
    requires StepsWithin(y, lo, hi) && i <= k < |y| && d == (k - i) as real
    ensures d * lo <= y[k] - y[i] <= d * hi
    decreases k
  {
    if i < k {
      Climb(y, lo, hi, i, k - 1, d - 1.0);
      assert StepWithin(y, k, lo, hi);
      ClimbStep(d, lo, hi, y[k - 1] - y[i], y[k] - y[k - 1]);
    }
  }

  lemma TermWithin(lo: real, hi: real, s: real, n: real, d: real, r: real, s': real, n': real)
    requires d >= 0.0 && d * lo <= r <= d * hi && lo * s <= n <= hi * s
    requires s' == s + d * d && n' == n + d * r
    ensures lo * s' <= n' <= hi * s'
  {
    Scaled(d, d * lo, r, d * hi);
    assert lo * (s + d * d) == lo * s + d * (d * lo) && hi * (s + d * d) == hi * s + d * (d * hi);
  }

  lemma NoTerm(y: seq<real>, k: nat)
    requires k < |y|
    ensures Spread(k, 0) == 0.0 == Rise(y, k, 0)
  {
  }

  lemma NextTerm(y: seq<real>, k: nat, i: nat) returns (d: real)
    requires 0 < i <= k < |y|
    ensures d == (k - (i - 1)) as real && d > 0.0
    ensures Spread(k, i) == Spread(k, i - 1) + d * d && Rise(y, k, i) == Rise(y, k, i - 1) + d * (y[k] - y[i - 1])
  {
    d := k as real - (i - 1) as real;
  }

  lemma {:induction false} RiseWithin(y: seq<real>, lo: real, hi: real, k: nat, i: nat)
    requires StepsWithin(y, lo, hi) && i <= k < |y|
    ensures lo * Spread(k, i) <= Rise(y, k, i) <= hi * Spread(k, i)
  {
    hide Spread, Rise;
    if i == 0 {
      NoTerm(y, k);
    } else {
      RiseWithin(y, lo, hi, k, i - 1);
      var d := NextTerm(y, k, i);
      Climb(y, lo, hi, i - 1, k, d);
      TermWithin(lo, hi, Spread(k, i - 1), Rise(y, k, i - 1), d, y[k] - y[i - 1], Spread(k, i), Rise(y, k, i));
    }
  }

  lemma {:induction false} PairRiseWithin(y: seq<real>, lo: real, hi: real, k: nat)
    requires StepsWithin(y, lo, hi) && k <= |y|
    ensures lo * PairSpread(k) <= PairRise(y, k) <= hi * PairSpread(k)
  {
    if k > 0 {
      PairRiseWithin(y, lo, hi, k - 1);
      RiseWithin(y, lo, hi, k - 1, k - 1);
    }
  }

  lemma {:induction false} SpreadNotNegative(k: nat, i: nat)
    ensures Spread(k, i) >= 0.0
    ensures 0 < i <= k ==> Spread(k, i) > 0.0
  {
    if i > 0 {
      SpreadNotNegative(k, i - 1);
      var d := k as real - (i - 1) as real;
      assert i <= k ==> d > 0.0;
      assert d * d >= 0.0 && (d > 0.0 ==> d * d > 0.0);
    }
  }

  /** The denominator vanishes for fewer than two points and for no larger number. */
  lemma {:induction false} DenominatorPositive(k: nat)
    ensures Denominator(k) >= 0.0 && (Denominator(k) > 0.0 <==> k >= 2)
  {
    PairwiseSpread(k);
    if k > 0 {
      DenominatorPositive(k - 1);
      PairwiseSpread(k - 1);
      SpreadNotNegative(k - 1, k - 1);
    }
  }

  /** The slope is an average of the steps: it stays within any bounds they all obey. */
  lemma SlopeWithin(y: seq<real>, lo: real, hi: real)
    requires |y| >= 2 && StepsWithin(y, lo, hi)
    ensures Denominator(|y|) > 0.0 && lo <= Numerator(y, |y|) / Denominator(|y|) <= hi
  {
    DenominatorPositive(|y|);
    PairwiseSpread(|y|);
    PairwiseRise(y, |y|);
    PairRiseWithin(y, lo, hi, |y|);
    hide Numerator, Denominator, PairRise, PairSpread;
    QuotientWithin(Numerator(y, |y|), Denominator(|y|), PairRise(y, |y|), PairSpread(|y|), lo, hi);
  }

  lemma QuotientWithin(n: real, d: real, n': real, d': real, lo: real, hi: real)
    requires n == n' && d == d' > 0.0 && lo * d' <= n' <= hi * d'
    ensures lo <= n / d <= hi
  {
    var q := n / d;
    assert q * d == n;
    assert (q - lo) * d >= 0.0 && (hi - q) * d >= 0.0;
  }

  predicate Rises(y: seq<real>, i: int)
    requires 0 < i < |y|
  {
    y[i - 1] <= y[i]
  }

  ghost predicate NeverFalls(y: seq<real>) {
    forall i :: 0 < i < |y| ==> Rises(y, i)
  }

  lemma {:induction false} Ordered(y: seq<real>, i: nat, k: nat)
    requires NeverFalls(y) && i <= k < |y|
    ensures y[i] <= y[k]
  {
    if i < k {
      Ordered(y, i, k - 1);
      assert Rises(y, k);
    }
  }

  lemma ProductSign(d: real, r: real, n: real)
    requires d > 0.0 && r >= 0.0 && n >= 0.0
    ensures n + d * r >= n && (r > 0.0 ==> n + d * r > 0.0)
  {
  }

  lemma {:induction false} RiseSign(y: seq<real>, k: nat, i: nat)
    requires NeverFalls(y) && i <= k < |y|
    ensures Rise(y, k, i) >= 0.0
    ensures i > 0 && y[k] > y[0] ==> Rise(y, k, i) > 0.0
  {
    if i > 0 {
      RiseSign(y, k, i - 1);
      Ordered(y, i - 1, k);
      var d, r := k as real - (i - 1) as real, y[k] - y[i - 1];
      ProductSign(d, r, Rise(y, k, i - 1));
      assert Rise(y, k, i) == Rise(y, k, i - 1) + d * r;
    }
  }

  lemma {:induction false} PairRiseSign(y: seq<real>, k: nat)
    requires NeverFalls(y) && k <= |y|
    ensures PairRise(y, k) >= 0.0
    ensures k > 0 && y[k - 1] > y[0] ==> PairRise(y, k) > 0.0
  {
    if k > 0 {
      PairRiseSign(y, k - 1);
      RiseSign(y, k - 1, k - 1);
    }
  }

  /** For a series that never falls, the slope is zero exactly when nothing was added in the window. */
  lemma FlatExactly(y: seq<real>)
    requires |y| >= 2 && NeverFalls(y)
    ensures Numerator(y, |y|) >= 0.0
    ensures Numerator(y, |y|) == 0.0 <==> y[|y| - 1] == y[0]
  {
    PairwiseRise(y, |y|);
    PairRiseSign(y, |y|);
    Ordered(y, 0, |y| - 1);
    if y[|y| - 1] == y[0] {
      forall i | 0 < i < |y| ensures StepWithin(y, i, 0.0, 0.0) {
        Ordered(y, 0, i - 1);
        Ordered(y, i, |y| - 1);
        assert Rises(y, i);
      }
      PairRiseWithin(y, 0.0, 0.0, |y|);
    }
  }
}
