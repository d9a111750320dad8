// Welch's t-test of internal/eval/ab_runner.go: when it is defined, the range of its degrees of
// freedom, and the reflection step of the incomplete beta function.
module Welch {
  import opened CusumModel
  import Lentz
  import Pairs
  import opened Reals

  /** Sample variance around a given centre. */
  function SampleVariance(s: seq<real>, m: real): real {
    if |s| < 2 then 0.0 else SumSq(s, m) / (|s| - 1) as real
  }

  method ComputeVariance(s: seq<real>, m: real) returns (v: real)
    ensures v == SampleVariance(s, m)
  {
    if |s| < 2 {
      return 0.0;
    }
    var ss := 0.0;
    for i := 0 to |s|
      invariant ss == SumSq(s[..i], m)
    {
      assert s[..i + 1][..i] == s[..i];
      var d := s[i] - m;
      ss := ss + d * d;
    }
    assert s[..|s|] == s;
    v := ss / (|s| - 1) as real;
  }

  lemma {:induction false} SquaresExpand(s: seq<real>, m: real)
    ensures SumSq(s, m) == Pairs.Around(|s| as real, m, Sum(s), Pairs.SumSq(s))
  {
    if s == [] {
      assert Pairs.Around(0.0, m, 0.0, 0.0) == 0.0;
    } else {
      var n := |s| - 1;
      SquaresExpand(s[..n], m);
      var d := s[n] - m;
      assert Times(d, d) == Pairs.Sq(m - s[n]);
      hide Pairs.Around, Pairs.Sq, Times;
      Pairs.OneGap(n as real, m, Sum(s[..n]), Pairs.SumSq(s[..n]), s[n], |s| as real, Sum(s), Pairs.SumSq(s));
    }
  }

  /** The sample variance is half the mean squared difference over all ordered pairs of different positions. */
  lemma VarianceIsPairs(s: seq<real>)
    requires |s| >= 2
    ensures Times(SampleVariance(s, Mean(s)), Times(|s| as real, (|s| - 1) as real)) == Pairs.PairGaps(s)
  {
    SquaresExpand(s, Mean(s));
    Pairs.PairsExpand(s);
    hide Sum, SumSq, Pairs.SumSq, Pairs.PairGaps;
    var n, m, k := |s| as real, Mean(s), (|s| - 1) as real;
    var v, q := SampleVariance(s, m), SumSq(s, m);
    assert m * n == Sum(s) && v * k == q;
    CentreScales(n, m, Sum(s), Pairs.SumSq(s), q);
    assert v * (n * k) == (v * k) * n;
  }

  lemma CentreScales(n: real, m: real, s: real, q: real, c: real)
    requires m * n == s && c == Pairs.Around(n, m, s, q)
    ensures c * n == Pairs.Lagrange(n, s, q)
  {
    assert n * (m * m) * n == s * s;
    assert 2.0 * m * s * n == 2.0 * (s * s);
  }

  // ---------------------------------------------------------------- degrees of freedom

  /** Squared standard error of a mean. */
  function MeanError(s: seq<real>): real
    requires |s| >= 2
  {
    SampleVariance(s, Mean(s)) / |s| as real
  }

  predicate Constant(s: seq<real>) { forall i :: 0 <= i < |s| ==> s[i] == s[0] }

  /** A sample has no error exactly when it is constant. */
  lemma ErrorVanishes(s: seq<real>)
    requires |s| >= 2
    ensures MeanError(s) >= 0.0 && (MeanError(s) == 0.0 <==> Constant(s))
  {
    var m := Mean(s);
    SquaresVanish(s, m);
    QuotientSign(SumSq(s, m), (|s| - 1) as real);
    QuotientSign(SampleVariance(s, m), |s| as real);
    if Constant(s) {
      MeanOfSame(s, s[0]);
      assert SumSq(s, m) == 0.0;
    } else {
      assert SumSq(s, m) != 0.0;
    }
  }

  lemma MeanOfSame(s: seq<real>, x: real)
    requires s != [] && forall i :: 0 <= i < |s| ==> s[i] == x
    ensures Mean(s) == x
  {
    hide Sum;
    SumOfSame(s, x);
    var m, n := Mean(s), |s| as real;
    assert m * n == Sum(s);
    Cancel(m, x, n);
  }

  lemma QuotientSign(x: real, n: real)
    requires x >= 0.0 && n > 0.0
    ensures x / n >= 0.0 && (x / n == 0.0 <==> x == 0.0)
  {
    assert x / n * n == x;
  }

  function Spread(u: real, p: real): real
    requires p > 0.0
  {
    u * u / p
  }

  /** Cauchy's inequality for two terms, with the gap spelled out. */
  lemma SpreadGap(u: real, v: real, p: real, q: real) returns (x: real, w: real, g: real)
    requires p > 0.0 && q > 0.0
    ensures x == (p + q) * (Spread(u, p) + Spread(v, q)) && w > 0.0
    ensures x * w == (u + v) * (u + v) * w + g && g >= 0.0 && (g == 0.0 <==> q * u == p * v)
  {
    var a, b := Spread(u, p), Spread(v, q);
    var e := q * u - p * v;
    x, w, g := (p + q) * (a + b), p * q, e * e;
    ClearDivisors(p, q, a, b, u * u, v * v);
    CrossTerms(u, v, p, q);
    SquareSign(e);
    ProductPositive(p, q, w);
  }

  lemma ClearDivisors(p: real, q: real, a: real, b: real, c: real, d: real)
    requires p > 0.0 && q > 0.0 && a == c / p && b == d / q
    ensures (p + q) * (a + b) * (p * q) == (p + q) * (c * q + d * p)
  {
    assert a * p == c && b * q == d;
    assert (a + b) * (p * q) == (a * p) * q + (b * q) * p;
  }

  lemma CrossTerms(u: real, v: real, p: real, q: real)
    ensures (p + q) * (u * u * q + v * v * p) == (u + v) * (u + v) * (p * q) + (q * u - p * v) * (q * u - p * v)
  {
  }

  lemma SpreadPositive(u: real, v: real, p: real, q: real)
    requires u >= 0.0 && v >= 0.0 && u + v > 0.0 && p > 0.0 && q > 0.0
    ensures Spread(u, p) + Spread(v, q) > 0.0
  {
    SquareSign(u);
    SquareSign(v);
    QuotientSign(u * u, p);
    QuotientSign(v * v, q);
  }

  lemma SpreadSmall(u: real, p: real, m: real)
    requires 0.0 < m <= p
    ensures m * Spread(u, p) <= u * u
  {
    var a := Spread(u, p);
    SquareSign(u);
    QuotientSign(u * u, p);
    assert a * p == u * u;
    assert a * (p - m) >= 0.0;
  }

  function Freedom(u: real, v: real, p: real, q: real): real
    requires p > 0.0 && q > 0.0 && Spread(u, p) + Spread(v, q) != 0.0
  {
    (u + v) * (u + v) / (Spread(u, p) + Spread(v, q))
  }

  /** The degrees of freedom are defined whenever some error is positive, at least the smaller sample's and at
      most both samples' together, the latter exactly when the errors are in proportion. */
  lemma FreedomWithin(u: real, v: real, p: real, q: real)
    requires u >= 0.0 && v >= 0.0 && u + v > 0.0 && p > 0.0 && q > 0.0
    ensures Spread(u, p) + Spread(v, q) > 0.0
    ensures (if p < q then p else q) <= Freedom(u, v, p, q) <= p + q
    ensures Freedom(u, v, p, q) == p + q <==> q * u == p * v
  {
    hide Spread, Freedom;
    SpreadPositive(u, v, p, q);
    var m := if p < q then p else q;
    LowerSide(u, v, p, q, m);
    var n := UpperSide(u, v, p, q);
    FreedomBetween(u, v, p, q, m, p + q);
  }

  /** The Welch-Satterthwaite formula, without its divisions. */
  lemma FreedomFormula(u: real, v: real, p: real, q: real)
    requires p > 0.0 && q > 0.0 && Spread(u, p) + Spread(v, q) != 0.0
    ensures Times(Freedom(u, v, p, q), u * u * q + v * v * p) == Times(Times(u + v, u + v), Times(p, q))
  {
    var a, b, f := Spread(u, p), Spread(v, q), Freedom(u, v, p, q);
    assert a * p == u * u && b * q == v * v;
    assert f * (a + b) == (u + v) * (u + v);
    hide Spread, Freedom;
    Multiplied(f, a, b, p, q, u * u, v * v, (u + v) * (u + v));
  }

  lemma Multiplied(f: real, a: real, b: real, p: real, q: real, c: real, d: real, s: real)
    requires a * p == c && b * q == d && f * (a + b) == s
    ensures Times(f, c * q + d * p) == Times(s, Times(p, q))
  {
    assert c * q + d * p == (a + b) * (p * q);
    assert f * ((a + b) * (p * q)) == (f * (a + b)) * (p * q);
  }

  lemma FreedomBetween(u: real, v: real, p: real, q: real, lo: real, hi: real)
    requires p > 0.0 && q > 0.0
    requires var d := Spread(u, p) + Spread(v, q); d > 0.0 && lo * d <= (u + v) * (u + v) <= hi * d
    ensures lo <= Freedom(u, v, p, q) <= hi
    ensures Freedom(u, v, p, q) == hi <==> (u + v) * (u + v) == hi * (Spread(u, p) + Spread(v, q))
  {
    hide Spread;
    var d := Spread(u, p) + Spread(v, q);
    Quotient((u + v) * (u + v), d, lo, hi, hi * d);
  }

  lemma UpperSide(u: real, v: real, p: real, q: real) returns (n: real)
    requires p > 0.0 && q > 0.0
    ensures n == (u + v) * (u + v) && n <= (p + q) * (Spread(u, p) + Spread(v, q))
    ensures n == (p + q) * (Spread(u, p) + Spread(v, q)) <==> q * u == p * v
  {
    hide Spread;
    n := (u + v) * (u + v);
    var x, w, g := SpreadGap(u, v, p, q);
    UpperGap(x, n, w, g);
  }

  lemma LowerSide(u: real, v: real, p: real, q: real, m: real)
    requires u >= 0.0 && v >= 0.0 && 0.0 < m <= p && m <= q
    ensures m * (Spread(u, p) + Spread(v, q)) <= (u + v) * (u + v)
  {
    hide Spread;
    SpreadSmall(u, p, m);
    SpreadSmall(v, q, m);
    SquareOfSum(u, v);
  }

  lemma SquareOfSum(u: real, v: real)
    requires u >= 0.0 && v >= 0.0
    ensures u * u + v * v <= (u + v) * (u + v)
  {
    assert u * v >= 0.0;
    assert (u + v) * (u + v) == u * u + v * v + 2.0 * (u * v);
  }

  lemma UpperGap(x: real, n: real, w: real, g: real)
    requires x * w == n * w + g && g >= 0.0 && w > 0.0
    ensures n <= x && (n == x <==> g == 0.0)
  {
    assert (x - n) * w == g;
  }

  lemma Quotient(n: real, d: real, lo: real, hi: real, x: real)
    requires d > 0.0 && lo * d <= n <= x && x == hi * d
    ensures lo <= n / d <= hi && (n / d == hi <==> n == x)
  {
    var q := n / d;
    assert q * d == n;
    assert (q - lo) * d >= 0.0 && (hi - q) * d >= 0.0;
  }

  // ---------------------------------------------------------------- the incomplete beta function

  lemma ThresholdMirrors(a: real, b: real)
    requires a > 0.0 && b > 0.0
    ensures Lentz.Threshold(a, b) + Lentz.Threshold(b, a) == 1.0 && 0.0 < Lentz.Threshold(a, b) < 1.0
  {
    var t, s, n := Lentz.Threshold(a, b), Lentz.Threshold(b, a), a + b + 2.0;
    assert t * n == a + 1.0 && s * n == b + 1.0;
    assert (t + s - 1.0) * n == 0.0;
  }

  /** `front` stands for the factor made of logarithms and the gamma function. Reflecting happens at most once. */
  ghost function RegIncBeta(a: real, b: real, x: real, front: (real, real, real) -> real): real
    requires a > 0.0 && b > 0.0
    decreases x > Lentz.Threshold(a, b)
  {
    if x < 0.0 || x > 1.0 then 0.0
    else if x == 0.0 || x == 1.0 then x
    else if x > Lentz.Threshold(a, b) then
      ThresholdMirrors(a, b);
      1.0 - RegIncBeta(b, a, 1.0 - x, front)
    else front(a, b, x) * Lentz.Value(a, b, x)
  }

  /** Reflecting the argument and swapping the parameters gives the complement, away from the threshold, where neither
      side is reflected. */
  lemma BetaReflects(a: real, b: real, x: real, front: (real, real, real) -> real)
    requires a > 0.0 && b > 0.0 && 0.0 < x < 1.0 && x != Lentz.Threshold(a, b)
    ensures RegIncBeta(a, b, x, front) + RegIncBeta(b, a, 1.0 - x, front) == 1.0
  {
    ThresholdMirrors(a, b);
    hide Lentz.Threshold, Lentz.Value;
  }

  /** Up to the threshold the function is its front factor over the continued fraction, truncated after the last round
      of the loop. */
  lemma BetaIsQuotient(a: real, b: real, x: real, front: (real, real, real) -> real)
    requires a > 0.0 && b > 0.0 && 0.0 < x <= Lentz.Threshold(a, b) && a + b + 3.0 <= 100000000000000.0
    ensures var n := Lentz.Numerators(a, b, x);
            var j := 2 * Lentz.Rounds(n) + 1;
            && Lentz.PositiveTo(n, 1, j)
            && Times(RegIncBeta(a, b, x, front), Lentz.Nested(n, 1, j)) == front(a, b, x)
  {
    hide Lentz.Threshold, Lentz.Value, Lentz.Numerators, Lentz.Ends;
    Lentz.LoopIsFraction(a, b, x);
    DirectBeta(a, b, x, front);
    hide RegIncBeta;
    FrontOver(front(a, b, x), Lentz.Value(a, b, x),
              Lentz.Nested(Lentz.Numerators(a, b, x), 1, 2 * Lentz.Rounds(Lentz.Numerators(a, b, x)) + 1));
  }

  lemma DirectBeta(a: real, b: real, x: real, front: (real, real, real) -> real)
    requires a > 0.0 && b > 0.0 && 0.0 < x <= Lentz.Threshold(a, b)
    ensures RegIncBeta(a, b, x, front) == front(a, b, x) * Lentz.Value(a, b, x)
  {
    Lentz.ThresholdBelowOne(a, b);
    hide Lentz.Threshold, Lentz.Value;
  }

  lemma FrontOver(c: real, f: real, k: real)
    requires Times(f, k) == 1.0
    ensures Times(c * f, k) == c
  {
    assert c * f * k == c * (f * k);
  }

  method IncompleteBeta(a: real, b: real, x: real, front: (real, real, real) -> real) returns (r: real)
    requires a > 0.0 && b > 0.0
    ensures r == RegIncBeta(a, b, x, front)
    decreases x > Lentz.Threshold(a, b)
  {
    hide Lentz.Threshold, Lentz.Value;
    if x < 0.0 || x > 1.0 {
      return 0.0;
    }
    if x == 0.0 || x == 1.0 {
      return x;
    }
    if x > Lentz.Threshold(a, b) {
      ThresholdMirrors(a, b);
      r := IncompleteBeta(b, a, 1.0 - x, front);
      return 1.0 - r;
    }
    var f := Lentz.ContinuedFraction(a, b, x);
    r := front(a, b, x) * f;
  }

  /** Wherever the function enters its continued fraction, directly or after reflecting, the loop returns exactly the
      truncated fraction. */
  ghost predicate Exact(a: real, b: real, x: real)
    requires a > 0.0 && b > 0.0
  {
    0.0 < x < 1.0 ==>
      if x <= Lentz.Threshold(a, b) then Lentz.IsFraction(a, b, x) else Lentz.IsFraction(b, a, 1.0 - x)
  }

  lemma BetaExact(a: real, b: real, x: real)
    requires a > 0.0 && b > 0.0 && a + b + 3.0 <= 100000000000000.0
    ensures Exact(a, b, x)
  {
    hide Lentz.IsFraction, Lentz.Threshold;
    if 0.0 < x < 1.0 {
      ThresholdMirrors(a, b);
      if x <= Lentz.Threshold(a, b) {
        Lentz.LoopIsFraction(a, b, x);
      } else {
        Lentz.LoopIsFraction(b, a, 1.0 - x);
      }
    }
  }

  // ---------------------------------------------------------------- the test

  /** The argument of the beta function: how much of `df` plus the squared statistic is `df`. */
  function Argument(df: real, gap: real, error: real): (x: real)
    requires df > 0.0 && error > 0.0
    ensures 0.0 < x <= 1.0 && (x == 1.0 <==> gap == 0.0)
    ensures Times(1.0 - x, Times(df, error)) == Times(x, Times(gap, gap))
  {
    SquareOver(gap, error, gap * gap / error);
    PartOf(df, gap * gap / error);
    OddsOf(df, gap * gap, error, gap * gap / error, df / (df + gap * gap / error));
    df / (df + gap * gap / error)
  }

  /** The tail of the test for squared errors `u` and `v`, samples of `p + 1` and `q + 1` values and means `gap`
      apart. */
  method Tail(u: real, v: real, p: real, q: real, gap: real, front: (real, real, real) -> real)
    returns (confidence: real)
    requires u >= 0.0 && v >= 0.0 && u + v > 0.0 && p > 0.0 && q > 0.0
    ensures Spread(u, p) + Spread(v, q) > 0.0 && Freedom(u, v, p, q) > 0.0
    ensures var df := Freedom(u, v, p, q);
            confidence == 1.0 - RegIncBeta(df / 2.0, 0.5, Argument(df, gap, u + v), front)
  {
    hide Spread, Freedom, RegIncBeta, Argument;
    FreedomWithin(u, v, p, q);
    if Spread(u, p) + Spread(v, q) == 0.0 {
      return 0.0;
    }
    var df := Freedom(u, v, p, q);
    var x := Argument(df, gap, u + v);
    var tail := IncompleteBeta(df / 2.0, 0.5, x, front);
    confidence := 1.0 - tail;
  }

  /** The degrees of freedom of two samples that are not both constant. */
  function SampleFreedom(a: seq<real>, b: seq<real>): (df: real)
    requires |a| >= 2 && |b| >= 2 && !(Constant(a) && Constant(b))
    ensures Min2(|a|, |b|) - 1.0 <= df <= (|a| + |b| - 2) as real
    ensures MeanError(a) + MeanError(b) > 0.0
  {
    ErrorVanishes(a);
    ErrorVanishes(b);
    FreedomWithin(MeanError(a), MeanError(b), |a| as real - 1.0, |b| as real - 1.0);
    Freedom(MeanError(a), MeanError(b), |a| as real - 1.0, |b| as real - 1.0)
  }

  /** For samples of at most 10^14 values together no guard of the continued fraction fires. */
  lemma SampleExact(a: seq<real>, b: seq<real>)
    requires |a| >= 2 && |b| >= 2 && !(Constant(a) && Constant(b)) && |a| + |b| <= 100000000000000
    ensures var df := SampleFreedom(a, b);
            df > 0.0 && Exact(df / 2.0, 0.5, Argument(df, Mean(a) - Mean(b), MeanError(a) + MeanError(b)))
  {
    var df := SampleFreedom(a, b);
    var x := Argument(df, Mean(a) - Mean(b), MeanError(a) + MeanError(b));
    hide Exact, Mean, MeanError, Argument, SampleFreedom, Constant;
    BetaExact(df / 2.0, 0.5, x);
  }

  /** One minus the p-value; `front` is the factor before the continued fraction of the incomplete beta function. */
  method TTestConfidence(a: seq<real>, b: seq<real>, front: (real, real, real) -> real) returns (confidence: real)
    ensures |a| < 2 || |b| < 2 ==> confidence == 0.0
    ensures |a| >= 2 && |b| >= 2 && Constant(a) && Constant(b) ==> confidence == 0.0
    ensures |a| >= 2 && |b| >= 2 && !(Constant(a) && Constant(b)) ==>
              var df := SampleFreedom(a, b);
              var x := Argument(df, Mean(a) - Mean(b), MeanError(a) + MeanError(b));
              confidence == 1.0 - RegIncBeta(df / 2.0, 0.5, x, front)
  {
    if |a| < 2 || |b| < 2 {
      return 0.0;
    }
    var nA, nB := |a| as real, |b| as real;
    var meanA, meanB := Mean(a), Mean(b);
    var varA := ComputeVariance(a, meanA);
    var varB := ComputeVariance(b, meanB);
    ErrorVanishes(a);
    ErrorVanishes(b);
    hide Mean, SampleVariance, Constant, RegIncBeta, Argument, Freedom, Spread;
    var u, v := varA / nA, varB / nB;
    if u + v == 0.0 {
      return 0.0;
    }
    confidence := Tail(u, v, nA - 1.0, nB - 1.0, meanA - meanB, front);
  }

  function Min2(m: nat, n: nat): real { if m < n then m as real else n as real }

  lemma SquareOver(d: real, n: real, t: real)
    requires n > 0.0 && t == d * d / n
    ensures t >= 0.0 && (t == 0.0 <==> d == 0.0)
  {
    SquareSign(d);
    QuotientSign(d * d, n);
  }

  /** The odds of the argument are the degrees of freedom over the squared statistic. */
  lemma OddsOf(df: real, g: real, error: real, t: real, x: real)
    requires df > 0.0 && error > 0.0 && t == g / error >= 0.0 && x == df / (df + t)
    ensures Times(1.0 - x, Times(df, error)) == Times(x, g)
  {
    assert t * error == g && x * (df + t) == df;
    assert (1.0 - x) * df == x * t;
    assert (1.0 - x) * (df * error) == ((1.0 - x) * df) * error;
    assert (x * t) * error == x * (t * error);
  }

  lemma PartOf(df: real, t: real)
    requires df > 0.0 && t >= 0.0
    ensures 0.0 < df / (df + t) <= 1.0 && (df / (df + t) == 1.0 <==> t == 0.0)
  {
    var x := df / (df + t);
    assert x * (df + t) == df;
    assert (1.0 - x) * (df + t) == t;
  }
}
