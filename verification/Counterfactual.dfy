// Self-normalized importance weighting of internal/eval/counterfactual.go: the effective sample size
// and the estimates stay where their meaning puts them.
module Counterfactual {
  import opened Pairs
  import opened Reals

  datatype Observation = Observation(passed: bool, cost: real)

  /** The estimates, the variance behind the interval, and the interval. */
  datatype Estimate = Estimate(
    completion: real, cost: real, samples: nat, effective: real, variance: real, low: real, high: real)

  const NORMAL_95: real := 1.96

  /** A propensity clamped to (0, 1]. */
  function Clamp(w: real): (r: real)
    ensures 0.0 < r <= 1.0
    ensures 0.0 < w <= 1.0 ==> r == w
    ensures w <= 0.0 ==> r == 0.0000000001
    ensures w > 1.0 ==> r == 1.0
  {
    var up := if w <= 0.0 then 0.0000000001 else w;
    if up > 1.0 then 1.0 else up
  }

  /** `a` is `total` divided by `s`. */
  predicate Scales(a: real, s: real, total: real) { a * s == total }

  /** Weight of the observations that passed. */
  function Passed(o: seq<Observation>, w: seq<real>): real
    requires |o| == |w|
  {
    if w == [] then 0.0
    else Passed(o[..|w| - 1], w[..|w| - 1]) + if o[|w| - 1].passed then w[|w| - 1] else 0.0
  }

  function Costs(o: seq<Observation>, w: seq<real>): real
    requires |o| == |w|
  {
    if w == [] then 0.0 else Costs(o[..|w| - 1], w[..|w| - 1]) + w[|w| - 1] * o[|w| - 1].cost
  }

  ghost predicate Positive(w: seq<real>) { forall i :: 0 <= i < |w| ==> w[i] > 0.0 }

  // ---------------------------------------------------------------- effective sample size

  lemma {:induction false} SumsPositive(w: seq<real>)
    requires Positive(w)
    ensures w != [] ==> Sum(w) > 0.0 && SumSq(w) > 0.0
    ensures Sum(w) >= 0.0 && SumSq(w) >= 0.0
    ensures Sum(w) * Sum(w) >= SumSq(w) && (|w| > 1 ==> Sum(w) * Sum(w) > SumSq(w))
  {
    if w != [] {
      var n := |w| - 1;
      SumsPositive(w[..n]);
      assert n > 0 ==> Sum(w[..n]) > 0.0;
      SquareGrows(Sum(w[..n]), SumSq(w[..n]), w[n]);
    }
  }

  lemma SquareGrows(s: real, q: real, y: real)
    requires s >= 0.0 && y > 0.0 && s * s >= q >= 0.0
    ensures (s + y) * (s + y) >= q + y * y > 0.0
    ensures s > 0.0 ==> (s + y) * (s + y) > q + y * y
  {
    assert (s + y) * (s + y) == s * s + 2.0 * (s * y) + y * y;
    ProductPositive(y, y, y * y);
    if s > 0.0 {
      ProductPositive(s, y, s * y);
    }
  }

  function Effective(sum: real, sumSq: real): real
    requires sumSq != 0.0
  {
    sum * sum / sumSq
  }

  /** Between one and the number of observations; all of them exactly for equal weights, one exactly for one. */
  lemma EffectiveWithin(w: seq<real>)
    requires w != [] && Positive(w)
    ensures SumSq(w) > 0.0 && 1.0 <= Effective(Sum(w), SumSq(w)) <= |w| as real
    ensures Effective(Sum(w), SumSq(w)) == |w| as real <==> AllEqual(w)
    ensures Effective(Sum(w), SumSq(w)) == 1.0 <==> |w| == 1
  {
    hide Sum, SumSq, PairGaps;
    SumsPositive(w);
    PairsExpand(w);
    PairsSign(w);
    if |w| == 1 {
      assert AllEqual(w);
    }
    Ratio(Sum(w) * Sum(w), SumSq(w), |w| as real, PairGaps(w));
  }

  lemma Ratio(s: real, q: real, n: real, gap: real)
    requires q > 0.0 && gap == n * q - s >= 0.0 && s >= q
    ensures 1.0 <= s / q <= n && (s / q == n <==> gap == 0.0) && (s / q == 1.0 <==> s == q)
  {
    var e := s / q;
    assert e * q == s;
    assert (n - e) * q == gap && (e - 1.0) * q == s - q;
  }

  // ---------------------------------------------------------------- estimates

  lemma {:induction false} PassedWithin(o: seq<Observation>, w: seq<real>)
    requires |o| == |w| && Positive(w)
    ensures 0.0 <= Passed(o, w) <= Sum(w)
    ensures Passed(o, w) == Sum(w) <==> forall i :: 0 <= i < |o| ==> o[i].passed
    ensures Passed(o, w) == 0.0 <==> forall i :: 0 <= i < |o| ==> !o[i].passed
  {
    if w != [] {
      var n := |w| - 1;
      PassedWithin(o[..n], w[..n]);
      SumsPositive(w[..n]);
      assert (forall i :: 0 <= i < |o| ==> o[i].passed) <==>
             (forall i :: 0 <= i < n ==> o[..n][i].passed) && o[n].passed;
      assert (forall i :: 0 <= i < |o| ==> !o[i].passed) <==>
             (forall i :: 0 <= i < n ==> !o[..n][i].passed) && !o[n].passed;
    }
  }

  lemma {:induction false} CostsWithin(o: seq<Observation>, w: seq<real>, lo: real, hi: real)
    requires |o| == |w| && Positive(w) && CostsBetween(o, lo, hi)
    ensures lo * Sum(w) <= Costs(o, w) <= hi * Sum(w)
  {
    if w != [] {
      var n := |w| - 1;
      CostsWithin(o[..n], w[..n], lo, hi);
      OneCost(Sum(w[..n]), Costs(o[..n], w[..n]), w[n], o[n].cost, lo, hi);
    }
  }

  lemma OneCost(s: real, c: real, w: real, cost: real, lo: real, hi: real)
    requires w > 0.0 && lo <= cost <= hi && lo * s <= c <= hi * s
    ensures lo * (s + w) <= c + w * cost <= hi * (s + w)
  {
    assert w * (cost - lo) >= 0.0 && w * (hi - cost) >= 0.0;
  }

  lemma IsAverage(a: real, s: real, total: real, lo: real, hi: real)
    requires s > 0.0 && Scales(a, s, total) && lo * s <= total <= hi * s
    ensures lo <= a <= hi && (a == lo <==> total == lo * s) && (a == hi <==> total == hi * s)
  {
    assert (a - lo) * s >= 0.0 && (hi - a) * s >= 0.0;
  }

  lemma CompletionWithin(o: seq<Observation>, w: seq<real>, p: real)
    requires |o| == |w| && w != [] && Positive(w) && Scales(p, Sum(w), Passed(o, w))
    ensures 0.0 <= p <= 1.0
    ensures p == 1.0 <==> AllPassed(o)
    ensures p == 0.0 <==> NonePassed(o)
  {
    hide Sum, Passed;
    SumsPositive(w);
    PassedWithin(o, w);
    IsAverage(p, Sum(w), Passed(o, w), 0.0, 1.0);
  }

  ghost predicate CostsBetween(o: seq<Observation>, lo: real, hi: real) {
    forall i :: 0 <= i < |o| ==> lo <= o[i].cost <= hi
  }

  /** What one observation with value `x` adds to a weighted average. */
  lemma OneShare(a: real, w: real, s: real, x: real, total: real, a': real)
    requires s > 0.0 && Scales(a, s, total) && a' == a + w / s * x
    ensures Scales(a', s, total + w * x)
  {
    var r := w / s;
    assert r * s == w;
    assert (a + r * x) * s == a * s + (r * s) * x;
  }

  function Indicator(o: Observation): real { if o.passed then 1.0 else 0.0 }

  /** Weighted squares of the indicator around `p`. */
  function Deviation(o: seq<Observation>, w: seq<real>, p: real): real
    requires |o| == |w|
  {
    if w == [] then 0.0
    else
      Deviation(o[..|w| - 1], w[..|w| - 1], p) + w[|w| - 1] * Sq(Indicator(o[|w| - 1]) - p)
  }

  function Spread(a: real, s: real, p: real): real { a - 2.0 * (p * a) + p * p * s }

  lemma {:induction false} DeviationExpands(o: seq<Observation>, w: seq<real>, p: real)
    requires |o| == |w|
    ensures Deviation(o, w, p) == Spread(Passed(o, w), Sum(w), p)
  {
    if w == [] {
      assert Spread(0.0, 0.0, p) == 0.0;
    } else {
      hide Spread, Sq;
      var n := |w| - 1;
      DeviationExpands(o[..n], w[..n], p);
      OneDeviation(Passed(o[..n], w[..n]), Sum(w[..n]), p, w[n], o[n]);
    }
  }

  lemma OneDeviation(a: real, s: real, p: real, w: real, o: Observation)
    ensures Spread(a, s, p) + w * Sq(Indicator(o) - p) == Spread(a + if o.passed then w else 0.0, s + w, p)
  {
    if o.passed {
      assert w * ((1.0 - p) * (1.0 - p)) == w - 2.0 * (p * w) + p * p * w;
    } else {
      assert w * ((0.0 - p) * (0.0 - p)) == p * p * w;
    }
  }

  function Bernoulli(p: real): real { p * (1.0 - p) }

  lemma BernoulliVariance(v: real, s: real, p: real, a: real, dev: real)
    requires s > 0.0 && Scales(v, s, dev) && Scales(p, s, a) && dev == Spread(a, s, p)
    ensures v == Bernoulli(p)
  {
    assert p * p * s == p * a;
    assert dev == p * s - p * (p * s);
    assert (v - (p - p * p)) * s == 0.0;
  }

  // ---------------------------------------------------------------- the loops

  method Weigh(o: seq<Observation>, policy: Observation -> real) returns (w: seq<real>, sum: real, sumSq: real)
    ensures |w| == |o| && Positive(w) && sum == Sum(w) && sumSq == SumSq(w)
    ensures forall i :: 0 <= i < |o| ==> w[i] == Clamp(policy(o[i]))
  {
    var weights := new real[|o|];
    sum, sumSq := 0.0, 0.0;
    for i := 0 to |o|
      invariant forall k :: 0 <= k < i ==> weights[k] == Clamp(policy(o[k]))
      invariant sum == Sum(weights[..i]) && sumSq == SumSq(weights[..i])
    {
      var c := Clamp(policy(o[i]));
      ghost var before := weights[..i];
      weights[i] := c;
      assert weights[..i + 1] == before + [c] && weights[..i + 1][..i] == before;
      sum, sumSq := sum + c, sumSq + c * c;
    }
    w := weights[..];
    assert weights[..|o|] == w;
  }

  lemma PassedNext(o: seq<Observation>, w: seq<real>, i: nat)
    requires |o| == |w| && i < |o|
    ensures Passed(o[..i + 1], w[..i + 1]) == Passed(o[..i], w[..i]) + if o[i].passed then w[i] else 0.0
    ensures Costs(o[..i + 1], w[..i + 1]) == Costs(o[..i], w[..i]) + w[i] * o[i].cost
  {
    assert o[..i + 1][..i] == o[..i] && w[..i + 1][..i] == w[..i];
  }

  method Averages(o: seq<Observation>, w: seq<real>, sum: real) returns (completion: real, cost: real)
    requires |o| == |w| && sum > 0.0
    ensures Scales(completion, sum, Passed(o, w)) && Scales(cost, sum, Costs(o, w))
  {
    completion, cost := 0.0, 0.0;
    for i := 0 to |o|
      invariant Scales(completion, sum, Passed(o[..i], w[..i]))
      invariant Scales(cost, sum, Costs(o[..i], w[..i]))
    {
      hide Passed, Costs, Scales;
      PassedNext(o, w, i);
      var share := w[i] / sum;
      OneShare(completion, w[i], sum, 1.0, Passed(o[..i], w[..i]), completion + share);
      OneShare(cost, w[i], sum, o[i].cost, Costs(o[..i], w[..i]), cost + share * o[i].cost);
      if o[i].passed {
        completion := completion + share;
      }
      cost := cost + share * o[i].cost;
    }
    assert o[..|o|] == o && w[..|o|] == w;
  }

  method Scatter(o: seq<Observation>, w: seq<real>, sum: real, p: real) returns (v: real)
    requires |o| == |w| && sum > 0.0
    ensures Scales(v, sum, Deviation(o, w, p))
  {
    v := 0.0;
    for i := 0 to |o|
      invariant Scales(v, sum, Deviation(o[..i], w[..i], p))
    {
      assert o[..i + 1][..i] == o[..i] && w[..i + 1][..i] == w[..i];
      hide Scales, Sq;
      var square := Sq(Indicator(o[i]) - p);
      var added := v + w[i] / sum * square;
      OneShare(v, w[i], sum, square, Deviation(o[..i], w[..i], p), added);
      v := added;
    }
    assert o[..|o|] == o && w[..|o|] == w;
  }

  ghost predicate AllPassed(o: seq<Observation>) { forall i :: 0 <= i < |o| ==> o[i].passed }

  ghost predicate NonePassed(o: seq<Observation>) { forall i :: 0 <= i < |o| ==> !o[i].passed }

  /** The policy gives every observation the same weight. */
  ghost predicate Alike(o: seq<Observation>, policy: Observation -> real) {
    forall i :: 0 <= i < |o| ==> Clamp(policy(o[i])) == Clamp(policy(o[0]))
  }

  /** The clamped propensities of the observations under the policy. */
  function Weights(o: seq<Observation>, policy: Observation -> real): (w: seq<real>)
    ensures |w| == |o| && Positive(w) && forall i :: 0 <= i < |o| ==> w[i] == Clamp(policy(o[i]))
  {
    seq(|o|, i requires 0 <= i < |o| => Clamp(policy(o[i])))
  }

  /** The estimates are the averages under these weights. */
  ghost predicate IsWeighted(o: seq<Observation>, w: seq<real>, r: Estimate)
    requires |o| == |w|
  {
    && Scales(r.completion, Sum(w), Passed(o, w)) && Scales(r.cost, Sum(w), Costs(o, w))
    && Scales(r.variance, Sum(w), Deviation(o, w, r.completion))
    && SumSq(w) != 0.0 && r.effective == Effective(Sum(w), SumSq(w))
  }

  /** The interval is 1.96 standard errors to each side, and the standard error is the root of the variance over the
      effective sample size. */
  ghost predicate IsInterval(r: Estimate, se: real) {
    && r.low == r.completion - 1.96 * se && r.high == r.completion + 1.96 * se
    && se >= 0.0 && Times(Times(se, se), r.effective) == r.variance
  }

  /** A standard error is at most one half, and zero exactly for a rate of zero or one. */
  lemma IntervalWithin(r: Estimate, se: real)
    requires IsInterval(r, se) && r.effective >= 1.0 && 0.0 <= r.completion <= 1.0
    requires r.variance == Bernoulli(r.completion)
    ensures r.low <= r.completion <= r.high && r.high - r.low <= 1.96
    ensures r.low == r.high <==> r.completion == 0.0 || r.completion == 1.0
  {
    var p, q := r.completion, se * se;
    assert q * r.effective == p * (1.0 - p);
    SquareSign(se);
    SquareSign(p - 0.5);
    assert p * (1.0 - p) == 0.25 - (p - 0.5) * (p - 0.5);
    RootBound(se, q, r.effective);
    ZeroProduct(q, r.effective);
    ZeroProduct(p, 1.0 - p);
  }

  lemma RootBound(se: real, q: real, e: real)
    requires se >= 0.0 && q == se * se && e >= 1.0 && q * e <= 0.25 && q >= 0.0
    ensures se <= 0.5
  {
    assert q * (e - 1.0) >= 0.0;
    if se > 0.5 {
      ProductPositive(se - 0.5, se + 0.5, (se - 0.5) * (se + 0.5));
    }
  }

  lemma ZeroProduct(x: real, y: real)
    ensures x * y == 0.0 <==> x == 0.0 || y == 0.0
  {
  }

  lemma StandardError(root: real -> real, v: real, e: real)
    requires IsRoot(root) && v >= 0.0 && e >= 1.0
    ensures v / e >= 0.0 && root(v / e) >= 0.0 && Times(Times(root(v / e), root(v / e)), e) == v
  {
    var q := v / e;
    assert q * e == v;
    assert q >= 0.0;
    assert Times(root(q), root(q)) == q;
  }

  /** The weighted averages: a completion rate, a cost within the observed ones, the Bernoulli variance of the rate, an
      effective sample size that is the whole sample exactly when the policy treats all observations alike, and an
      interval around the rate that is a point exactly when all observations agree. */
  ghost predicate IsEstimate(o: seq<Observation>, policy: Observation -> real, r: Estimate, se: real) {
    && IsWeighted(o, Weights(o, policy), r)
    && r.samples == |o| && 1.0 <= r.effective <= |o| as real
    && (r.effective == |o| as real <==> Alike(o, policy)) && (r.effective == 1.0 <==> |o| == 1)
    && 0.0 <= r.completion <= 1.0
    && (r.completion == 1.0 <==> AllPassed(o)) && (r.completion == 0.0 <==> NonePassed(o))
    && (forall lo, hi :: CostsBetween(o, lo, hi) ==> lo <= r.cost <= hi)
    && r.variance == Bernoulli(r.completion)
    && IsInterval(r, se) && r.high - r.low <= 1.96 && (r.low == r.high <==> AllPassed(o) || NonePassed(o))
  }

  lemma CostWithin(o: seq<Observation>, w: seq<real>, cost: real)
    requires |o| == |w| && w != [] && Positive(w) && Scales(cost, Sum(w), Costs(o, w))
    ensures forall lo, hi :: CostsBetween(o, lo, hi) ==> lo <= cost <= hi
  {
    hide Sum, Costs, CostsBetween;
    SumsPositive(w);
    forall lo, hi | CostsBetween(o, lo, hi) ensures lo <= cost <= hi {
      CostsWithin(o, w, lo, hi);
      IsAverage(cost, Sum(w), Costs(o, w), lo, hi);
    }
  }

  lemma AlikeWeights(o: seq<Observation>, policy: Observation -> real, w: seq<real>)
    requires |o| == |w| && forall i :: 0 <= i < |o| ==> w[i] == Clamp(policy(o[i]))
    ensures AllEqual(w) <==> Alike(o, policy)
  {
  }

  /** How many observations passed. */
  function PassCount(o: seq<Observation>): nat {
    if o == [] then 0 else PassCount(o[..|o| - 1]) + if o[|o| - 1].passed then 1 else 0
  }

  /** The sums of `k` members of weight `u` and cost `c` and `l` members of weight `v` and cost `d`. */
  ghost predicate AreGroups(sum: real, passed: real, costs: real, k: int, l: int, u: real, v: real, c: real, d: real) {
    var p, f := Times(k as real, u), Times(l as real, v);
    sum == p + f && passed == p && costs == Times(p, c) + Times(f, d)
  }

  lemma OneMorePassed(sum: real, passed: real, costs: real, k: int, l: int, u: real, v: real, c: real, d: real)
    requires AreGroups(sum, passed, costs, k, l, u, v, c, d)
    ensures AreGroups(sum + u, passed + u, costs + u * c, k + 1, l, u, v, c, d)
  {
    OneMember(k as real, u, c);
  }

  lemma OneMoreFailed(sum: real, passed: real, costs: real, k: int, l: int, u: real, v: real, c: real, d: real)
    requires AreGroups(sum, passed, costs, k, l, u, v, c, d)
    ensures AreGroups(sum + v, passed, costs + v * d, k, l + 1, u, v, c, d)
  {
    OneMember(l as real, v, d);
  }

  lemma OneMember(k: real, u: real, c: real)
    ensures Times(k + 1.0, u) == Times(k, u) + u && Times(Times(k + 1.0, u), c) == Times(Times(k, u), c) + u * c
  {
  }

  lemma NoGroups(u: real, v: real, c: real, d: real)
    ensures AreGroups(0.0, 0.0, 0.0, 0, 0, u, v, c, d)
  {
  }

  predicate InGroups(o: Observation, w: real, u: real, v: real, c: real, d: real) {
    if o.passed then w == u && o.cost == c else w == v && o.cost == d
  }

  /** When all passed observations cost `c` and weigh `u`, and all others cost `d` and weigh `v`, each group counts with
      its size times its weight. */
  lemma GroupsWeigh(o: seq<Observation>, w: seq<real>, r: Estimate, u: real, v: real, c: real, d: real)
    requires |o| == |w| && IsWeighted(o, w, r) && forall i :: 0 <= i < |o| ==> InGroups(o[i], w[i], u, v, c, d)
    ensures var p, f := Times(PassCount(o) as real, u), Times((|o| - PassCount(o)) as real, v);
            Times(r.completion, p + f) == p && Times(r.cost, p + f) == Times(p, c) + Times(f, d)
  {
    hide Passed, Costs, Sum, Deviation, PassCount, Scales, AreGroups;
    GroupSums(o, w, u, v, c, d);
    GroupShares(r.completion, r.cost, Sum(w), Passed(o, w), Costs(o, w), PassCount(o), |o| - PassCount(o), u, v, c, d);
  }

  lemma GroupShares(completion: real, cost: real, sum: real, passed: real, costs: real, k: int, l: int, u: real,
                    v: real,
                    c: real, d: real)
    requires AreGroups(sum, passed, costs, k, l, u, v, c, d)
    requires Scales(completion, sum, passed) && Scales(cost, sum, costs)
    ensures var p, f := Times(k as real, u), Times(l as real, v);
            Times(completion, p + f) == p && Times(cost, p + f) == Times(p, c) + Times(f, d)
  {
    assert Times(completion, sum) == passed && Times(cost, sum) == costs;
    hide Times;
  }

  lemma SameProduct(x: real, y: real, u: real, c: real)
    requires x == u && y == c
    ensures x * y == u * c
  {
  }

  lemma {:induction false} GroupSums(o: seq<Observation>, w: seq<real>, u: real, v: real, c: real, d: real)
    requires |o| == |w| && forall i :: 0 <= i < |o| ==> InGroups(o[i], w[i], u, v, c, d)
    ensures AreGroups(Sum(w), Passed(o, w), Costs(o, w), PassCount(o), |o| - PassCount(o), u, v, c, d)
  {
    hide AreGroups, InGroups;
    if o == [] {
      NoGroups(u, v, c, d);
    } else {
      var n := |o| - 1;
      GroupSums(o[..n], w[..n], u, v, c, d);
      NextMember(o, w, u, v, c, d);
    }
  }

  lemma NextMember(o: seq<Observation>, w: seq<real>, u: real, v: real, c: real, d: real)
    requires |o| == |w| && o != [] && InGroups(o[|o| - 1], w[|o| - 1], u, v, c, d)
    requires var x, y := o[..|o| - 1], w[..|o| - 1];
             AreGroups(Sum(y), Passed(x, y), Costs(x, y), PassCount(x), |x| - PassCount(x), u, v, c, d)
    ensures AreGroups(Sum(w), Passed(o, w), Costs(o, w), PassCount(o), |o| - PassCount(o), u, v, c, d)
  {
    hide AreGroups;
    var x, y := o[..|o| - 1], w[..|o| - 1];
    SameProduct(w[|o| - 1], o[|o| - 1].cost, if o[|o| - 1].passed then u else v, if o[|o| - 1].passed then c else d);
    var k, l := PassCount(x), |x| - PassCount(x);
    assert Sum(w) == Sum(y) + w[|o| - 1] && Costs(o, w) == Costs(x, y) + w[|o| - 1] * o[|o| - 1].cost;
    if o[|o| - 1].passed {
      OneMorePassed(Sum(y), Passed(x, y), Costs(x, y), k, l, u, v, c, d);
      assert Passed(o, w) == Passed(x, y) + u && PassCount(o) == k + 1 && |o| - PassCount(o) == l;
      assert Sum(w) == Sum(y) + u && Costs(o, w) == Costs(x, y) + u * c;
    } else {
      OneMoreFailed(Sum(y), Passed(x, y), Costs(x, y), k, l, u, v, c, d);
      assert Passed(o, w) == Passed(x, y) && PassCount(o) == k && |o| - PassCount(o) == l + 1;
      assert Sum(w) == Sum(y) + v && Costs(o, w) == Costs(x, y) + v * d;
    }
  }

  method EvaluatePolicy(o: seq<Observation>, policy: Observation -> real, root: real -> real)
    returns (r: Estimate, ghost se: real)
    requires IsRoot(root)
    ensures o == [] ==> r == Estimate(0.0, 0.0, 0, 0.0, 0.0, 0.0, 0.0)
    ensures o != [] ==> IsEstimate(o, policy, r, se)
  {
    if o == [] {
      return Estimate(0.0, 0.0, 0, 0.0, 0.0, 0.0, 0.0), 0.0;
    }
    hide Sum, SumSq, Passed, Costs, Deviation, CostsBetween, Alike, AllEqual, AllPassed, NonePassed, Spread, Scales,
         Effective, Bernoulli, IsRoot, IsInterval;
    var w, sum, sumSq := Weigh(o, policy);
    assert w == Weights(o, policy);
    SumsPositive(w);
    var completion, cost := Averages(o, w, sum);
    var effective := Effective(sum, sumSq);
    var variance := Scatter(o, w, sum, completion);
    EffectiveWithin(w);
    AlikeWeights(o, policy, w);
    CompletionWithin(o, w, completion);
    CostWithin(o, w, cost);
    DeviationExpands(o, w, completion);
    BernoulliVariance(variance, sum, completion, Passed(o, w), Deviation(o, w, completion));
    var low, high, error := Interval(completion, variance, effective, root);
    se := error;
    r := Estimate(completion, cost, |o|, effective, variance, low, high);
    IntervalOf(r, se);
    IntervalWithin(r, se);
  }

  method Interval(p: real, v: real, e: real, root: real -> real) returns (low: real, high: real, se: real)
    requires IsRoot(root) && v == Bernoulli(p) && 0.0 <= p <= 1.0 && e >= 1.0
    ensures se >= 0.0 && Times(Times(se, se), e) == v
    ensures low == p - NORMAL_95 * se && high == p + NORMAL_95 * se
  {
    Product(p, 1.0 - p);
    StandardError(root, v, e);
    se := root(v / e);
    low, high := p - NORMAL_95 * se, p + NORMAL_95 * se;
  }

  lemma IntervalOf(r: Estimate, se: real)
    requires r.low == r.completion - NORMAL_95 * se && r.high == r.completion + NORMAL_95 * se
    requires se >= 0.0 && Times(Times(se, se), r.effective) == r.variance
    ensures IsInterval(r, se)
  {
  }
}
