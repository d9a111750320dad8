// The regret accounting of internal/bandit/regret.go: totals per arm, cumulative regret against the
// empirically best arm, and the identity between the two.
module Regret {
  import opened Common
  import opened Slope

  type Name = nat

  datatype Pull = Pull(arm: Name, reward: real, step: nat)

  datatype ArmRegret = ArmRegret(arm: Name, pulls: nat, total: real, mean: real, contrib: real, fraction: real)

  datatype Report = Report(
    cumulative: seq<real>, arms: seq<ArmRegret>, rate: real, best: Option<Name>, total: real, pulls: nat, bound: real)

  // ---------------------------------------------------------------- sums over the history

  function Pulls(h: seq<Pull>, a: Name): nat {
    if h == [] then 0 else Pulls(h[..|h| - 1], a) + if h[|h| - 1].arm == a then 1 else 0
  }

  function RewardOf(h: seq<Pull>, a: Name): real {
    if h == [] then 0.0 else RewardOf(h[..|h| - 1], a) + if h[|h| - 1].arm == a then h[|h| - 1].reward else 0.0
  }

  function TotalReward(h: seq<Pull>): real {
    if h == [] then 0.0 else TotalReward(h[..|h| - 1]) + h[|h| - 1].reward
  }

  function Positive(x: real): real { if x < 0.0 then 0.0 else x }

  /** Cumulative regret of the whole history against the mean `opt`. */
  function Cumulative(h: seq<Pull>, opt: real): real {
    if h == [] then 0.0 else Cumulative(h[..|h| - 1], opt) + Positive(opt - h[|h| - 1].reward)
  }

  /** What the rewards above `opt` add up to; the step-wise clamp hides exactly this. */
  function Excess(h: seq<Pull>, opt: real): real {
    if h == [] then 0.0 else Excess(h[..|h| - 1], opt) + Positive(h[|h| - 1].reward - opt)
  }

  /** Unclamped regret of the pulls of the arms in `s`. */
  ghost function Gap(h: seq<Pull>, s: set<Name>, opt: real): real {
    if h == [] then 0.0
    else Gap(h[..|h| - 1], s, opt) + if h[|h| - 1].arm in s then opt - h[|h| - 1].reward else 0.0
  }

  lemma OneMore(n: nat, x: real)
    ensures (n + 1) as real * x == n as real * x + x
  {
  }

  lemma {:induction false} GapAdds(h: seq<Pull>, s: set<Name>, a: Name, opt: real)
    requires a !in s
    ensures Gap(h, s + {a}, opt) == Gap(h, s, opt) + (Pulls(h, a) as real * opt - RewardOf(h, a))
  {
    if h != [] {
      var g := h[..|h| - 1];
      GapAdds(g, s, a, opt);
      OneMore(Pulls(g, a), opt);
    }
  }

  lemma {:induction false} GapOfNone(h: seq<Pull>, opt: real)
    ensures Gap(h, {}, opt) == 0.0
  {
    if h != [] {
      GapOfNone(h[..|h| - 1], opt);
    }
  }

  lemma {:induction false} GapOfAll(h: seq<Pull>, s: set<Name>, opt: real)
    requires forall i :: 0 <= i < |h| ==> h[i].arm in s
    ensures Gap(h, s, opt) == |h| as real * opt - TotalReward(h)
  {
    if h != [] {
      GapOfAll(h[..|h| - 1], s, opt);
      OneMore(|h| - 1, opt);
    }
  }

  lemma {:induction false} CumulativeSplits(h: seq<Pull>, opt: real)
    ensures Cumulative(h, opt) == |h| as real * opt - TotalReward(h) + Excess(h, opt)
  {
    if h != [] {
      var n := |h| - 1;
      CumulativeSplits(h[..n], opt);
      OneMore(n, opt);
    }
  }

  lemma {:induction false} ExcessVanishes(h: seq<Pull>, opt: real)
    ensures Excess(h, opt) >= 0.0
    ensures Excess(h, opt) == 0.0 <==> forall i :: 0 <= i < |h| ==> h[i].reward <= opt
  {
    if h != [] {
      var n := |h| - 1;
      ExcessVanishes(h[..n], opt);
      assert (forall i :: 0 <= i < |h| ==> h[i].reward <= opt) <==>
             (forall i :: 0 <= i < n ==> h[..n][i].reward <= opt) && h[n].reward <= opt;
    }
  }

  lemma {:induction false} PullsCount(h: seq<Pull>, a: Name)
    ensures Pulls(h, a) > 0 <==> exists i :: 0 <= i < |h| && h[i].arm == a
    ensures Pulls(h, a) == 0 ==> RewardOf(h, a) == 0.0
  {
    if h != [] {
      var n := |h| - 1;
      PullsCount(h[..n], a);
      assert (exists i :: 0 <= i < |h| && h[i].arm == a) <==>
             (exists i :: 0 <= i < n && h[..n][i].arm == a) || h[n].arm == a;
    }
  }

  // ---------------------------------------------------------------- the report

  function SumContribs(l: seq<ArmRegret>): real {
    if l == [] then 0.0 else SumContribs(l[..|l| - 1]) + l[|l| - 1].contrib
  }

  function SumFractions(l: seq<ArmRegret>): real {
    if l == [] then 0.0 else SumFractions(l[..|l| - 1]) + l[|l| - 1].fraction
  }

  predicate MeanIs(h: seq<Pull>, a: Name, m: real) { RewardOf(h, a) == Pulls(h, a) as real * m }

  predicate MeanAtMost(h: seq<Pull>, a: Name, m: real) { RewardOf(h, a) <= Pulls(h, a) as real * m }

  /** `opt` is the largest mean of the pulled arms, and `best` has it. */
  ghost predicate IsOptimal(h: seq<Pull>, opt: real, best: Name) {
    && Pulls(h, best) > 0 && MeanIs(h, best, opt)
    && forall a :: Pulls(h, a) > 0 ==> MeanAtMost(h, a, opt)
  }

  predicate IsContrib(h: seq<Pull>, opt: real, r: ArmRegret) {
    && r.pulls == Pulls(h, r.arm) > 0 && r.total == RewardOf(h, r.arm)
    && r.mean * r.pulls as real == r.total
    && r.contrib == r.pulls as real * opt - r.total >= 0.0
  }

  predicate IsFraction(r: ArmRegret, total: real) {
    if total > 0.0 then r.fraction * total == r.contrib else r.fraction == 0.0
  }

  ghost function ArmsOf(l: seq<ArmRegret>): set<Name> { set i | 0 <= i < |l| :: l[i].arm }

  /** Entries for different arms. */
  ghost predicate AreBreakdowns(h: seq<Pull>, opt: real, total: real, l: seq<ArmRegret>) {
    l == [] ||
    (var k, r := l[..|l| - 1], l[|l| - 1];
     AreBreakdowns(h, opt, total, k) && r.arm !in ArmsOf(k) && IsContrib(h, opt, r) && IsFraction(r, total))
  }

  lemma ContribOf(h: seq<Pull>, opt: real, r: ArmRegret)
    requires IsContrib(h, opt, r)
    ensures r.contrib == Pulls(h, r.arm) as real * opt - RewardOf(h, r.arm) >= 0.0
  {
  }

  lemma {:induction false} ContribsRegroup(h: seq<Pull>, opt: real, total: real, l: seq<ArmRegret>)
    requires AreBreakdowns(h, opt, total, l)
    ensures SumContribs(l) == Gap(h, ArmsOf(l), opt)
  {
    hide IsContrib, IsFraction;
    if l == [] {
      assert ArmsOf(l) == {};
      GapOfNone(h, opt);
    } else {
      var k, x := l[..|l| - 1], l[|l| - 1].arm;
      ContribsRegroup(h, opt, total, k);
      GapAdds(h, ArmsOf(k), x, opt);
      assert ArmsOf(l) == ArmsOf(k) + {x};
      ContribOf(h, opt, l[|l| - 1]);
    }
  }

  lemma {:induction false} FractionsScale(h: seq<Pull>, opt: real, total: real, l: seq<ArmRegret>)
    requires AreBreakdowns(h, opt, total, l)
    ensures total > 0.0 ==> SumFractions(l) * total == SumContribs(l)
    ensures total <= 0.0 ==> SumFractions(l) == 0.0
  {
    if l != [] {
      FractionsScale(h, opt, total, l[..|l| - 1]);
    }
  }

  ghost predicate IsReport(h: seq<Pull>, r: Report, opt: real) {
    && r.pulls == |h| > 0 && r.best.Some? && IsOptimal(h, opt, r.best.value)
    && |r.cumulative| == |h| && (forall i :: 0 <= i < |h| ==> r.cumulative[i] == Cumulative(h[..i + 1], opt))
    && r.total == Cumulative(h, opt)
    && AreBreakdowns(h, opt, r.total, r.arms) && (forall i :: 0 <= i < |h| ==> h[i].arm in ArmsOf(r.arms))
  }

  /** The contributions add up to what the best arm would have earned on top; their sum falls short of the total
      regret by the rewards above the best mean, so the fractions sum to at most one, and to one only without those. */
  lemma RegretAccounts(h: seq<Pull>, r: Report, opt: real)
    requires IsReport(h, r, opt)
    ensures SumContribs(r.arms) == |h| as real * opt - TotalReward(h)
    ensures SumContribs(r.arms) == r.total - Excess(h, opt)
    ensures 0.0 <= SumFractions(r.arms) <= 1.0
    ensures SumFractions(r.arms) == 1.0 <==> r.total > 0.0 && forall i :: 0 <= i < |h| ==> h[i].reward <= opt
  {
    hide IsContrib, IsFraction, IsOptimal;
    ContribsRegroup(h, opt, r.total, r.arms);
    GapOfAll(h, ArmsOf(r.arms), opt);
    CumulativeSplits(h, opt);
    ExcessVanishes(h, opt);
    FractionsScale(h, opt, r.total, r.arms);
    ContribsNotNegative(h, opt, r.total, r.arms);
    Fraction(SumFractions(r.arms), r.total, SumContribs(r.arms));
  }

  lemma {:induction false} ContribsNotNegative(h: seq<Pull>, opt: real, total: real, l: seq<ArmRegret>)
    requires AreBreakdowns(h, opt, total, l)
    ensures SumContribs(l) >= 0.0
  {
    if l != [] {
      ContribsNotNegative(h, opt, total, l[..|l| - 1]);
    }
  }

  lemma Fraction(f: real, total: real, sum: real)
    requires 0.0 <= sum <= total
    requires if total > 0.0 then f * total == sum else f == 0.0
    ensures 0.0 <= f <= 1.0 && (f == 1.0 <==> total > 0.0 && sum == total)
  {
    if total > 0.0 {
      assert f * total >= 0.0 && (1.0 - f) * total == total - sum;
    }
  }

  // ---------------------------------------------------------------- the convergence rate

  function Window(y: seq<real>): (w: seq<real>) { Suffix(y, 100) }

  function Rate(y: seq<real>): real {
    var w := Window(y);
    if |y| < 2 || Denominator(|w|) == 0.0 then 0.0 else Numerator(w, |w|) / Denominator(|w|)
  }

  method Sums(y: seq<real>) returns (sumX: real, sumY: real, sumXY: real, sumX2: real)
    ensures sumX == SumX(|y|) && sumY == SumY(y, |y|) && sumXY == SumXY(y, |y|) && sumX2 == SumX2(|y|)
  {
    sumX, sumY, sumXY, sumX2 := 0.0, 0.0, 0.0, 0.0;
    for i := 0 to |y|
      invariant sumX == SumX(i) && sumY == SumY(y, i)
      invariant sumXY == SumXY(y, i)
      invariant sumX2 == SumX2(i)
    {
      var x := i as real;
      sumX, sumY, sumXY, sumX2 := sumX + x, sumY + y[i], sumXY + x * y[i], sumX2 + x * x;
    }
  }

  method ConvergenceRate(y: seq<real>) returns (rate: real)
    ensures rate == Rate(y)
  {
    hide Cross, SumX, SumY, SumXY, SumX2;
    if |y| < 2 {
      return 0.0;
    }
    var tail := y[|y| - Min(|y|, 100)..];
    var sumX, sumY, sumXY, sumX2 := Sums(tail);
    var denom := Cross(|tail| as real, sumX, sumX, sumX2);
    if denom == 0.0 {
      return 0.0;
    }
    rate := Cross(|tail| as real, sumX, sumY, sumXY) / denom;
  }

  /** From two pulls on the zero guard never fires: the rate is the slope, not negative and between any bounds on the
      regret of each step. */
  lemma RateWithin(h: seq<Pull>, opt: real, y: seq<real>, least: real, most: real)
    requires |y| == |h| >= 2 && forall i :: 0 <= i < |h| ==> y[i] == Cumulative(h[..i + 1], opt)
    requires forall i :: 0 <= i < |h| && i > |h| - 100 ==>
               least <= (if opt > h[i].reward then opt - h[i].reward else 0.0) <= most
    ensures Denominator(|Window(y)|) > 0.0
    ensures least <= Rate(y) <= most && Rate(y) >= 0.0
    ensures Rate(y) == 0.0 <==> y[|y| - 1] == y[if |y| <= 100 then 0 else |y| - 100]
  {
    var w := Window(y);
    var off := |y| - |w|;
    forall i | 0 < i < |w|
      ensures StepWithin(w, i, least, most) && StepWithin(w, i, 0.0, Max2(0.0, most)) && Rises(w, i)
    {
      var k := off + i;
      assert w[i] == y[k] && w[i - 1] == y[k - 1];
      assert h[..k + 1][..k] == h[..k];
    }
    hide Denominator, Numerator;
    SlopeWithin(w, least, most);
    SlopeWithin(w, 0.0, Max2(0.0, most));
    FlatExactly(w);
    ZeroQuotient(Numerator(w, |w|), Denominator(|w|));
  }

  function Max2(x: real, y: real): real { if x < y then y else x }

  lemma ZeroQuotient(n: real, d: real)
    requires d > 0.0
    ensures n / d == 0.0 <==> n == 0.0
  {
    assert n / d * d == n;
  }

  // ---------------------------------------------------------------- the tracker

  class RegretTracker {
    var history: seq<Pull>
    var armPulls: map<Name, nat>
    var armReward: map<Name, real>

    ghost predicate Valid()
      reads this
    {
      && armPulls.Keys == armReward.Keys
      && (forall a :: a in armPulls <==> Pulls(history, a) > 0)
      && (forall a :: a in armPulls ==> armPulls[a] == Pulls(history, a) && armReward[a] == RewardOf(history, a))
      && (forall i :: 0 <= i < |history| ==> history[i].step == i)
    }

    constructor ()
      ensures Valid() && history == []
    {
      history, armPulls, armReward := [], map[], map[];
    }

    method RecordPull(arm: Name, reward: real)
      requires Valid()
      modifies this
      ensures Valid() && history == old(history) + [Pull(arm, reward, |old(history)|)]
    {
      ghost var was := history;
      PullsCount(was, arm);
      history := history + [Pull(arm, reward, |history|)];
      assert history[..|history| - 1] == was;
      armPulls := armPulls[arm := (if arm in armPulls then armPulls[arm] else 0) + 1];
      armReward := armReward[arm := (if arm in armReward then armReward[arm] else 0.0) + reward];
    }

    /** The arm of the highest mean; ties are broken by the unspecified order of the map. */
    method Best() returns (best: Name, mean: real)
      requires Valid() && history != []
      ensures IsOptimal(history, mean, best)
    {
      hide MeanIs, MeanAtMost, RewardOf, Pulls;
      var found: Option<(Name, real)> := None;
      var left := armReward.Keys;
      while left != {}
        invariant left <= armReward.Keys
        invariant found.None? <==> left == armReward.Keys
        invariant found.Some? ==> found.value.0 in armReward && MeanIs(history, found.value.0, found.value.1)
        invariant found.Some? ==> forall a :: a in armReward.Keys - left ==> MeanAtMost(history, a, found.value.1)
        decreases |left|
      {
        var arm :| arm in left;
        var m := armReward[arm] / armPulls[arm] as real;
        MeanQuotient(history, arm, m);
        if found.None? || m > found.value.1 {
          forall a | a in armReward.Keys - left ensures MeanAtMost(history, a, m) {
            LargerMean(history, a, found.value.1, m);
          }
          found := Some((arm, m));
        } else {
          LargerMean(history, arm, m, found.value.1);
        }
        left := left - {arm};
      }
      PullsCount(history, history[0].arm);
      assert history[0].arm in armReward.Keys;
      best, mean := found.value.0, found.value.1;
    }

    method Regrets(opt: real) returns (cumulative: seq<real>, total: real)
      requires Valid()
      ensures total == Cumulative(history, opt) && |cumulative| == |history|
      ensures forall i :: 0 <= i < |history| ==> cumulative[i] == Cumulative(history[..i + 1], opt)
    {
      var series := new real[|history|];
      total := 0.0;
      for i := 0 to |history|
        invariant total == Cumulative(history[..i], opt)
        invariant forall k :: 0 <= k < i ==> series[k] == Cumulative(history[..k + 1], opt)
      {
        assert history[..i + 1][..i] == history[..i];
        var instantaneous := opt - history[i].reward;
        if instantaneous < 0.0 {
          instantaneous := 0.0;
        }
        total := total + instantaneous;
        series[i] := total;
      }
      assert history[..|history|] == history;
      cumulative := series[..];
    }

    method Entry(arm: Name, opt: real, total: real) returns (r: ArmRegret)
      requires Valid() && arm in armPulls && MeanAtMost(history, arm, opt)
      ensures IsContrib(history, opt, r) && IsFraction(r, total) && r.arm == arm
    {
      hide Pulls, RewardOf;
      var pulls, reward := armPulls[arm], armReward[arm];
      var mean := reward / pulls as real;
      var contrib := pulls as real * (opt - mean);
      ContribExact(pulls, reward, mean, opt, contrib);
      if contrib < 0.0 {
        contrib := 0.0;
      }
      var frac := if total > 0.0 then contrib / total else 0.0;
      r := ArmRegret(arm, pulls, reward, mean, contrib, frac);
    }

    method Breakdown(opt: real, total: real, ghost best: Name) returns (l: seq<ArmRegret>)
      requires Valid() && IsOptimal(history, opt, best)
      ensures AreBreakdowns(history, opt, total, l) && ArmsOf(l) == armPulls.Keys
    {
      hide IsContrib, IsFraction, MeanAtMost;
      l := [];
      var left := armPulls.Keys;
      while left != {}
        invariant left <= armPulls.Keys
        invariant AreBreakdowns(history, opt, total, l) && ArmsOf(l) == armPulls.Keys - left
        decreases |left|
      {
        var arm :| arm in left;
        var r := Entry(arm, opt, total);
        ArmsSnoc(l, r);
        assert (l + [r])[..|l|] == l;
        l := l + [r];
        left := left - {arm};
      }
    }

    /** `root` stands for the bound's root of arms times pulls times the logarithm of the pulls. */
    method MakeReport(root: (nat, nat) -> real) returns (r: Report, ghost opt: real)
      requires Valid()
      ensures history == [] ==> r == Report([], [], 0.0, None, 0.0, 0, 0.0)
      ensures history != [] ==> IsReport(history, r, opt) && r.rate == Rate(r.cumulative)
      ensures history != [] ==> r.bound == if |history| > 1 then root(|r.arms|, |history|) else 0.0
    {
      if history == [] {
        opt := 0.0;
        return Report([], [], 0.0, None, 0.0, 0, 0.0), opt;
      }
      var best, mean := Best();
      opt := mean;
      var cumulative, total := Regrets(mean);
      var arms := Breakdown(mean, total, best);
      var rate := ConvergenceRate(cumulative);
      r := Report(cumulative, arms, rate, Some(best), total, |history|,
        if |history| > 1 then root(|armPulls|, |history|) else 0.0);
      ArmsCount(history, mean, total, arms);
      forall i | 0 <= i < |history| ensures history[i].arm in ArmsOf(arms) {
        PullsCount(history, history[i].arm);
      }
    }
  }

  lemma MeanQuotient(h: seq<Pull>, a: Name, m: real)
    requires Pulls(h, a) > 0 && m == RewardOf(h, a) / Pulls(h, a) as real
    ensures MeanIs(h, a, m) && MeanAtMost(h, a, m)
  {
  }

  lemma LargerMean(h: seq<Pull>, a: Name, m: real, m': real)
    requires m <= m' && MeanAtMost(h, a, m)
    ensures MeanAtMost(h, a, m')
  {
    hide RewardOf, Pulls;
    var n := Pulls(h, a) as real;
    assert n * (m' - m) >= 0.0;
  }

  /** The clamp of a contribution never fires. */
  lemma ContribExact(n: nat, reward: real, mean: real, opt: real, contrib: real)
    requires n > 0 && mean == reward / n as real && reward <= n as real * opt
    requires contrib == n as real * (opt - mean)
    ensures mean * n as real == reward && contrib == n as real * opt - reward >= 0.0
  {
    assert mean * n as real == reward;
  }

  /** There is one breakdown for each arm. */
  lemma {:induction false} ArmsCount(h: seq<Pull>, opt: real, total: real, l: seq<ArmRegret>)
    requires AreBreakdowns(h, opt, total, l)
    ensures |ArmsOf(l)| == |l|
  {
    if l == [] {
      assert ArmsOf(l) == {};
    } else {
      var k := l[..|l| - 1];
      ArmsCount(h, opt, total, k);
      ArmsSnoc(k, l[|l| - 1]);
      assert k + [l[|l| - 1]] == l;
    }
  }

  lemma ArmsSnoc(l: seq<ArmRegret>, r: ArmRegret)
    ensures ArmsOf(l + [r]) == ArmsOf(l) + {r.arm}
  {
    var k := l + [r];
    forall a | a in ArmsOf(l) ensures a in ArmsOf(k) {
      var i :| 0 <= i < |l| && l[i].arm == a;
      assert k[i].arm == a;
    }
    assert k[|l|].arm == r.arm;
  }
}
