// Discounted UCB1 of internal/bandit/ucb.go: the running discounts are explicit weighted sums over the
// pulls so far, and selection is always defined.
module Ucb {
  import opened Common
  import opened Reals

  type Name = nat

  datatype Pull = Pull(arm: Name, value: real)

  datatype Arm = Arm(n: real, sum: real, pulls: nat)

  // ---------------------------------------------------------------- explicit sums

  function Pow(g: real, k: nat): real { if k == 0 then 1.0 else Times(g, Pow(g, k - 1)) }

  /** Weight of pull `j` after the whole history: one discount for every later pull. */
  function Weight(h: seq<Pull>, g: real, j: nat): real
    requires j < |h|
  {
    Pow(g, |h| - 1 - j)
  }

  /** Weights of the first `i` pulls that were of arm `a`. */
  function CountTo(h: seq<Pull>, a: Name, g: real, i: nat): real
    requires i <= |h|
  {
    if i == 0 then 0.0 else CountTo(h, a, g, i - 1) + if h[i - 1].arm == a then Weight(h, g, i - 1) else 0.0
  }

  function SumTo(h: seq<Pull>, a: Name, g: real, i: nat): real
    requires i <= |h|
  {
    if i == 0 then 0.0
    else SumTo(h, a, g, i - 1) + if h[i - 1].arm == a then Times(Weight(h, g, i - 1), h[i - 1].value) else 0.0
  }

  function TotalTo(h: seq<Pull>, g: real, i: nat): real
    requires i <= |h|
  {
    if i == 0 then 0.0 else TotalTo(h, g, i - 1) + Weight(h, g, i - 1)
  }

  function Pulls(h: seq<Pull>, a: Name): nat {
    if h == [] then 0 else Pulls(h[..|h| - 1], a) + if h[|h| - 1].arm == a then 1 else 0
  }

  // ---------------------------------------------------------------- one more pull

  lemma {:induction false} OlderByOne(h: seq<Pull>, x: Pull, a: Name, g: real, i: nat)
    requires i <= |h|
    ensures CountTo(h + [x], a, g, i) == Times(g, CountTo(h, a, g, i))
    ensures SumTo(h + [x], a, g, i) == Times(g, SumTo(h, a, g, i))
    ensures TotalTo(h + [x], g, i) == Times(g, TotalTo(h, g, i))
  {
    TimesZero(g);
    hide Times;
    if i > 0 {
      OlderByOne(h, x, a, g, i - 1);
      var w, v := Weight(h, g, i - 1), h[i - 1].value;
      assert Weight(h + [x], g, i - 1) == Times(g, w);
      Distribute(g, CountTo(h, a, g, i - 1), w);
      Distribute(g, TotalTo(h, g, i - 1), w);
      Distribute(g, SumTo(h, a, g, i - 1), Times(w, v));
      Associate(g, w, v);
    }
  }

  lemma TimesZero(g: real)
    ensures Times(g, 0.0) == 0.0
  {
  }

  lemma Distribute(g: real, s: real, w: real)
    ensures Times(g, s + w) == Times(g, s) + Times(g, w)
  {
  }

  lemma Associate(g: real, w: real, v: real)
    ensures Times(Times(g, w), v) == Times(g, Times(w, v))
  {
    assert (g * w) * v == g * (w * v);
  }

  /** Discounting everything and crediting one arm is what the next pull does to the explicit sums. */
  lemma NextPull(h: seq<Pull>, x: Pull, a: Name, g: real)
    ensures var n := |h|; var t := h + [x];
            && CountTo(t, a, g, n + 1) == Times(g, CountTo(h, a, g, n)) + (if x.arm == a then 1.0 else 0.0)
            && SumTo(t, a, g, n + 1) == Times(g, SumTo(h, a, g, n)) + (if x.arm == a then x.value else 0.0)
            && TotalTo(t, g, n + 1) == Times(g, TotalTo(h, g, n)) + 1.0
            && Pulls(t, a) == Pulls(h, a) + (if x.arm == a then 1 else 0)
  {
    OlderByOne(h, x, a, g, |h|);
    assert (h + [x])[..|h|] == h;
    assert Weight(h + [x], g, |h|) == 1.0;
    assert Times(1.0, x.value) == x.value;
    hide Times;
  }

  // ---------------------------------------------------------------- ranges

  lemma {:induction false} PowPositive(g: real, k: nat)
    requires g > 0.0
    ensures Pow(g, k) > 0.0
  {
    if k > 0 {
      PowPositive(g, k - 1);
      assert Times(g, Pow(g, k - 1)) > 0.0;
    }
  }

  /** An arm has weight exactly when it was pulled; its weighted rewards lie within the bounds of its rewards. */
  lemma {:induction false} ArmWithin(h: seq<Pull>, a: Name, g: real, i: nat, lo: real, hi: real)
    requires 0.0 < g && i <= |h| && forall j :: 0 <= j < |h| ==> lo <= h[j].value <= hi
    ensures CountTo(h, a, g, i) >= 0.0
    ensures CountTo(h, a, g, i) > 0.0 <==> exists j :: 0 <= j < i && h[j].arm == a
    ensures Times(lo, CountTo(h, a, g, i)) <= SumTo(h, a, g, i) <= Times(hi, CountTo(h, a, g, i))
  {
    TimesZero(lo);
    TimesZero(hi);
    hide Times;
    if i > 0 {
      ArmWithin(h, a, g, i - 1, lo, hi);
      PowPositive(g, |h| - i);
      assert h[i - 1].arm == a ==> exists j :: 0 <= j < i && h[j].arm == a;
      WeighIn(CountTo(h, a, g, i - 1), SumTo(h, a, g, i - 1), Weight(h, g, i - 1), h[i - 1].value, lo, hi);
    }
  }

  lemma WeighIn(n: real, s: real, w: real, v: real, lo: real, hi: real)
    requires w > 0.0 && lo <= v <= hi && Times(lo, n) <= s <= Times(hi, n)
    ensures Times(lo, n + w) <= s + Times(w, v) <= Times(hi, n + w)
  {
    assert w * (v - lo) >= 0.0 && w * (hi - v) >= 0.0;
  }

  /** The total is a geometric sum, and at least one from the first pull on. */
  lemma {:induction false} TotalIsGeometric(h: seq<Pull>, g: real)
    requires 0.0 < g <= 1.0
    ensures Times(TotalTo(h, g, |h|), 1.0 - g) == 1.0 - Pow(g, |h|)
    ensures TotalTo(h, g, |h|) >= 0.0 && (h != [] ==> TotalTo(h, g, |h|) >= 1.0)
    decreases |h|
  {
    if h == [] {
      assert Times(0.0, 1.0 - g) == 0.0;
    } else {
      hide Times;
      var k := h[..|h| - 1];
      TotalIsGeometric(k, g);
      assert h == k + [h[|k|]];
      NextPull(k, h[|k|], 0, g);
      Geometric(TotalTo(k, g, |k|), g, Pow(g, |k|));
    }
  }

  lemma Geometric(t: real, g: real, p: real)
    requires 0.0 < g && t >= 0.0 && Times(t, 1.0 - g) == 1.0 - p
    ensures Times(Times(g, t) + 1.0, 1.0 - g) == 1.0 - Times(g, p) && Times(g, t) >= 0.0
  {
    assert (g * t) * (1.0 - g) == g * (t * (1.0 - g));
    assert g * t >= 0.0;
  }

  /** The counts of different arms that cover the pulls add up to the total. */
  function Counts(h: seq<Pull>, ks: seq<Name>, g: real): real {
    if ks == [] then 0.0 else Counts(h, ks[..|ks| - 1], g) + CountTo(h, ks[|ks| - 1], g, |h|)
  }

  lemma {:induction false} CountsNext(h: seq<Pull>, x: Pull, ks: seq<Name>, g: real)
    requires NoDup(ks)
    ensures Counts(h + [x], ks, g) == Times(g, Counts(h, ks, g)) + if x.arm in ks then 1.0 else 0.0
  {
    TimesZero(g);
    hide Times;
    if ks != [] {
      var ls, k := ks[..|ks| - 1], ks[|ks| - 1];
      CountsNext(h, x, ls, g);
      NextPull(h, x, k, g);
      Distribute(g, Counts(h, ls, g), CountTo(h, k, g, |h|));
      assert ks == ls + [k];
      assert k !in ls;
    }
  }

  lemma {:induction false} CountsAreTotal(h: seq<Pull>, ks: seq<Name>, g: real)
    requires NoDup(ks) && forall j :: 0 <= j < |h| ==> h[j].arm in ks
    ensures Counts(h, ks, g) == TotalTo(h, g, |h|)
    decreases |h|
  {
    if h == [] {
      NoCounts(ks, g);
    } else {
      var l := h[..|h| - 1];
      CountsAreTotal(l, ks, g);
      assert h == l + [h[|l|]];
      CountsNext(l, h[|l|], ks, g);
      NextPull(l, h[|l|], 0, g);
    }
  }

  lemma {:induction false} NoCounts(ks: seq<Name>, g: real)
    ensures Counts([], ks, g) == 0.0
  {
    if ks != [] {
      NoCounts(ks[..|ks| - 1], g);
    }
  }

  lemma {:induction false} PullsCount(h: seq<Pull>, a: Name)
    ensures Pulls(h, a) > 0 <==> exists j :: 0 <= j < |h| && h[j].arm == a
  {
    if h != [] {
      var n := |h| - 1;
      PullsCount(h[..n], a);
      assert (exists j :: 0 <= j < |h| && h[j].arm == a) <==>
             (exists j :: 0 <= j < n && h[..n][j].arm == a) || h[n].arm == a;
    }
  }

  /** A pulled arm has positive weight and a mean within the bounds of the rewards. */
  lemma MeanWithin(h: seq<Pull>, a: Name, g: real, lo: real, hi: real)
    requires 0.0 < g && Pulls(h, a) > 0 && forall j :: 0 <= j < |h| ==> lo <= h[j].value <= hi
    ensures CountTo(h, a, g, |h|) > 0.0
    ensures lo <= SumTo(h, a, g, |h|) / CountTo(h, a, g, |h|) <= hi
  {
    PullsCount(h, a);
    ArmWithin(h, a, g, |h|, lo, hi);
    Average(SumTo(h, a, g, |h|), CountTo(h, a, g, |h|), lo, hi);
  }

  lemma Average(s: real, n: real, lo: real, hi: real)
    requires n > 0.0 && Times(lo, n) <= s <= Times(hi, n)
    ensures lo <= s / n <= hi
  {
    var m := s / n;
    assert m * n == s;
    assert (m - lo) * n >= 0.0 && (hi - m) * n >= 0.0;
  }

  lemma {:induction false} Bounds(h: seq<Pull>) returns (lo: real, hi: real)
    ensures forall j :: 0 <= j < |h| ==> lo <= h[j].value <= hi
  {
    if h == [] {
      lo, hi := 0.0, 0.0;
    } else {
      var n, v := |h| - 1, h[|h| - 1].value;
      lo, hi := Bounds(h[..n]);
      assert forall j :: 0 <= j < n ==> h[j] == h[..n][j];
      lo, hi := if v < lo then v else lo, if v > hi then v else hi;
    }
  }

  // ---------------------------------------------------------------- the policy

  /** The exploration bonus needs a total of at least one and a positive count. */
  ghost predicate Explores(explore: (real, real) --> real, t: real, n: real) {
    t >= 1.0 && n > 0.0 ==> explore.requires(t, n)
  }

  function Score(explore: (real, real) --> real, t: real, a: Arm): real
    requires t >= 1.0 && a.n > 0.0 && Explores(explore, t, a.n)
  {
    a.sum / a.n + explore(t, a.n)
  }

  class DiscountedUCB1 {
    var arms: map<Name, Arm>
    const order: seq<Name>
    const gamma: real
    var totalN: real
    var step: nat
    ghost var history: seq<Pull>

    ghost predicate Valid()
      reads this
    {
      && 0.0 < gamma <= 1.0 && step == |history|
      && (forall a :: a in arms <==> a in order)
      && (forall j :: 0 <= j < |history| ==> history[j].arm in arms)
      && (forall a :: a in arms ==> Matches(arms[a], a))
      && totalN == TotalTo(history, gamma, |history|)
    }

    /** The statistics of an arm are the explicit sums over its own past pulls. */
    ghost predicate Matches(s: Arm, a: Name)
      reads this
    {
      && s.n == CountTo(history, a, gamma, |history|)
      && s.sum == SumTo(history, a, gamma, |history|)
      && s.pulls == Pulls(history, a)
    }

    constructor (ids: seq<Name>, g: real)
      ensures Valid() && history == [] && order == ids
      ensures gamma == if 0.0 < g <= 1.0 then g else 0.99
    {
      order := ids;
      gamma := if g <= 0.0 || g > 1.0 then 0.99 else g;
      arms := map k | k in ids :: Arm(0.0, 0.0, 0);
      totalN, step, history := 0.0, 0, [];
    }

    method Update(arm: Name, value: real)
      requires Valid()
      modifies this
      ensures Valid()
      ensures history == old(history) + if arm in old(arms) then [Pull(arm, value)] else []
    {
      hide Times, CountTo, SumTo, TotalTo, Pulls;
      if arm !in arms {
        return;
      }
      ghost var was, h := arms, history;
      var left := arms.Keys;
      while left != {}
        invariant left <= arms.Keys == was.Keys && history == h && totalN == old(totalN) && step == old(step)
        invariant forall a :: a in arms ==>
                    arms[a] == if a in left then was[a]
                               else was[a].(n := Times(gamma, was[a].n), sum := Times(gamma, was[a].sum))
        decreases |left|
      {
        var a :| a in left;
        left := left - {a};
        arms := arms[a := arms[a].(n := Times(gamma, arms[a].n), sum := Times(gamma, arms[a].sum))];
      }
      totalN := Times(gamma, totalN) + 1.0;
      var credited := arms[arm];
      arms := arms[arm := Arm(credited.n + 1.0, credited.sum + value, credited.pulls + 1)];
      step := step + 1;
      history := history + [Pull(arm, value)];
      NextPull(h, Pull(arm, value), 0, gamma);
      forall a | a in arms ensures Matches(arms[a], a) {
        NextPull(h, Pull(arm, value), a, gamma);
      }
    }

    /** With every arm pulled, no score divides by zero, and the logarithm is of at least one. */
    lemma ScoresDefined(a: Name)
      requires Valid() && a in arms && arms[a].pulls > 0
      ensures totalN >= 1.0 && arms[a].n > 0.0
    {
      TotalIsGeometric(history, gamma);
      var lo, hi := Bounds(history);
      MeanWithin(history, a, gamma, lo, hi);
    }

    /** `explore` stands for the root of twice the logarithm of the total over the count. */
    method Select(explore: (real, real) --> real) returns (r: Option<Name>)
      requires Valid() && forall t, n :: Explores(explore, t, n)
      ensures r.None? <==> order == []
      ensures r.Some? ==> r.value in arms
      ensures forall i :: 0 <= i < |order| && arms[order[i]].pulls == 0 ==>
                arms[r.value].pulls == 0 && exists k :: 0 <= k <= i && order[k] == r.value
      ensures order != [] && (forall a :: a in arms ==> arms[a].pulls > 0) ==>
                && totalN >= 1.0 && arms[r.value].n > 0.0 && Explores(explore, totalN, arms[r.value].n)
                && forall a :: a in arms ==>
                   && arms[a].n > 0.0 && Explores(explore, totalN, arms[a].n)
                   && arms[a].sum / arms[a].n + explore(totalN, arms[a].n) <=
                      arms[r.value].sum / arms[r.value].n + explore(totalN, arms[r.value].n)
    {
      if order == [] {
        return None;
      }
      for i := 0 to |order|
        invariant forall k :: 0 <= k < i ==> arms[order[k]].pulls > 0
      {
        if arms[order[i]].pulls == 0 {
          return Some(order[i]);
        }
      }
      ScoresDefined(order[0]);
      var best := order[0];
      var bestScore: Option<real> := None;
      for i := 0 to |order|
        invariant best in arms && (i > 0 ==> bestScore.Some?)
        invariant bestScore.Some? ==> arms[best].n > 0.0 && bestScore.value == Score(explore, totalN, arms[best])
        invariant forall k :: 0 <= k < i ==>
                  arms[order[k]].n > 0.0 && Score(explore, totalN, arms[order[k]]) <= bestScore.value
      {
        ScoresDefined(order[i]);
        assert Explores(explore, totalN, arms[order[i]].n);
        var score := Score(explore, totalN, arms[order[i]]);
        if bestScore.None? || score > bestScore.value {
          best, bestScore := order[i], Some(score);
        }
      }
      r := Some(best);
    }
  }
}
