// Pareto ranking of internal/bandit/multiobjective.go: non-dominated sorting gives every arm the
// length of the longest chain of arms dominating it, and the sorted front starts with the arm of
// the globally best scalarized mean.
module Pareto {
  import opened Common
  import Pairs
  import opened Reals
  import opened Sorting

  type Name = nat

  datatype Direction = Maximize | Minimize

  datatype Objective = Objective(name: Name, weight: real, direction: Direction)

  /** What an arm's rewards for one objective left: a posterior, and sums for the variance. */
  datatype Posterior = Posterior(alpha: real, beta: real, seen: Sums)

  datatype Sums = Sums(count: nat, sum: real, sumSq: real)

  datatype Summary = Summary(mean: real, variance: real, posterior: Posterior)

  datatype Arm = Arm(id: Name, stats: map<Name, Summary>, selections: nat, rank: nat, score: real)

  /** A missing objective reads as the zero value. */
  function MeanOf(a: Arm, n: Name): real { if n in a.stats then a.stats[n].mean else 0.0 }

  predicate Better(o: Objective, a: Arm, b: Arm) {
    if o.direction.Maximize? then MeanOf(a, o.name) > MeanOf(b, o.name) else MeanOf(a, o.name) < MeanOf(b, o.name)
  }

  /** At least as good everywhere and better somewhere. */
  ghost predicate Dominates(a: Arm, b: Arm, objs: seq<Objective>) {
    && (forall i :: 0 <= i < |objs| ==> !Better(objs[i], b, a))
    && (exists i :: 0 <= i < |objs| && Better(objs[i], a, b))
  }

  lemma DominanceIsStrictOrder(a: Arm, b: Arm, c: Arm, objs: seq<Objective>)
    ensures !Dominates(a, a, objs)
    ensures Dominates(a, b, objs) ==> !Dominates(b, a, objs)
    ensures Dominates(a, b, objs) && Dominates(b, c, objs) ==> Dominates(a, c, objs)
  {
    if Dominates(a, b, objs) && Dominates(b, c, objs) {
      var i :| 0 <= i < |objs| && Better(objs[i], a, b);
      assert !Better(objs[i], c, b);
      assert Better(objs[i], a, c);
      forall k | 0 <= k < |objs| ensures !Better(objs[k], c, a) {
        assert !Better(objs[k], c, b) && !Better(objs[k], b, a);
      }
    }
  }

  method CheckDominates(a: Arm, b: Arm, objs: seq<Objective>) returns (r: bool)
    ensures r == Dominates(a, b, objs)
  {
    var atLeastAsGood, strictlyBetter := true, false;
    var i := 0;
    while i < |objs|
      invariant i <= |objs|
      invariant atLeastAsGood && forall k :: 0 <= k < i ==> !Better(objs[k], b, a)
      invariant strictlyBetter == exists k :: 0 <= k < i && Better(objs[k], a, b)
    {
      if Better(objs[i], b, a) {
        atLeastAsGood := false;
        break;
      }
      if Better(objs[i], a, b) {
        strictlyBetter := true;
      }
      i := i + 1;
    }
    r := atLeastAsGood && strictlyBetter;
  }

  // ---------------------------------------------------------------- layers and chains

  predicate InRange(arms: seq<Arm>, i: int) { 0 <= i < |arms| }

  ghost predicate Dom(arms: seq<Arm>, objs: seq<Objective>, j: int, i: int) {
    InRange(arms, i) && InRange(arms, j) && Dominates(arms[j], arms[i], objs)
  }

  /** Each arm of the chain dominates the next, and the chain ends at `i`. */
  ghost predicate Chain(arms: seq<Arm>, objs: seq<Objective>, c: seq<int>, i: int) {
    && c != [] && c[|c| - 1] == i && InRange(arms, i)
    && forall k {:trigger c[k]} :: 0 <= k < |c| - 1 ==> Dom(arms, objs, c[k], c[k + 1])
  }

  /** `r` dominating arms in a row lead up to `i`, and no chain has more. */
  ghost predicate LongestChain(arms: seq<Arm>, objs: seq<Objective>, i: int, r: nat) {
    && (exists c :: Chain(arms, objs, c, i) && |c| == r + 1)
    && (forall c :: Chain(arms, objs, c, i) ==> |c| <= r + 1)
  }

  /** Some arm outside `u` dominates `i` and has rank `r`. */
  ghost predicate Above(arms: seq<Arm>, objs: seq<Objective>, rank: seq<nat>, u: set<int>, i: int, r: int)
    requires |rank| == |arms|
  {
    exists j :: Dom(arms, objs, j, i) && j !in u && rank[j] == r
  }

  /** Ranks as layers: every dominator ranks lower, and one ranks just below. */
  ghost predicate Layered(arms: seq<Arm>, objs: seq<Objective>, rank: seq<nat>) {
    && |rank| == |arms|
    && (forall j, i :: Dom(arms, objs, j, i) ==> rank[j] < rank[i])
    && (forall i {:trigger InRange(arms, i)} :: InRange(arms, i) && rank[i] > 0 ==>
          Above(arms, objs, rank, {}, i, rank[i] - 1))
  }

  lemma {:induction false} ChainBound(arms: seq<Arm>, objs: seq<Objective>, rank: seq<nat>, c: seq<int>, i: int)
    requires |rank| == |arms| && (forall j, i :: Dom(arms, objs, j, i) ==> rank[j] < rank[i])
    requires Chain(arms, objs, c, i)
    ensures |c| <= rank[i] + 1
    decreases |c|
  {
    hide Dominates;
    if |c| > 1 {
      var d := c[..|c| - 1];
      var j := c[|c| - 2];
      assert Dom(arms, objs, j, i);
      assert forall k {:trigger d[k]} :: 0 <= k < |d| ==> d[k] == c[k];
      ChainBound(arms, objs, rank, d, j);
    }
  }

  lemma {:induction false} ChainExists(arms: seq<Arm>, objs: seq<Objective>, rank: seq<nat>, i: int)
    returns (c: seq<int>)
    requires Layered(arms, objs, rank) && InRange(arms, i)
    ensures Chain(arms, objs, c, i) && |c| == rank[i] + 1
    decreases rank[i]
  {
    if rank[i] == 0 {
      c := [i];
    } else {
      assert Above(arms, objs, rank, {}, i, rank[i] - 1);
      var j :| Dom(arms, objs, j, i) && rank[j] == rank[i] - 1;
      var d := ChainExists(arms, objs, rank, j);
      c := d + [i];
    }
  }

  /** Layered ranks are exactly the lengths of the longest chains of dominators. */
  lemma LayersAreChains(arms: seq<Arm>, objs: seq<Objective>, rank: seq<nat>, i: int)
    requires Layered(arms, objs, rank) && InRange(arms, i)
    ensures LongestChain(arms, objs, i, rank[i])
  {
    var c := ChainExists(arms, objs, rank, i);
    forall d | Chain(arms, objs, d, i) ensures |d| <= rank[i] + 1 {
      ChainBound(arms, objs, rank, d, i);
    }
  }

  // ---------------------------------------------------------------- the ranking loop

  /** The dominators of `i` among the members of `u`. */
  ghost function DomIn(arms: seq<Arm>, objs: seq<Objective>, u: set<int>, i: int): set<int> {
    set j | j in u && Dom(arms, objs, j, i)
  }

  /** In a finite set every dominated member is dominated by an undominated one. */
  lemma {:induction false} FrontReaches(arms: seq<Arm>, objs: seq<Objective>, u: set<int>, i: int) returns (f: int)
    requires DomIn(arms, objs, u, i) != {}
    ensures f in u && Dom(arms, objs, f, i) && DomIn(arms, objs, u, f) == {}
    decreases DomIn(arms, objs, u, i)
  {
    var j :| j in DomIn(arms, objs, u, i);
    forall k | k in DomIn(arms, objs, u, j) ensures k in DomIn(arms, objs, u, i) {
      DominanceIsStrictOrder(arms[k], arms[j], arms[i], objs);
    }
    DominanceIsStrictOrder(arms[j], arms[j], arms[j], objs);
    assert j !in DomIn(arms, objs, u, j);
    if DomIn(arms, objs, u, j) == {} {
      f := j;
    } else {
      f := FrontReaches(arms, objs, u, j);
      DominanceIsStrictOrder(arms[f], arms[j], arms[i], objs);
    }
  }

  /** The state between rounds: `u` is unranked, the others have their final rank below `round`. */
  ghost predicate Peeled(arms: seq<Arm>, objs: seq<Objective>, rank: seq<nat>, u: set<int>, round: nat) {
    && |rank| == |arms|
    && (forall i :: i in u ==> InRange(arms, i))
    && (forall i {:trigger InRange(arms, i)} :: InRange(arms, i) && i !in u ==> rank[i] < round)
    && (forall j, i :: Dom(arms, objs, j, i) && i !in u ==> j !in u && rank[j] < rank[i])
    && (forall i {:trigger InRange(arms, i)} :: InRange(arms, i) && i !in u && rank[i] > 0 ==>
          Above(arms, objs, rank, u, i, rank[i] - 1))
    && (round > 0 ==> forall i :: i in u ==> Above(arms, objs, rank, u, i, round - 1))
  }

  /** Ranking the undominated members of `u` keeps the state and leaves fewer unranked. */
  lemma PeelStep(arms: seq<Arm>, objs: seq<Objective>, rank: seq<nat>, rank': seq<nat>, u: set<int>, u': set<int>,
                 round: nat)
    requires Peeled(arms, objs, rank, u, round) && |rank'| == |rank|
    requires forall i :: i in u' <==> i in u && DomIn(arms, objs, u, i) != {}
    requires forall i {:trigger InRange(arms, i)} :: InRange(arms, i) ==>
             rank'[i] == if i in u && i !in u' then round else rank[i]
    ensures Peeled(arms, objs, rank', u', round + 1)
  {
    forall j, i | Dom(arms, objs, j, i) && i !in u' ensures j !in u' && rank'[j] < rank'[i] {
      assert i in u && j in u ==> j in DomIn(arms, objs, u, i);
      assert InRange(arms, i) && InRange(arms, j);
    }
    forall i | InRange(arms, i) && i !in u' && rank'[i] > 0 ensures Above(arms, objs, rank', u', i, rank'[i] - 1) {
      assert Above(arms, objs, rank, u, i, rank'[i] - 1);
      var j :| Dom(arms, objs, j, i) && j !in u && rank[j] == rank'[i] - 1;
      assert rank'[j] == rank[j];
    }
    forall i | i in u' ensures Above(arms, objs, rank', u', i, round) {
      var f := FrontReaches(arms, objs, u, i);
      assert rank'[f] == round;
    }
  }

  lemma FrontNotEmpty(arms: seq<Arm>, objs: seq<Objective>, u: set<int>, i: int)
    requires i in u
    ensures exists f :: f in u && DomIn(arms, objs, u, f) == {}
  {
    if DomIn(arms, objs, u, i) != {} {
      var f := FrontReaches(arms, objs, u, i);
    }
  }

  /** Arms that still count: everything not ranked yet. */
  ghost function Unranked(ranked: seq<bool>): set<int> {
    set i | 0 <= i < |ranked| && !ranked[i]
  }

  /** Is `i` dominated by an unranked arm? The inner loop of the ranking. */
  method IsDominated(stats: array<Arm>, ranked: array<bool>, i: nat, objs: seq<Objective>, ghost arms: seq<Arm>)
    returns (dominated: bool)
    requires i < stats.Length == ranked.Length == |arms| && !ranked[i]
    requires forall k :: 0 <= k < |arms| ==> stats[k].stats == arms[k].stats
    ensures dominated <==> DomIn(arms, objs, Unranked(ranked[..]), i) != {}
  {
    dominated := false;
    ghost var u := Unranked(ranked[..]);
    for j := 0 to stats.Length
      invariant !dominated
      invariant forall k :: 0 <= k < j ==> k !in DomIn(arms, objs, u, i)
    {
      if i == j || ranked[j] {
        if i == j { DominanceIsStrictOrder(arms[i], arms[i], arms[i], objs); }
        continue;
      }
      var d := CheckDominates(stats[j], stats[i], objs);
      SameMeans(stats[j], arms[j], stats[i], arms[i], objs);
      if d {
        dominated := true;
        assert j in DomIn(arms, objs, u, i);
        break;
      }
    }
  }

  lemma SameMeans(a: Arm, a': Arm, b: Arm, b': Arm, objs: seq<Objective>)
    requires a.stats == a'.stats && b.stats == b'.stats
    ensures Dominates(a, b, objs) == Dominates(a', b', objs)
  {
    assert forall o :: Better(o, a, b) == Better(o, a', b') && Better(o, b, a) == Better(o, b', a');
  }

  function Ranks(s: seq<Arm>): (r: seq<nat>) { seq(|s|, i requires 0 <= i < |s| => s[i].rank) }

  /** `s` is `arms` with nothing but ranks rewritten. */
  ghost predicate OnlyRanks(arms: seq<Arm>, s: seq<Arm>) {
    |s| == |arms| && forall i :: 0 <= i < |s| ==> s[i] == arms[i].(rank := s[i].rank)
  }

  /** `front` holds the unranked arms that no unranked arm dominates. */
  ghost predicate IsFront(arms: seq<Arm>, objs: seq<Objective>, ranked: seq<bool>, front: seq<nat>) {
    && (forall k: nat :: k in front ==> k in Unranked(ranked) && DomIn(arms, objs, Unranked(ranked), k) == {})
    && (forall k: nat :: k in Unranked(ranked) && DomIn(arms, objs, Unranked(ranked), k) == {} ==> k in front)
  }

  method Front(stats: array<Arm>, ranked: array<bool>, objs: seq<Objective>, ghost arms: seq<Arm>)
    returns (front: seq<nat>)
    requires stats.Length == ranked.Length && OnlyRanks(arms, stats[..])
    ensures IsFront(arms, objs, ranked[..], front)
  {
    front := [];
    ghost var u := Unranked(ranked[..]);
    assert forall k :: 0 <= k < |arms| ==> stats[k] == stats[..][k];
    for i := 0 to stats.Length
      invariant forall k: nat :: k in front ==> k in u && DomIn(arms, objs, u, k) == {}
      invariant forall k: nat :: k < i && k in u && DomIn(arms, objs, u, k) == {} ==> k in front
    {
      if ranked[i] {
        continue;
      }
      var dominated := IsDominated(stats, ranked, i, objs, arms);
      if !dominated {
        front := front + [i];
      }
    }
  }

  /** The arms of `front` take the rank of this round and leave the unranked ones. */
  ghost predicate RankedRound(before: seq<Arm>, after: seq<Arm>, was: seq<bool>, now: seq<bool>, front: seq<nat>,
                              rank: nat)
  {
    && |before| == |after| == |was| == |now|
    && forall i {:trigger after[i]} {:trigger now[i]} :: 0 <= i < |after| ==>
         && after[i] == (if i in front then before[i].(rank := rank) else before[i])
         && now[i] == (i in front || was[i])
  }

  method Rank(stats: array<Arm>, ranked: array<bool>, front: seq<nat>, rank: nat)
    requires stats.Length == ranked.Length
    requires forall k: nat :: k in front ==> k < stats.Length
    modifies stats, ranked
    ensures RankedRound(old(stats[..]), stats[..], old(ranked[..]), ranked[..], front, rank)
  {
    for k := 0 to |front|
      invariant forall i :: 0 <= i < stats.Length ==>
                  && stats[i] == (if i in front[..k] then old(stats[i]).(rank := rank) else old(stats[i]))
                  && ranked[i] == (i in front[..k] || old(ranked[i]))
    {
      assert front[..k + 1] == front[..k] + [front[k]];
      assert front[k] in front;
      stats[front[k]] := stats[front[k]].(rank := rank);
      ranked[front[k]] := true;
    }
    assert front[..|front|] == front;
  }

  /** One round peels one front off and leaves fewer arms unranked. */
  lemma RoundPeels(arms: seq<Arm>, objs: seq<Objective>, before: seq<Arm>, after: seq<Arm>,
                   was: seq<bool>, now: seq<bool>, front: seq<nat>, rank: nat)
    requires OnlyRanks(arms, before) && |was| == |before|
    requires Peeled(arms, objs, Ranks(before), Unranked(was), rank)
    requires IsFront(arms, objs, was, front) && RankedRound(before, after, was, now, front, rank)
    ensures OnlyRanks(arms, after) && Peeled(arms, objs, Ranks(after), Unranked(now), rank + 1)
    ensures front != [] ==> |Unranked(now)| < |Unranked(was)|
  {
    var u, u' := Unranked(was), Unranked(now);
    forall i ensures i in u' <==> i in u && DomIn(arms, objs, u, i) != {} {
      assert InRange(arms, i) ==> now[i] == (i in front || was[i]);
    }
    forall i | InRange(arms, i)
      ensures Ranks(after)[i] == if i in u && i !in u' then rank else Ranks(before)[i]
    {
      assert after[i] == (if i in front then before[i].(rank := rank) else before[i]);
    }
    PeelStep(arms, objs, Ranks(before), Ranks(after), u, u', rank);
    if front != [] {
      assert front[0] in front;
      Fewer(u', u, front[0]);
    }
  }

  lemma NoFrontDone(arms: seq<Arm>, objs: seq<Objective>, ranked: seq<bool>)
    requires IsFront(arms, objs, ranked, [])
    ensures Unranked(ranked) == {}
  {
    if i :| i in Unranked(ranked) {
      FrontNotEmpty(arms, objs, Unranked(ranked), i);
    }
  }

  lemma FrontInRange(arms: seq<Arm>, objs: seq<Objective>, ranked: seq<bool>, front: seq<nat>)
    requires IsFront(arms, objs, ranked, front)
    ensures forall k: nat :: k in front ==> k < |ranked|
  {
  }

  lemma StartPeeled(arms: seq<Arm>, objs: seq<Objective>, ranked: seq<bool>)
    requires |ranked| == |arms| && forall i :: 0 <= i < |ranked| ==> !ranked[i]
    ensures OnlyRanks(arms, arms) && Peeled(arms, objs, Ranks(arms), Unranked(ranked), 0)
  {
  }

  lemma PeeledDone(arms: seq<Arm>, objs: seq<Objective>, s: seq<Arm>, round: nat)
    requires Peeled(arms, objs, Ranks(s), {}, round)
    ensures Layered(arms, objs, Ranks(s))
    ensures forall i :: 0 <= i < |s| ==> LongestChain(arms, objs, i, s[i].rank)
  {
    forall i | 0 <= i < |s| ensures LongestChain(arms, objs, i, s[i].rank) {
      LayersAreChains(arms, objs, Ranks(s), i);
    }
  }

  /** Ranks every arm, and each with the length of the longest chain of arms dominating it. */
  method AssignRanks(stats: array<Arm>, objs: seq<Objective>)
    modifies stats
    ensures OnlyRanks(old(stats[..]), stats[..])
    ensures Layered(old(stats[..]), objs, Ranks(stats[..]))
    ensures forall i :: 0 <= i < stats.Length ==> LongestChain(old(stats[..]), objs, i, stats[..][i].rank)
  {
    ghost var arms := stats[..];
    var ranked := new bool[stats.Length](i => false);
    var rank := 0;
    StartPeeled(arms, objs, ranked[..]);
    hide Peeled, Layered, LongestChain, OnlyRanks, IsFront, RankedRound, Unranked, Ranks;
    while true
      invariant |arms| == stats.Length && stats.Length == ranked.Length && OnlyRanks(arms, stats[..])
      invariant Peeled(arms, objs, Ranks(stats[..]), Unranked(ranked[..]), rank)
      decreases |Unranked(ranked[..])|
    {
      ghost var before, was := stats[..], ranked[..];
      var front := Front(stats, ranked, objs, arms);
      if front == [] {
        break;
      }
      FrontInRange(arms, objs, was, front);
      Rank(stats, ranked, front, rank);
      RoundPeels(arms, objs, before, stats[..], was, ranked[..], front, rank);
      rank := rank + 1;
    }
    NoFrontDone(arms, objs, ranked[..]);
    PeeledDone(arms, objs, stats[..], rank);
  }

  lemma Fewer(s: set<int>, t: set<int>, x: int)
    requires s <= t && x in t && x !in s
    ensures |s| < |t|
  {
    assert s <= t - {x};
    SubsetSize(s, t - {x});
  }

  // ---------------------------------------------------------------- scalarized means

  lemma QuotientIs(x: real, t: real, y: real)
    requires t > 0.0 && x * t == y
    ensures x == y / t
  {
    assert (x - y / t) * t == 0.0;
  }

  function Total(objs: seq<Objective>): real {
    if objs == [] then 0.0 else Total(objs[..|objs| - 1]) + objs[|objs| - 1].weight
  }

  /** The weight of each objective after normalization. */
  function Share(objs: seq<Objective>, i: nat): real
    requires i < |objs|
  {
    if Total(objs) > 0.0 then objs[i].weight / Total(objs) else 1.0 / |objs| as real
  }

  ghost predicate AreShares(objs: seq<Objective>, w: seq<real>) {
    |w| == |objs| && forall i :: 0 <= i < |w| ==> w[i] == Share(objs, i)
  }

  lemma {:induction false} SumOfQuotients(objs: seq<Objective>, w: seq<real>, t: real)
    requires |w| == |objs| && t > 0.0 && forall i :: 0 <= i < |w| ==> w[i] == objs[i].weight / t
    ensures Sum(w) * t == Total(objs)
  {
    if w != [] {
      SumOfQuotients(objs[..|w| - 1], w[..|w| - 1], t);
      assert w[|w| - 1] * t == objs[|w| - 1].weight;
    }
  }

  /** Normalized weights sum to one, whatever the sign of the given ones; non-negative ones stay so. */
  lemma SharesSumToOne(objs: seq<Objective>, w: seq<real>)
    requires objs != [] && AreShares(objs, w)
    ensures Sum(w) == 1.0
    ensures (forall i :: 0 <= i < |objs| ==> objs[i].weight >= 0.0) ==> forall i :: 0 <= i < |w| ==> w[i] >= 0.0
  {
    var t := Total(objs);
    if t > 0.0 {
      SumOfQuotients(objs, w, t);
      QuotientIs(Sum(w), t, t);
      forall i | 0 <= i < |w| && objs[i].weight >= 0.0 ensures w[i] >= 0.0 {
        assert w[i] == Share(objs, i);
      }
    } else {
      SumOfSame(w, 1.0 / |objs| as real);
    }
  }

  function Value(o: Objective, a: Arm): real {
    if o.direction.Maximize? then MeanOf(a, o.name) else 1.0 - MeanOf(a, o.name)
  }

  /** The weighted sum of the first `k` values. */
  function Weighted(w: seq<real>, f: nat -> real, k: nat): real
    requires k <= |w|
  {
    if k == 0 then 0.0 else Weighted(w, f, k - 1) + Times(w[k - 1], f(k - 1))
  }

  /** What an arm reads on each objective, turned so that higher is better. */
  function Turned(objs: seq<Objective>, a: Arm): nat -> real {
    (i: nat) => if i < |objs| then Value(objs[i], a) else 0.0
  }

  /** The weighted sum of the first `k` objectives. */
  function Scalarized(objs: seq<Objective>, w: seq<real>, a: Arm, k: nat): real
    requires k <= |objs| == |w|
  {
    Weighted(w, Turned(objs, a), k)
  }

  lemma {:induction false} WeightedSame(w: seq<real>, f: nat -> real, g: nat -> real, k: nat)
    requires k <= |w| && forall i: nat :: i < k ==> f(i) == g(i)
    ensures Weighted(w, f, k) == Weighted(w, g, k)
  {
    if k > 0 {
      WeightedSame(w, f, g, k - 1);
    }
  }

  lemma SameScalar(objs: seq<Objective>, w: seq<real>, a: Arm, b: Arm, k: nat)
    requires k <= |objs| == |w| && a.stats == b.stats
    ensures Scalarized(objs, w, a, k) == Scalarized(objs, w, b, k)
  {
    WeightedSame(w, Turned(objs, a), Turned(objs, b), k);
  }

  method Scalarize(objs: seq<Objective>, w: seq<real>, a: Arm) returns (s: real)
    requires |w| == |objs|
    ensures s == Scalarized(objs, w, a, |objs|)
  {
    s := 0.0;
    for i := 0 to |objs|
      invariant s == Scalarized(objs, w, a, i)
    {
      var v := MeanOf(a, objs[i].name);
      if objs[i].direction.Minimize? {
        v := 1.0 - v;
      }
      s := s + w[i] * v;
    }
  }

  // ---------------------------------------------------------------- what a weighted sum is

  lemma LargerTerm(w: real, x: real, y: real)
    requires w >= 0.0 && x >= y
    ensures Times(w, x) >= Times(w, y)
  {
    assert w * (x - y) >= 0.0;
  }

  /** A larger reading never lowers the sum. */
  lemma {:induction false} WeightedGrows(w: seq<real>, f: nat -> real, g: nat -> real, k: nat)
    requires k <= |w| && forall i: nat :: i < k ==> w[i] >= 0.0 && f(i) >= g(i)
    ensures Weighted(w, f, k) >= Weighted(w, g, k)
  {
    hide Times;
    if k > 0 {
      WeightedGrows(w, f, g, k - 1);
      LargerTerm(w[k - 1], f(k - 1), g(k - 1));
    }
  }

  /** The sum lies between the bounds of the readings, times the weights. */
  lemma {:induction false} WeightedWithin(w: seq<real>, f: nat -> real, lo: real, hi: real, k: nat)
    requires k <= |w| && forall i: nat :: i < k ==> w[i] >= 0.0 && lo <= f(i) <= hi
    ensures Times(Sum(w[..k]), lo) <= Weighted(w, f, k) <= Times(Sum(w[..k]), hi)
  {
    if k == 0 {
      assert w[..0] == [];
    } else {
      WeightedWithin(w, f, lo, hi, k - 1);
      assert w[..k][..k - 1] == w[..k - 1];
      LargerTerm(w[k - 1], f(k - 1), lo);
      LargerTerm(w[k - 1], hi, f(k - 1));
      TermAdded(Sum(w[..k - 1]), w[k - 1], lo);
      TermAdded(Sum(w[..k - 1]), w[k - 1], hi);
    }
  }

  lemma TermAdded(s: real, w: real, x: real)
    ensures Times(s + w, x) == Times(s, x) + Times(w, x)
  {
  }

  /** Changing one reading changes the sum by its weight times the change. */
  lemma {:induction false} WeightedMoves(w: seq<real>, f: nat -> real, g: nat -> real, i: nat, k: nat)
    requires k <= |w| && i < |w| && forall j: nat :: j < k && j != i ==> f(j) == g(j)
    ensures Weighted(w, f, k) - Weighted(w, g, k) == if i < k then Times(w[i], f(i) - g(i)) else 0.0
  {
    if k > 0 {
      WeightedMoves(w, f, g, i, k - 1);
      TermMoves(w[k - 1], f(k - 1), g(k - 1));
    }
  }

  lemma TermMoves(w: real, x: real, y: real)
    ensures Times(w, x) - Times(w, y) == Times(w, x - y)
  {
  }

  lemma DominatorScores(objs: seq<Objective>, w: seq<real>, a: Arm, b: Arm, k: nat)
    requires k <= |objs| == |w| && Dominates(a, b, objs)
    requires forall i :: 0 <= i < |w| ==> w[i] >= 0.0
    ensures Scalarized(objs, w, a, k) >= Scalarized(objs, w, b, k)
  {
    forall i: nat | i < k ensures Turned(objs, a)(i) >= Turned(objs, b)(i) {
      NotWorse(objs, a, b, i);
    }
    WeightedGrows(w, Turned(objs, a), Turned(objs, b), k);
  }

  lemma NotWorse(objs: seq<Objective>, a: Arm, b: Arm, i: nat)
    requires i < |objs| && Dominates(a, b, objs)
    ensures Value(objs[i], a) >= Value(objs[i], b)
  {
    assert !Better(objs[i], b, a);
  }

  /** `v` is the mean of an arm for an objective; for a minimized one, what is missing to 1. */
  predicate Reads(o: Objective, x: Arm, v: real) {
    o.name in x.stats && v == if o.direction.Maximize? then x.stats[o.name].mean else 1.0 - x.stats[o.name].mean
  }

  predicate ReadsBetween(o: Objective, x: Arm, lo: real, hi: real) {
    o.name in x.stats &&
    if o.direction.Maximize? then lo <= x.stats[o.name].mean <= hi else lo <= 1.0 - x.stats[o.name].mean <= hi
  }

  predicate ReadAlike(o: Objective, x: Arm, y: Arm) {
    o.name in x.stats && o.name in y.stats && x.stats[o.name].mean == y.stats[o.name].mean
  }

  /** The score is an average of what the arm reads. */
  ghost predicate IsAverage(objs: seq<Objective>, x: Arm) {
    forall lo, hi :: AllBetween(objs, x, lo, hi) ==> lo <= x.score <= hi
  }

  ghost predicate AllBetween(objs: seq<Objective>, x: Arm, lo: real, hi: real) {
    forall i :: 0 <= i < |objs| ==> ReadsBetween(objs[i], x, lo, hi)
  }

  ghost predicate AlikeBut(objs: seq<Objective>, x: Arm, y: Arm, i: nat) {
    forall j :: 0 <= j < |objs| && j != i ==> ReadAlike(objs[j], x, y)
  }

  /** Two arms that read alike on all objectives but `i` differ in score by the difference there, weighted with the
      share of the objective in all weights, or in their number when the weights add up to nothing positive. */
  ghost predicate Weighs(objs: seq<Objective>, x: Arm, y: Arm, i: nat)
    requires i < |objs|
  {
    AlikeBut(objs, x, y, i) ==>
      forall u, v :: Reads(objs[i], x, u) && Reads(objs[i], y, v) ==>
        if Total(objs) > 0.0 then Times(x.score - y.score, Total(objs)) == Times(objs[i].weight, u - v)
        else Times(x.score - y.score, |objs| as real) == u - v
  }

  /** Every mean strictly between 0 and 1. */
  predicate Inside(objs: seq<Objective>, x: Arm) {
    forall i :: 0 <= i < |objs| ==> objs[i].name in x.stats && 0.0 < x.stats[objs[i].name].mean < 1.0
  }

  lemma {:induction false} Extremes(f: nat -> real, k: nat) returns (lo: real, hi: real)
    requires forall i: nat :: i < k ==> 0.0 < f(i) < 1.0
    ensures 0.0 < lo && hi < 1.0 && forall i: nat :: i < k ==> lo <= f(i) <= hi
  {
    if k == 0 {
      lo, hi := 0.5, 0.5;
    } else {
      lo, hi := Extremes(f, k - 1);
      lo, hi := if f(k - 1) < lo then f(k - 1) else lo, if f(k - 1) > hi then f(k - 1) else hi;
    }
  }

  lemma ScoreInside(objs: seq<Objective>, x: Arm)
    requires IsAverage(objs, x) && Inside(objs, x)
    ensures 0.0 < x.score < 1.0
  {
    var f := Turned(objs, x);
    forall i: nat | i < |objs| ensures 0.0 < f(i) < 1.0 {
      assert objs[i].name in x.stats && 0.0 < x.stats[objs[i].name].mean < 1.0;
    }
    var lo, hi := Extremes(f, |objs|);
    forall i | 0 <= i < |objs| ensures ReadsBetween(objs[i], x, lo, hi) {
      assert lo <= f(i) <= hi && objs[i].name in x.stats;
    }
    assert AllBetween(objs, x, lo, hi);
  }

  lemma ScoreIsAverage(objs: seq<Objective>, w: seq<real>, x: Arm)
    requires objs != [] && AreShares(objs, w) && x.score == Scalarized(objs, w, x, |objs|)
    requires forall i :: 0 <= i < |objs| ==> objs[i].weight >= 0.0
    ensures IsAverage(objs, x)
  {
    SharesSumToOne(objs, w);
    forall lo, hi | AllBetween(objs, x, lo, hi) ensures lo <= x.score <= hi {
      forall i: nat | i < |objs| ensures lo <= Turned(objs, x)(i) <= hi {
        assert ReadsBetween(objs[i], x, lo, hi);
      }
      WeightedWithin(w, Turned(objs, x), lo, hi, |w|);
      assert w[..|w|] == w;
    }
  }

  lemma ScoreWeighs(objs: seq<Objective>, w: seq<real>, x: Arm, y: Arm, i: nat)
    requires i < |objs| && AreShares(objs, w)
    requires x.score == Scalarized(objs, w, x, |objs|) && y.score == Scalarized(objs, w, y, |objs|)
    ensures Weighs(objs, x, y, i)
  {
    var f, g := Turned(objs, x), Turned(objs, y);
    if AlikeBut(objs, x, y, i) {
      forall j: nat | j < |objs| && j != i ensures f(j) == g(j) {
        assert ReadAlike(objs[j], x, y);
      }
      WeightedMoves(w, f, g, i, |w|);
      hide Weighted;
      forall u, v | Reads(objs[i], x, u) && Reads(objs[i], y, v)
        ensures if Total(objs) > 0.0 then Times(x.score - y.score, Total(objs)) == Times(objs[i].weight, u - v)
                else Times(x.score - y.score, |objs| as real) == u - v
      {
        assert f(i) == u && g(i) == v;
        ShareScales(objs, w, i, u - v);
      }
    }
  }

  lemma ShareScales(objs: seq<Objective>, w: seq<real>, i: nat, d: real)
    requires i < |objs| && AreShares(objs, w)
    ensures if Total(objs) > 0.0 then Times(Times(w[i], d), Total(objs)) == Times(objs[i].weight, d)
            else Times(Times(w[i], d), |objs| as real) == d
  {
    assert w[i] == Share(objs, i);
    if Total(objs) > 0.0 {
      QuotientTimes(objs[i].weight, Total(objs), d);
    } else {
      QuotientTimes(1.0, |objs| as real, d);
      assert Times(1.0, d) == d;
    }
  }

  lemma QuotientTimes(x: real, t: real, d: real)
    requires t > 0.0
    ensures Times(Times(x / t, d), t) == Times(x, d)
  {
    var q := x / t;
    assert q * t == x;
    assert q * d * t == (q * t) * d;
  }

  ghost predicate Scored(arms: seq<Arm>, objs: seq<Objective>, w: seq<real>) {
    |w| == |objs| && forall i :: 0 <= i < |arms| ==> arms[i].score == Scalarized(objs, w, arms[i], |objs|)
  }

  /** Behind every arm stands an undominated one with at least its score. */
  lemma {:induction false} TopScores(arms: seq<Arm>, objs: seq<Objective>, w: seq<real>, rank: seq<nat>, i: int)
    returns (t: int)
    requires Layered(arms, objs, rank) && Scored(arms, objs, w) && InRange(arms, i)
    requires forall i :: 0 <= i < |w| ==> w[i] >= 0.0
    ensures InRange(arms, t) && rank[t] == 0 && arms[t].score >= arms[i].score
    decreases rank[i]
  {
    t := i;
    if rank[i] > 0 {
      assert Above(arms, objs, rank, {}, i, rank[i] - 1);
      var j :| Dom(arms, objs, j, i) && rank[j] == rank[i] - 1;
      DominatorScores(objs, w, arms[j], arms[i], |objs|);
      t := TopScores(arms, objs, w, rank, j);
    }
  }

  predicate Ahead(x: Arm, y: Arm) { x.rank < y.rank || (x.rank == y.rank && x.score > y.score) }

  /** The head of the sorted list has the best score of all arms, not just of its front. */
  lemma FirstIsBest(arms: seq<Arm>, objs: seq<Objective>, w: seq<real>, ranked: seq<Arm>, r: seq<Arm>, x: Arm)
    requires Scored(arms, objs, w) && forall i :: 0 <= i < |w| ==> w[i] >= 0.0
    requires OnlyRanks(arms, ranked) && Layered(arms, objs, Ranks(ranked))
    requires IsSortOf(Ahead, r, ranked) && x in r
    ensures r[0].rank == 0 && r[0].score >= x.score
  {
    SortMembers(Ahead, r, ranked);
    var i :| 0 <= i < |ranked| && ranked[i] == x;
    var t := TopScores(arms, objs, w, Ranks(ranked), i);
    assert ranked[t] == arms[t].(rank := ranked[t].rank) && ranked[i] == arms[i].(rank := ranked[i].rank);
    assert ranked[t] in ranked;
    var k :| 0 <= k < |r| && r[k] == ranked[t];
    assert k > 0 ==> !Ahead(r[k], r[0]);
    assert Ranks(ranked)[t] == ranked[t].rank;
  }

  // ---------------------------------------------------------------- the bandit

  function Mean(p: Posterior): (r: real)
    requires p.alpha + p.beta > 0.0
  {
    p.alpha / (p.alpha + p.beta)
  }

  function Clamp01(v: real): real { if v < 0.0 then 0.0 else if v > 1.0 then 1.0 else v }

  function Observe(p: Posterior, value: real): Posterior {
    var v := Clamp01(value);
    var seen := Sums(p.seen.count + 1, p.seen.sum + v, p.seen.sumSq + Times(v, v));
    if v >= 0.5 then p.(alpha := p.alpha + v, seen := seen) else p.(beta := p.beta + (1.0 - v), seen := seen)
  }

  /** Sums of values in [0, 1] and of their squares. */
  predicate Consistent(r: Sums) {
    && 0.0 <= r.sumSq <= r.sum <= r.count as real
    && Times(r.sum, r.sum) <= Times(r.count as real, r.sumSq)
  }

  predicate Proper(p: Posterior) { p.alpha >= 1.0 && p.beta >= 1.0 && Consistent(p.seen) }

  lemma SumsGrow(n: real, s: real, q: real, v: real)
    requires n >= 1.0 && Times(s, s) <= Times(n, q)
    ensures Times(s + v, s + v) <= Times(n + 1.0, q + Times(v, v))
  {
    var g := q + n * (v * v) - 2.0 * (s * v);
    SquareSign(s - n * v);
    assert g * n >= (s - n * v) * (s - n * v);
    if g < 0.0 {
      ProductPositive(-g, n, (-g) * n);
    }
    assert (s + v) * (s + v) == s * s + 2.0 * (s * v) + v * v;
    assert (n + 1.0) * (q + v * v) == n * q + q + n * (v * v) + v * v;
  }

  lemma UnitSquare(v: real)
    requires 0.0 <= v <= 1.0
    ensures 0.0 <= Times(v, v) <= v
  {
    if 0.0 < v < 1.0 {
      ProductPositive(v, v, v * v);
      ProductPositive(v, 1.0 - v, v * (1.0 - v));
      assert v * v == v - v * (1.0 - v);
    }
  }

  lemma SumsStayConsistent(r: Sums, v: real)
    requires Consistent(r) && 0.0 <= v <= 1.0
    ensures Consistent(Sums(r.count + 1, r.sum + v, r.sumSq + Times(v, v)))
  {
    UnitSquare(v);
    if r.count == 0 {
      assert Times(1.0, Times(v, v)) == Times(v, v);
    } else {
      SumsGrow(r.count as real, r.sum, r.sumSq, v);
    }
  }

  function RawVariance(r: Sums): real
    requires r.count > 0
  {
    var n := r.count as real;
    r.sumSq / n - Times(r.sum / n, r.sum / n)
  }

  function Variance(r: Sums): real {
    if r.count <= 1 then 0.0 else if RawVariance(r) < 0.0 then 0.0 else RawVariance(r)
  }

  /** The clamp on the variance never fires, and no variance of rewards in [0, 1] exceeds one quarter. */
  lemma VarianceWithin(r: Sums)
    requires Consistent(r) && r.count > 0
    ensures 0.0 <= RawVariance(r) <= 0.25
  {
    var n, m, w := r.count as real, r.sum / r.count as real, r.sumSq / r.count as real;
    assert m * n == r.sum && w * n == r.sumSq;
    MeanSquare(n, m, w);
    assert (m - w) * n == r.sum - r.sumSq;
    if w > m {
      ProductPositive(w - m, n, (w - m) * n);
    }
    SquareSign(m - 0.5);
    assert m * m - m + 0.25 == (m - 0.5) * (m - 0.5);
  }

  lemma MeanSquare(n: real, m: real, w: real)
    requires n > 0.0 && Times(m * n, m * n) <= Times(n, w * n)
    ensures m * m <= w
  {
    assert (m * n) * (m * n) == (m * m) * (n * n) && n * (w * n) == w * (n * n);
    ProductPositive(n, n, n * n);
    if m * m > w {
      ProductPositive(m * m - w, n * n, (m * m - w) * (n * n));
    }
  }

  lemma MoreInside(a: real, b: real, v: real)
    requires a > 0.0 && b > 0.0 && v > 0.0
    ensures 0.0 < a / (a + b) < (a + v) / (a + b + v) < 1.0
  {
    var n, m := a + b, a + b + v;
    var x, y := a / n, (a + v) / m;
    assert x * n == a && y * m == a + v;
    SignOfProduct(x, n, a);
    SignOfProduct(1.0 - x, n, b);
    SignOfProduct(1.0 - y, m, b);
    SignOfProduct(y - x, m, (1.0 - x) * v);
    SignOfProduct(1.0 - x, v, (1.0 - x) * v);
  }

  /** Observing keeps the mean strictly between 0 and 1, raises it for a value of at least one half and lowers it for a
      smaller one. */
  lemma ObserveMoves(p: Posterior, v: real)
    requires Proper(p)
    ensures Proper(Observe(p, v)) && 0.0 < Mean(Observe(p, v)) < 1.0
    ensures Mean(Observe(p, v)) > Mean(p) <==> Clamp01(v) >= 0.5
    ensures Mean(Observe(p, v)) < Mean(p) <==> Clamp01(v) < 0.5
  {
    var c := Clamp01(v);
    SumsStayConsistent(p.seen, c);
    hide Consistent, Times;
    if c >= 0.5 {
      MoreInside(p.alpha, p.beta, c);
    } else {
      MoreInside(p.beta, p.alpha, 1.0 - c);
      Complement(p.alpha, p.beta);
      Complement(p.alpha, p.beta + (1.0 - c));
    }
  }

  lemma MeanInside(p: Posterior)
    requires Proper(p)
    ensures 0.0 < Mean(p) < 1.0
  {
    var n, m := p.alpha + p.beta, Mean(p);
    assert m * n == p.alpha;
    SignOfProduct(m, n, p.alpha);
    SignOfProduct(1.0 - m, n, p.beta);
  }

  lemma Complement(a: real, b: real)
    requires a > 0.0 && b > 0.0
    ensures a / (a + b) == 1.0 - b / (b + a)
  {
    assert (a / (a + b)) * (a + b) == a && (b / (b + a)) * (a + b) == b;
    var x := a / (a + b) + b / (b + a) - 1.0;
    assert x * (a + b) == 0.0;
  }

  const PRIOR := Posterior(1.0, 1.0, Sums(0, 0.0, 0.0))

  /** The name that a tight budget boosts. */
  const COST: Name := 1

  function DefaultObjectives(): seq<Objective> {
    [Objective(0, 0.6, Maximize), Objective(COST, 0.3, Minimize), Objective(2, 0.1, Minimize)]
  }

  function Summarize(p: Posterior): Summary
    requires Proper(p)
  {
    Summary(Mean(p), Variance(p.seen), p)
  }

  // ---------------------------------------------------------------- what the posterior remembers

  function Clamped(vs: seq<real>): (c: seq<real>)
    ensures |c| == |vs| && forall i :: 0 <= i < |c| ==>
            c[i] == if vs[i] < 0.0 then 0.0 else if vs[i] > 1.0 then 1.0 else vs[i]
  {
    if vs == [] then [] else Clamped(vs[..|vs| - 1]) + [Clamp01(vs[|vs| - 1])]
  }

  /** The posterior after the values, one after another. */
  function Remembered(vs: seq<real>): Posterior {
    if vs == [] then PRIOR else Observe(Remembered(vs[..|vs| - 1]), vs[|vs| - 1])
  }

  /** Values of at least one half count as gains, what is missing to 1 from the others as losses. */
  function Gains(c: seq<real>): real {
    if c == [] then 0.0 else Gains(c[..|c| - 1]) + if c[|c| - 1] >= 0.5 then c[|c| - 1] else 0.0
  }

  function Losses(c: seq<real>): real {
    if c == [] then 0.0 else Losses(c[..|c| - 1]) + if c[|c| - 1] < 0.5 then 1.0 - c[|c| - 1] else 0.0
  }

  lemma {:induction false} SumsRemembered(vs: seq<real>)
    ensures var p, c := Remembered(vs), Clamped(vs);
            && p.alpha == 1.0 + Gains(c) && p.beta == 1.0 + Losses(c)
            && p.seen == Sums(|vs|, Sum(c), Pairs.SumSq(c))
  {
    if vs != [] {
      var n := |vs| - 1;
      SumsRemembered(vs[..n]);
      var c := Clamped(vs);
      assert c == Clamped(vs[..n]) + [Clamp01(vs[n])];
      assert c[..n] == Clamped(vs[..n]);
    }
  }

  /** After any values the posterior holds one plus the gains and one plus the losses, and the variance is that of the
      clamped values: times the square of their number it is the sum of their squared differences over all pairs. */
  lemma PosteriorIsHistory(vs: seq<real>)
    ensures var p, c := Remembered(vs), Clamped(vs);
            && p.alpha == 1.0 + Gains(c) && p.beta == 1.0 + Losses(c) && p.seen.count == |vs|
            && (vs != [] ==> Times(RawVariance(p.seen), Times(|vs| as real, |vs| as real)) == Pairs.PairGaps(c))
  {
    SumsRemembered(vs);
    if vs != [] {
      Pairs.PairsExpand(Clamped(vs));
      hide Sum, Pairs.SumSq, Pairs.PairGaps, Remembered, Clamped;
      VarianceTimes(Remembered(vs).seen);
    }
  }

  lemma VarianceTimes(r: Sums)
    requires r.count > 0
    ensures Times(RawVariance(r), Times(r.count as real, r.count as real)) ==
            Pairs.Lagrange(r.count as real, r.sum, r.sumSq)
  {
    var n, m, w := r.count as real, r.sum / r.count as real, r.sumSq / r.count as real;
    assert m * n == r.sum && w * n == r.sumSq;
    assert (w - m * m) * (n * n) == n * (w * n) - (m * n) * (m * n);
  }

  // ---------------------------------------------------------------- selection

  /** A Thompson sample, turned so that higher is better. */
  function Sample(o: Objective, draw: real): real { if o.direction.Minimize? then 1.0 - draw else draw }

  /** The samples, turned; `draw` gives the sample of each objective. */
  function Drawn(objs: seq<Objective>, draw: nat -> real): nat -> real {
    (i: nat) => if i < |objs| then Sample(objs[i], draw(i)) else 0.0
  }

  /** The sample kept under a name: the last objective of that name counts. */
  function SampleOf(objs: seq<Objective>, draw: nat -> real, n: Name, k: nat): real
    requires k <= |objs|
  {
    if k == 0 then 0.0
    else if objs[k - 1].name == n then Sample(objs[k - 1], draw(k - 1))
    else SampleOf(objs, draw, n, k - 1)
  }

  /** What a tight budget adds for cost among the first `k` objectives. */
  function Boost(objs: seq<Objective>, w: seq<real>, draw: nat -> real, k: nat): real
    requires k <= |objs| == |w|
  {
    if k == 0 then 0.0
    else Boost(objs, w, draw, k - 1) +
         if objs[k - 1].name == COST && objs[k - 1].direction.Minimize?
         then w[k - 1] * 0.2 * SampleOf(objs, draw, COST, |objs|) else 0.0
  }

  function SelectionScore(objs: seq<Objective>, w: seq<real>, pressure: real, draw: nat -> real): real
    requires |objs| == |w|
  {
    Weighted(w, Drawn(objs, draw), |objs|) + if pressure < -0.5 then Boost(objs, w, draw, |objs|) else 0.0
  }

  /** At most one objective is the cost. */
  predicate OneCost(objs: seq<Objective>) {
    forall i, j :: 0 <= i < j < |objs| ==> objs[i].name != COST || objs[j].name != COST
  }

  /** A tight budget counts cost a fifth more. */
  ghost predicate Reweighed(objs: seq<Objective>, w: seq<real>, w': seq<real>) {
    |w'| == |w| == |objs| && forall i :: 0 <= i < |w| ==>
      w'[i] == if objs[i].name == COST && objs[i].direction.Minimize? then w[i] + w[i] * 0.2 else w[i]
  }

  /** A tight budget is a change of weights. */
  lemma BudgetReweighs(objs: seq<Objective>, w: seq<real>, w': seq<real>, pressure: real, draw: nat -> real)
    requires OneCost(objs) && Reweighed(objs, w, w')
    ensures SelectionScore(objs, w, pressure, draw) ==
            Weighted(if pressure < -0.5 then w' else w, Drawn(objs, draw), |objs|)
  {
    BoostAdds(objs, w, w', draw, |objs|);
  }

  lemma {:induction false} CostSample(objs: seq<Objective>, draw: nat -> real, i: nat, k: nat)
    requires i < k <= |objs| && objs[i].name == COST && OneCost(objs)
    ensures SampleOf(objs, draw, COST, k) == Sample(objs[i], draw(i))
  {
    if i < k - 1 {
      CostSample(objs, draw, i, k - 1);
    }
  }

  lemma {:induction false} BoostAdds(objs: seq<Objective>, w: seq<real>, w': seq<real>, draw: nat -> real, k: nat)
    requires k <= |objs| && OneCost(objs) && Reweighed(objs, w, w')
    ensures Weighted(w', Drawn(objs, draw), k) == Weighted(w, Drawn(objs, draw), k) + Boost(objs, w, draw, k)
  {
    if k > 0 {
      BoostAdds(objs, w, w', draw, k - 1);
      var x := Sample(objs[k - 1], draw(k - 1));
      if objs[k - 1].name == COST && objs[k - 1].direction.Minimize? {
        CostSample(objs, draw, k - 1, |objs|);
        FifthMore(w[k - 1], x);
      }
    }
  }

  lemma FifthMore(w: real, x: real)
    ensures Times(w + w * 0.2, x) == Times(w, x) + w * 0.2 * x
  {
  }

  /** Under weights that are not negative and add up to one, the samples are averaged. */
  lemma SelectionAverages(objs: seq<Objective>, w: seq<real>, draw: nat -> real, lo: real, hi: real)
    requires |w| == |objs| && Sum(w) == 1.0 && forall j :: 0 <= j < |w| ==> w[j] >= 0.0
    requires forall j: nat :: j < |objs| ==>
               lo <= (if objs[j].direction.Maximize? then draw(j) else 1.0 - draw(j)) <= hi
    ensures lo <= Weighted(w, Drawn(objs, draw), |objs|) <= hi
  {
    hide Weighted;
    forall j: nat | j < |objs| ensures lo <= Drawn(objs, draw)(j) <= hi {
      assert lo <= (if objs[j].direction.Maximize? then draw(j) else 1.0 - draw(j)) <= hi;
    }
    WeightedWithin(w, Drawn(objs, draw), lo, hi, |w|);
    assert w[..|w|] == w;
    assert Times(1.0, lo) == lo && Times(1.0, hi) == hi;
  }

  /** Each sample counts with its weight. */
  lemma SelectionWeighs(objs: seq<Objective>, w: seq<real>, draw: nat -> real, draw': nat -> real, i: nat)
    requires |w| == |objs| && i < |objs| && forall j: nat :: j < |objs| && j != i ==> draw(j) == draw'(j)
    ensures Weighted(w, Drawn(objs, draw), |objs|) - Weighted(w, Drawn(objs, draw'), |objs|) ==
            Times(w[i], if objs[i].direction.Maximize? then draw(i) - draw'(i) else draw'(i) - draw(i))
  {
    hide Weighted, Times;
    forall j: nat | j < |objs| && j != i ensures Drawn(objs, draw)(j) == Drawn(objs, draw')(j) {
    }
    WeightedMoves(w, Drawn(objs, draw), Drawn(objs, draw'), i, |w|);
  }

  /** The score of one arm, loop by loop. */
  method SampleArm(objs: seq<Objective>, w: seq<real>, pressure: real, draw: nat -> real) returns (score: real)
    requires |w| == |objs|
    ensures score == SelectionScore(objs, w, pressure, draw)
  {
    hide Weighted, Boost;
    var samples;
    score, samples := SampleAll(objs, w, draw);
    if pressure < -0.5 {
      var boost := BoostAll(objs, w, draw, samples);
      score := score + boost;
    }
  }

  /** The samples of the first `k` objectives by name. */
  ghost predicate AreSamples(samples: map<Name, real>, objs: seq<Objective>, draw: nat -> real, k: nat)
    requires k <= |objs|
  {
    && (forall i :: 0 <= i < k ==> objs[i].name in samples)
    && (forall n :: n in samples ==> samples[n] == SampleOf(objs, draw, n, k))
  }

  lemma NoSamples(objs: seq<Objective>, draw: nat -> real)
    ensures AreSamples(map[], objs, draw, 0)
  {
  }

  lemma NextSample(samples: map<Name, real>, objs: seq<Objective>, draw: nat -> real, i: nat)
    requires i < |objs| && AreSamples(samples, objs, draw, i)
    ensures AreSamples(samples[objs[i].name := Sample(objs[i], draw(i))], objs, draw, i + 1)
  {
  }

  method SampleAll(objs: seq<Objective>, w: seq<real>, draw: nat -> real)
    returns (score: real, samples: map<Name, real>)
    requires |w| == |objs|
    ensures score == Weighted(w, Drawn(objs, draw), |objs|)
    ensures AreSamples(samples, objs, draw, |objs|)
  {
    hide Times, AreSamples;
    score, samples := 0.0, map[];
    NoSamples(objs, draw);
    for i := 0 to |objs|
      invariant score == Weighted(w, Drawn(objs, draw), i) && AreSamples(samples, objs, draw, i)
    {
      var sample := draw(i);
      NextSample(samples, objs, draw, i);
      if objs[i].direction.Minimize? {
        sample := 1.0 - sample;
      }
      samples := samples[objs[i].name := sample];
      score := score + Times(w[i], sample);
    }
  }

  method BoostAll(objs: seq<Objective>, w: seq<real>, draw: nat -> real, samples: map<Name, real>)
    returns (boost: real)
    requires |w| == |objs| && AreSamples(samples, objs, draw, |objs|)
    ensures boost == Boost(objs, w, draw, |objs|)
  {
    boost := 0.0;
    for i := 0 to |objs|
      invariant boost == Boost(objs, w, draw, i)
    {
      if objs[i].name == COST && objs[i].direction.Minimize? {
        boost := boost + w[i] * 0.2 * samples[objs[i].name];
      }
    }
  }

  /** One arm's posteriors after the rewards, taken in any order. */
  method ObserveAll(was: map<Name, Posterior>, rewards: map<Name, real>) returns (m: map<Name, Posterior>)
    requires forall n :: n in was ==> Proper(was[n])
    ensures m.Keys == was.Keys && forall n :: n in m ==> Proper(m[n])
    ensures forall n :: n in m ==> m[n] == if n in rewards then Observe(was[n], rewards[n]) else was[n]
  {
    hide Proper, Observe;
    m := was;
    var left := rewards.Keys;
    while left != {}
      invariant left <= rewards.Keys && m.Keys == was.Keys && forall n :: n in m ==> Proper(m[n])
      invariant forall n :: n in m ==>
                  m[n] == if n in rewards && n !in left then Observe(was[n], rewards[n]) else was[n]
      decreases |left|
    {
      var name :| name in left;
      left := left - {name};
      if name in m {
        ObserveMoves(m[name], rewards[name]);
        m := m[name := Observe(m[name], rewards[name])];
      }
    }
  }

  class MultiObjectiveBandit {
    var arms: map<Name, map<Name, Posterior>>
    var selections: map<Name, nat>
    const order: seq<Name>
    const objectives: seq<Objective>
    const shares: seq<real>

    ghost predicate Valid()
      reads this
    {
      && objectives != [] && AreShares(objectives, shares)
      && (forall i :: 0 <= i < |order| ==> order[i] in arms)
      && selections.Keys == arms.Keys
      && (forall a :: a in arms ==> Posteriors(arms[a]))
    }

    ghost predicate Posteriors(m: map<Name, Posterior>) {
      && (forall i :: 0 <= i < |objectives| ==> objectives[i].name in m)
      && (forall n :: n in m ==> Proper(m[n]))
    }

    constructor (ids: seq<Name>, objs: seq<Objective>)
      ensures Valid() && order == ids && objectives == if objs == [] then DefaultObjectives() else objs
      ensures objs == [] ==>
                objectives == [Objective(0, 0.6, Maximize), Objective(1, 0.3, Minimize), Objective(2, 0.1, Minimize)]
      ensures forall a, n :: a in arms && n in arms[a] ==> arms[a][n] == Posterior(1.0, 1.0, Sums(0, 0.0, 0.0))
      ensures forall a :: a in arms ==> selections[a] == 0
    {
      var chosen := if objs == [] then DefaultObjectives() else objs;
      var total := 0.0;
      for i := 0 to |chosen|
        invariant total == Total(chosen[..i])
      {
        assert chosen[..i + 1][..i] == chosen[..i];
        total := total + chosen[i].weight;
      }
      assert chosen[..|chosen|] == chosen;
      var w := [];
      for i := 0 to |chosen|
        invariant |w| == i && forall k :: 0 <= k < i ==> w[k] == Share(chosen, k)
      {
        w := w + [if total > 0.0 then chosen[i].weight / total else 1.0 / |chosen| as real];
      }
      order, objectives, shares := ids, chosen, w;
      var prior := map i | 0 <= i < |chosen| :: chosen[i].name := PRIOR;
      arms := map i | 0 <= i < |ids| :: ids[i] := prior;
      selections := map i | 0 <= i < |ids| :: ids[i] := 0;
    }

    /** Rewards of unknown arms and unknown objectives are ignored. */
    method Update(arm: Name, rewards: map<Name, real>)
      requires Valid()
      modifies this`arms
      ensures Valid()
      ensures arm !in old(arms) ==> arms == old(arms)
      ensures arm in old(arms) ==> arms.Keys == old(arms).Keys && arms[arm].Keys == old(arms)[arm].Keys
      ensures forall a :: a in old(arms) && a != arm ==> a in arms && arms[a] == old(arms)[a]
      ensures arm in old(arms) ==> forall n :: n in arms[arm] ==>
                arms[arm][n] == if n in rewards then Observe(old(arms)[arm][n], rewards[n]) else old(arms)[arm][n]
    {
      hide Proper, Observe, AreShares;
      if arm !in arms {
        return;
      }
      var observed := ObserveAll(arms[arm], rewards);
      arms := arms[arm := observed];
    }

    /** The place of the first arm of the highest score; `draws` gives the samples of the arm at each place. */
    method Best(pressure: real, draws: nat -> (nat -> real)) returns (best: nat)
      requires Valid() && order != []
      ensures IsBest(pressure, draws, best)
    {
      hide SelectionScore;
      var bestScore: Option<real> := None;
      best := 0;
      for i := 0 to |order|
        invariant best <= i && (i == 0 <==> bestScore.None?)
        invariant bestScore.Some? ==> best < i && bestScore.value == Rated(pressure, draws, best)
        invariant forall k :: 0 <= k < i ==> Rated(pressure, draws, k) <= Rated(pressure, draws, best)
        invariant forall k :: 0 <= k < best ==> Rated(pressure, draws, k) < Rated(pressure, draws, best)
      {
        var score := SampleArm(objectives, shares, pressure, draws(i));
        if bestScore.None? || score > bestScore.value {
          best, bestScore := i, Some(score);
        }
      }
    }

    /** Selects an arm of the highest score, the first of them; only its selections change. */
    method Select(pressure: real, draws: nat -> (nat -> real)) returns (chosen: Option<nat>)
      requires Valid()
      modifies this`selections
      ensures Valid()
      ensures order == [] ==> chosen.None? && selections == old(selections)
      ensures order != [] ==>
                && chosen.Some? && IsBest(pressure, draws, chosen.value)
                && var id := order[chosen.value]; selections == old(selections)[id := old(selections)[id] + 1]
    {
      if order == [] {
        return None;
      }
      hide AreShares, Posteriors;
      var best := Best(pressure, draws);
      var id := order[best];
      selections := selections[id := selections[id] + 1];
      chosen := Some(best);
    }

    /** No arm scores higher than the one at place `best`, and none before it as high. */
    ghost predicate IsBest(pressure: real, draws: nat -> (nat -> real), best: nat)
      requires |objectives| == |shares|
    {
      && best < |order|
      && (forall i :: 0 <= i < |order| ==> Rated(pressure, draws, i) <= Rated(pressure, draws, best))
      && (forall i :: 0 <= i < best ==> Rated(pressure, draws, i) < Rated(pressure, draws, best))
    }

    /** The score of the arm at place `i`. */
    function Rated(pressure: real, draws: nat -> (nat -> real), i: nat): real
      requires |objectives| == |shares|
    {
      SelectionScore(objectives, shares, pressure, draws(i))
    }

    /** The unranked statistics of an arm. */
    function Stats(id: Name): (s: Arm)
      requires Valid() && id in arms
      reads this
    {
      var stats := map i | 0 <= i < |objectives| :: objectives[i].name := Summarize(arms[id][objectives[i].name]);
      var bare := Arm(id, stats, selections[id], 0, 0.0);
      bare.(score := Scalarized(objectives, shares, bare, |objectives|))
    }

    ghost function AllStats(): (s: seq<Arm>)
      requires Valid()
      reads this
    {
      seq(|order|, i requires 0 <= i < |order| reads this requires Valid() => Stats(order[i]))
    }

    method Collect() returns (list: seq<Arm>)
      requires Valid()
      ensures list == AllStats()
    {
      list := [];
      for i := 0 to |order|
        invariant |list| == i && forall k :: 0 <= k < i ==> list[k] == Stats(order[k])
      {
        var s := Stats(order[i]);
        var score := Scalarize(objectives, shares, s);
        SameScalar(objectives, shares, s, s.(score := 0.0), |objectives|);
        list := list + [s.(score := score)];
      }
    }

    lemma AllScored()
      requires Valid()
      ensures Scored(AllStats(), objectives, shares)
    {
      forall i | 0 <= i < |order|
        ensures AllStats()[i].score == Scalarized(objectives, shares, AllStats()[i], |objectives|)
      {
        var s := Stats(order[i]);
        SameScalar(objectives, shares, s, s.(score := 0.0), |objectives|);
      }
    }

    lemma AllInside()
      requires Valid()
      ensures forall i :: 0 <= i < |order| ==> Inside(objectives, AllStats()[i])
    {
      forall i, k | 0 <= i < |order| && 0 <= k < |objectives|
        ensures var x := AllStats()[i]; objectives[k].name in x.stats && 0.0 < x.stats[objectives[k].name].mean < 1.0
      {
        MeanInside(arms[order[i]][objectives[k].name]);
      }
    }

    /** Every arm once, by rank and then score; `ranked` is the list before the final sort. */
    method ParetoFront() returns (r: seq<Arm>, ghost ranked: seq<Arm>)
      requires Valid()
      ensures IsFrontOf(AllStats(), objectives, shares, ranked, r)
      ensures (forall i :: 0 <= i < |objectives| ==> objectives[i].weight >= 0.0) ==>
                forall x :: x in r ==>
                  r[0].rank == 0 && r[0].score >= x.score && IsAverage(objectives, x) && 0.0 < x.score < 1.0
      ensures forall x, y, i :: x in r && y in r && 0 <= i < |objectives| ==> Weighs(objectives, x, y, i)
    {
      hide IsAverage, Weighs, Stats, Inside;
      var list := Collect();
      AllScored();
      AllInside();
      SharesSumToOne(objectives, shares);
      r, ranked := RankAndSort(list, objectives, shares);
      forall x, y, i | x in r && y in r && 0 <= i < |objectives| ensures Weighs(objectives, x, y, i) {
        ScoreWeighs(objectives, shares, x, y, i);
      }
      if forall i :: 0 <= i < |objectives| ==> objectives[i].weight >= 0.0 {
        forall x | x in r ensures IsAverage(objectives, x) && 0.0 < x.score < 1.0 {
          ScoreIsAverage(objectives, shares, x);
          ScoreInside(objectives, x);
        }
      }
    }
  }

  /** `r` is `arms`, each with its longest chain of dominators as rank, in the published order. */
  ghost predicate IsFrontOf(arms: seq<Arm>, objs: seq<Objective>, w: seq<real>, ranked: seq<Arm>, r: seq<Arm>) {
    && OnlyRanks(arms, ranked)
    && (forall i :: 0 <= i < |ranked| ==> LongestChain(arms, objs, i, ranked[i].rank))
    && IsSortOf(Ahead, r, ranked)
  }

  method RankAndSort(list: seq<Arm>, objs: seq<Objective>, w: seq<real>) returns (r: seq<Arm>, ghost ranked: seq<Arm>)
    requires Scored(list, objs, w) && forall i :: 0 <= i < |list| ==> Inside(objs, list[i])
    ensures IsFrontOf(list, objs, w, ranked, r)
    ensures (forall i :: 0 <= i < |w| ==> w[i] >= 0.0) ==>
              forall x :: x in r ==> r[0].rank == 0 && r[0].score >= x.score
    ensures forall x :: x in r ==> x.score == Scalarized(objs, w, x, |objs|) && Inside(objs, x)
  {
    var stats := new Arm[|list|](i requires 0 <= i < |list| => list[i]);
    assert stats[..] == list;
    AssignRanks(stats, objs);
    ranked := stats[..];
    r := Sort(stats[..], Ahead);
    if forall i :: 0 <= i < |w| ==> w[i] >= 0.0 {
      forall x | x in r ensures r[0].rank == 0 && r[0].score >= x.score {
        FirstIsBest(list, objs, w, ranked, r, x);
      }
    }
    forall x | x in r ensures x.score == Scalarized(objs, w, x, |objs|) && Inside(objs, x) {
      FrontScored(list, objs, w, ranked, r, x);
    }
  }

  lemma FrontScored(arms: seq<Arm>, objs: seq<Objective>, w: seq<real>, ranked: seq<Arm>, r: seq<Arm>, x: Arm)
    requires Scored(arms, objs, w) && forall i :: 0 <= i < |arms| ==> Inside(objs, arms[i])
    requires OnlyRanks(arms, ranked) && IsSortOf(Ahead, r, ranked) && x in r
    ensures x.score == Scalarized(objs, w, x, |objs|) && Inside(objs, x)
  {
    SortMembers(Ahead, r, ranked);
    var i :| 0 <= i < |ranked| && ranked[i] == x;
    SameScalar(objs, w, arms[i], x, |objs|);
  }
}
