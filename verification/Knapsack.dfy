// The budgeted assignment of internal/bandit/budget_knapsack.go: one pass over the sorted candidates
// is the greedy process that always takes the most efficient pair it can still afford.
module Knapsack {
  import opened Reals
  import opened Sorting

  datatype Candidate = Candidate(task: nat, arm: nat, cost: real, quality: real, ratio: real)

  datatype Estimate = Estimate(cost: real, quality: real)

  /** A pair worth considering, with its efficiency. */
  predicate IsCandidate(c: Candidate, tasks: nat, arms: nat, predictor: (nat, nat) -> Estimate) {
    && c.task < tasks && c.arm < arms
    && c.cost == predictor(c.task, c.arm).cost > 0.0 && c.quality == predictor(c.task, c.arm).quality > 0.0
    && c.ratio == c.quality / c.cost
  }

  predicate Better(x: Candidate, y: Candidate) { x.ratio > y.ratio }

  function Spent(r: seq<Candidate>): real { if r == [] then 0.0 else Spent(r[..|r| - 1]) + r[|r| - 1].cost }

  ghost function Tasks(r: seq<Candidate>): set<nat> { set i | 0 <= i < |r| :: r[i].task }

  /** `c` could still be taken after the assignments `r`. */
  ghost predicate Open(c: Candidate, r: seq<Candidate>, budget: real) {
    c.task !in Tasks(r) && c.cost <= budget - Spent(r)
  }

  /** Assignment `k` was open when it was made, and no open pair was more efficient. */
  ghost predicate BestAt(cs: set<Candidate>, r: seq<Candidate>, budget: real, k: nat)
    requires k < |r|
  {
    && r[k] in cs && Open(r[k], r[..k], budget)
    && forall c :: c in cs && Open(c, r[..k], budget) ==> c.ratio <= r[k].ratio
  }

  /** A run of the greedy process that cannot go on. */
  ghost predicate IsGreedy(cs: set<Candidate>, r: seq<Candidate>, budget: real) {
    && (forall k :: 0 <= k < |r| ==> BestAt(cs, r, budget, k))
    && (forall c :: c in cs ==> !Open(c, r, budget))
  }

  // ---------------------------------------------------------------- consequences

  lemma {:induction false} SpentGrows(cs: set<Candidate>, r: seq<Candidate>, k: nat)
    requires k <= |r| && (forall i :: 0 <= i < |r| ==> r[i] in cs) && (forall c :: c in cs ==> c.cost > 0.0)
    ensures Spent(r[..k]) <= Spent(r)
  {
    if k == |r| {
      assert r[..k] == r;
    } else {
      var s := r[..|r| - 1];
      SpentGrows(cs, s, k);
      assert s[..k] == r[..k];
      assert r[|r| - 1] in cs;
    }
  }

  /** Every greedy run stays within the budget, gives each task at most one arm, the most efficient of those it
      could afford then, and leaves a task without an arm only when all its arms cost more than what is left. */
  lemma GreedyIsSound(cs: set<Candidate>, r: seq<Candidate>, budget: real)
    requires IsGreedy(cs, r, budget) && budget > 0.0 && forall c :: c in cs ==> c.cost > 0.0
    ensures Spent(r) <= budget
    ensures forall i, j :: 0 <= i < j < |r| ==> r[i].task != r[j].task
    ensures forall k, c :: 0 <= k < |r| && c in cs && c.task == r[k].task && c.cost <= budget - Spent(r[..k]) ==>
            c.ratio <= r[k].ratio
    ensures forall c :: c in cs && c.task !in Tasks(r) ==> c.cost > budget - Spent(r)
  {
    if r != [] {
      assert BestAt(cs, r, budget, |r| - 1);
    }
    forall i, j | 0 <= i < j < |r| ensures r[i].task != r[j].task {
      assert BestAt(cs, r, budget, j);
      assert r[..j][i].task in Tasks(r[..j]);
    }
    forall k, c | 0 <= k < |r| && c in cs && c.task == r[k].task && c.cost <= budget - Spent(r[..k])
      ensures c.ratio <= r[k].ratio
    {
      assert BestAt(cs, r, budget, k);
    }
  }

  /** Assignment `k` is of some task and arm with positive predictions, and no pair of an unassigned task that fits what
      is left then has more quality for its cost. */
  ghost predicate MostEfficient(tasks: nat, arms: nat, predictor: (nat, nat) -> Estimate, r: seq<Candidate>,
                                budget: real, k: nat)
    requires k < |r|
  {
    var e := predictor(r[k].task, r[k].arm);
    && r[k].task < tasks && r[k].arm < arms && r[k].cost == e.cost > 0.0 && r[k].quality == e.quality > 0.0
    && forall t: nat, a: nat ::
         var d := predictor(t, a);
         (t < tasks && a < arms && d.cost > 0.0 && d.quality > 0.0
          && t !in Tasks(r[..k]) && d.cost <= budget - Spent(r[..k])) ==>
           Times(d.quality, e.cost) <= Times(e.quality, d.cost)
  }

  lemma GreedyIsEfficient(tasks: nat, arms: nat, predictor: (nat, nat) -> Estimate, cs: set<Candidate>,
                          r: seq<Candidate>, budget: real, k: nat)
    requires (forall c :: c in cs <==> IsCandidate(c, tasks, arms, predictor)) && IsGreedy(cs, r, budget) && k < |r|
    ensures MostEfficient(tasks, arms, predictor, r, budget, k)
  {
    assert BestAt(cs, r, budget, k);
    assert IsCandidate(r[k], tasks, arms, predictor);
    var e := predictor(r[k].task, r[k].arm);
    forall t: nat, a: nat | t < tasks && a < arms && predictor(t, a).cost > 0.0 && predictor(t, a).quality > 0.0 &&
                            t !in Tasks(r[..k]) && predictor(t, a).cost <= budget - Spent(r[..k])
      ensures Times(predictor(t, a).quality, e.cost) <= Times(e.quality, predictor(t, a).cost)
    {
      var d := predictor(t, a);
      var c := Candidate(t, a, d.cost, d.quality, d.quality / d.cost);
      assert IsCandidate(c, tasks, arms, predictor) && Open(c, r[..k], budget);
      CrossMultiply(d.quality, d.cost, e.quality, e.cost);
    }
  }

  lemma CrossMultiply(p: real, q: real, r: real, s: real)
    requires q > 0.0 && s > 0.0 && p / q <= r / s
    ensures Times(p, s) <= Times(r, q)
  {
    var u, v := p / q, r / s;
    assert u * q == p && v * s == r;
    ProductPositive(q, s, q * s);
    assert (v - u) * (q * s) >= 0.0;
    assert u * (q * s) == (u * q) * s && v * (q * s) == (v * s) * q;
  }

  // ---------------------------------------------------------------- the pass

  /** After a prefix of the sorted candidates: the run so far is greedy and nothing seen is open. */
  ghost predicate PassedOver(cs: seq<Candidate>, i: nat, r: seq<Candidate>, budget: real)
    requires i <= |cs|
  {
    && (forall k :: 0 <= k < |r| ==> BestAt(Set(cs), r, budget, k))
    && (forall j :: 0 <= j < i ==> !Open(cs[j], r, budget))
  }

  ghost function Set(cs: seq<Candidate>): set<Candidate> { set c | c in cs }

  lemma TasksSnoc(r: seq<Candidate>, c: Candidate)
    ensures Tasks(r + [c]) == Tasks(r) + {c.task} && Spent(r + [c]) == Spent(r) + c.cost
  {
    var s := r + [c];
    assert s[..|r|] == r;
    forall t | t in Tasks(r) ensures t in Tasks(s) {
      var i :| 0 <= i < |r| && r[i].task == t;
      assert s[i].task == t;
    }
    assert s[|r|].task == c.task;
  }

  /** Taking an open candidate at `i` continues the greedy run. */
  lemma TakeNext(cs: seq<Candidate>, i: nat, r: seq<Candidate>, budget: real)
    requires i < |cs| && PassedOver(cs, i, r, budget) && SortedBy(Better, cs) && Open(cs[i], r, budget)
    requires forall c :: c in cs ==> c.cost > 0.0
    ensures PassedOver(cs, i + 1, r + [cs[i]], budget)
  {
    var s := r + [cs[i]];
    TasksSnoc(r, cs[i]);
    forall k | 0 <= k < |s| ensures BestAt(Set(cs), s, budget, k) {
      if k < |r| {
        assert s[..k] == r[..k];
        assert BestAt(Set(cs), r, budget, k);
      } else {
        assert s[..k] == r;
        forall c | c in Set(cs) && Open(c, r, budget) ensures c.ratio <= cs[i].ratio {
          var j :| 0 <= j < |cs| && cs[j] == c;
          assert j >= i;
          assert j > i ==> !Better(cs[j], cs[i]);
        }
      }
    }
    assert cs[i] in cs;
    forall j | 0 <= j < i + 1 ensures !Open(cs[j], s, budget) {
      assert j < i ==> !Open(cs[j], r, budget);
    }
  }

  method Score(tasks: nat, arms: nat, predictor: (nat, nat) -> Estimate) returns (cs: seq<Candidate>)
    ensures forall c :: c in cs <==> IsCandidate(c, tasks, arms, predictor)
  {
    cs := [];
    for t := 0 to tasks
      invariant forall c :: c in cs <==> c.task < t && IsCandidate(c, tasks, arms, predictor)
    {
      for a := 0 to arms
        invariant forall c ::
                    c in cs <==> (c.task < t || (c.task == t && c.arm < a)) && IsCandidate(c, tasks, arms, predictor)
      {
        var e := predictor(t, a);
        if e.cost <= 0.0 || e.quality <= 0.0 {
          continue;
        }
        cs := cs + [Candidate(t, a, e.cost, e.quality, e.quality / e.cost)];
      }
    }
  }

  /** The assignments of the greedy process over all pairs with positive cost and quality. */
  method SolveBudgetKnapsack(tasks: nat, arms: nat, budget: real, predictor: (nat, nat) -> Estimate)
    returns (r: seq<Candidate>, ghost cs: set<Candidate>)
    ensures forall c :: c in cs <==> IsCandidate(c, tasks, arms, predictor)
    ensures budget <= 0.0 ==> r == []
    ensures budget > 0.0 ==> IsGreedy(cs, r, budget)
    ensures forall k :: 0 <= k < |r| ==> MostEfficient(tasks, arms, predictor, r, budget, k)
  {
    r, cs := Assign(tasks, arms, budget, predictor);
    if budget > 0.0 {
      forall k | 0 <= k < |r| ensures MostEfficient(tasks, arms, predictor, r, budget, k) {
        GreedyIsEfficient(tasks, arms, predictor, cs, r, budget, k);
      }
    }
  }

  method Assign(tasks: nat, arms: nat, budget: real, predictor: (nat, nat) -> Estimate)
    returns (r: seq<Candidate>, ghost cs: set<Candidate>)
    ensures forall c :: c in cs <==> IsCandidate(c, tasks, arms, predictor)
    ensures budget <= 0.0 ==> r == []
    ensures budget > 0.0 ==> IsGreedy(cs, r, budget)
  {
    var scored := Score(tasks, arms, predictor);
    cs := Set(scored);
    r := [];
    if tasks == 0 || arms == 0 || budget <= 0.0 {
      return;
    }
    var sorted := Sort(scored, Better);
    SortMembers(Better, sorted, scored);
    assert Set(sorted) == cs;
    var taken: set<nat> := {};
    var remaining := budget;
    for i := 0 to |sorted|
      invariant PassedOver(sorted, i, r, budget)
      invariant taken == Tasks(r) && remaining == budget - Spent(r)
      invariant forall t :: t in taken ==> t < tasks
    {
      var c := sorted[i];
      if c.task in taken || c.cost > remaining {
        continue;
      }
      assert c in sorted && c in cs && IsCandidate(c, tasks, arms, predictor);
      TakeNext(sorted, i, r, budget);
      TasksSnoc(r, c);
      taken := taken + {c.task};
      remaining := remaining - c.cost;
      r := r + [c];
      if |taken| == tasks {
        forall x | x in cs ensures x.task in Tasks(r) {
          Full(taken, tasks, x.task);
        }
        break;
      }
    }
  }

  lemma {:induction false} SizeBound(s: set<nat>, n: nat)
    requires forall k :: k in s ==> k < n
    ensures |s| <= n
  {
    if n > 0 {
      SizeBound(s - {n - 1}, n - 1);
      assert s <= (s - {n - 1}) + {n - 1};
      assert |s| <= |s - {n - 1}| + 1;
    } else {
      assert s == {};
    }
  }

  lemma Full(s: set<nat>, n: nat, k: nat)
    requires (forall x :: x in s ==> x < n) && |s| == n && k < n
    ensures k in s
  {
    SizeBound(s + {k}, n);
  }
}
