// BuildBaseline of internal/e2e/baseline.go: grouping, sorting and aggregation loops.
module Baseline {
  import opened Common
  import opened BaselineModel
  import opened Sorting

  class Group {
    var costs: seq<real>
    var latencies: seq<real>

    constructor ()
      ensures costs == [] && latencies == []
    {
      costs, latencies := [], [];
    }

    method Add(o: Observation)
      modifies this
      ensures costs == old(costs) + [o.cost] && latencies == old(latencies) + [o.latency]
    {
      costs, latencies := costs + [o.cost], latencies + [o.latency];
    }
  }

  /** The list holds, in some order, the values of the observations with keys in `ks`. */
  ghost predicate Holds(s: seq<real>, f: seq<Observation>, ks: set<Key>, m: Metric) {
    && |s| == Size(f, ks)
    && forall v :: Lower(s, v) == Below(f, ks, m, v) && NotHigher(s, v) == AtMost(f, ks, m, v)
  }

  /** The rank is the share of the values, rounded up. */
  lemma RankBetween(n: nat, p: nat)
    requires 0 < p <= 100
    ensures 100 * (RankOf(n, p) - 1) < p * n <= 100 * RankOf(n, p)
    ensures RankOf(n, p) <= n && (n > 0 ==> RankOf(n, p) > 0)
  {
    assert p * n <= 100 * n && (n > 0 ==> p * n > 0);
  }

  /** The percentile of a sorted list is the one that counting determines. */
  lemma PercentileFIsPercentile(s: seq<real>, f: seq<Observation>, ks: set<Key>, m: Metric, p: nat)
    requires Ascending(s) && s != [] && Holds(s, f, ks, m) && 0 < p <= 100
    ensures IsPercentile(f, ks, m, p, PercentileF(s, p))
  {
    RankBetween(|s|, p);
    CountsInOrder(s, RankOf(|s|, p) - 1);
  }

  predicate Less(x: real, y: real) { x < y }

  method SortFloats(s: seq<real>) returns (r: seq<real>)
    ensures Ascending(r) && multiset(r) == multiset(s)
  {
    r := Sort(s, Less);
    forall i, j | 0 <= i < j < |r| ensures r[i] <= r[j] {
      assert !Less(r[j], r[i]);
    }
  }

  lemma HoldsPermuted(s: seq<real>, r: seq<real>, f: seq<Observation>, ks: set<Key>, m: Metric)
    requires Holds(s, f, ks, m) && multiset(r) == multiset(s)
    ensures Holds(r, f, ks, m)
  {
    assert |r| == |multiset(r)| == |s|;
    forall v ensures Lower(r, v) == Below(f, ks, m, v) && NotHigher(r, v) == AtMost(f, ks, m, v) {
      CountsPermute(s, r, v);
    }
  }

  lemma HoldsJoined(s: seq<real>, t: seq<real>, f: seq<Observation>, ks: set<Key>, k: Key, m: Metric)
    requires Holds(s, f, ks, m) && Holds(t, f, {k}, m) && k !in ks
    ensures Holds(s + t, f, ks + {k}, m)
  {
    KeysAdd(f, ks, k, m, 0.0);
    forall v ensures Lower(s + t, v) == Below(f, ks + {k}, m, v) && NotHigher(s + t, v) == AtMost(f, ks + {k}, m, v) {
      CountsAdd(s, t, v);
      KeysAdd(f, ks, k, m, v);
    }
  }

  /** The values of one key in the order of observation. */
  function ValuesAt(f: seq<Observation>, k: Key, m: Metric): seq<real> {
    if f == [] then []
    else ValuesAt(f[..|f| - 1], k, m) + if f[|f| - 1].key == k then [ValueOf(f[|f| - 1], m)] else []
  }

  lemma {:induction false} ValuesHold(f: seq<Observation>, k: Key, m: Metric)
    ensures Holds(ValuesAt(f, k, m), f, {k}, m)
  {
    if f != [] {
      var n, o := |f| - 1, f[|f| - 1];
      ValuesHold(f[..n], k, m);
      var past, x := ValuesAt(f[..n], k, m), ValueOf(o, m);
      assert (past + [x])[..|past|] == past && past + [] == past;
      forall v
        ensures Lower(ValuesAt(f, k, m), v) == Below(f, {k}, m, v) &&
                NotHigher(ValuesAt(f, k, m), v) == AtMost(f, {k}, m, v)
      {
        assert Lower(past, v) == Below(f[..n], {k}, m, v) && NotHigher(past, v) == AtMost(f[..n], {k}, m, v);
      }
    }
  }

  lemma {:induction false} HoldsNone(f: seq<Observation>, m: Metric)
    ensures Holds([], f, {}, m)
  {
    if f != [] {
      HoldsNone(f[..|f| - 1], m);
    }
  }

  /** Two percentiles of a list, which the source sorts in place. */
  method PercentilesOf(values: seq<real>, ghost f: seq<Observation>, ghost ks: set<Key>, ghost m: Metric)
    returns (p50: real, p95: real)
    requires Holds(values, f, ks, m) && Size(f, ks) > 0
    ensures IsPercentile(f, ks, m, 50, p50) && IsPercentile(f, ks, m, 95, p95)
  {
    var sorted := SortFloats(values);
    HoldsPermuted(values, sorted, f, ks, m);
    assert sorted != [];
    PercentileFIsPercentile(sorted, f, ks, m, 50);
    PercentileFIsPercentile(sorted, f, ks, m, 95);
    hide IsPercentile, PercentileF;
    p50, p95 := PercentileF(sorted, 50), PercentileF(sorted, 95);
  }

  method StatsOf(costs: seq<real>, latencies: seq<real>, ghost f: seq<Observation>, ghost ks: set<Key>)
    returns (s: Stats)
    requires Holds(costs, f, ks, Cost) && Holds(latencies, f, ks, Latency) && Size(f, ks) > 0
    ensures AreStats(f, ks, s)
  {
    var costP50, costP95 := PercentilesOf(costs, f, ks, Cost);
    var latencyP50, latencyP95 := PercentilesOf(latencies, f, ks, Latency);
    hide IsPercentile;
    s := Stats(costP50, costP95, latencyP50, latencyP95, |costs|);
  }

  function Window(obs: seq<Observation>, now: int, hours: real): (f: seq<Observation>)
    ensures forall o :: o in f <==> o in obs && (o.mode == "" || o.mode == "live" || o.mode == "mock") &&
                                    InWindow(o.time, now, hours)
  {
    if obs == [] then []
    else
      var o := obs[|obs| - 1];
      Window(obs[..|obs| - 1], now, hours) + if Kept(o, now, hours) then [o] else []
  }

  method Filter(obs: seq<Observation>, now: int, hours: real) returns (f: seq<Observation>)
    ensures f == Window(obs, now, hours)
  {
    f := [];
    for i := 0 to |obs|
      invariant f == Window(obs[..i], now, hours)
    {
      assert obs[..i + 1][..i] == obs[..i];
      if !Eligible(obs[i].mode) {
        continue;
      }
      if InWindow(obs[i].time, now, hours) {
        f := f + [obs[i]];
      }
    }
    assert obs[..|obs|] == obs;
  }

  predicate HasValues(g: Group, f: seq<Observation>, k: Key)
    reads g
  {
    g.costs == ValuesAt(f, k, Cost) && g.latencies == ValuesAt(f, k, Latency)
  }

  /** One group for every key that occurs, with the values of that key. */
  ghost predicate Grouped(groups: map<Key, Group>, f: seq<Observation>)
    reads groups.Values
  {
    && (forall k, k' :: k in groups && k' in groups && k != k' ==> groups[k] != groups[k'])
    && (forall k :: k in groups <==> Occurs(f, k))
    && (forall k :: k in groups ==> HasValues(groups[k], f, k))
  }

  lemma {:induction false} ValuesAbsent(f: seq<Observation>, k: Key)
    requires !Occurs(f, k)
    ensures ValuesAt(f, k, Cost) == ValuesAt(f, k, Latency) == []
  {
    hide Occurs;
    if f != [] {
      var g := f[..|f| - 1];
      assert g + [f[|f| - 1]] == f;
      OccursNext(g, f[|f| - 1], k);
      ValuesAbsent(g, k);
    }
  }

  lemma ValuesNext(f: seq<Observation>, o: Observation, k: Key, m: Metric)
    ensures ValuesAt(f + [o], k, m) == ValuesAt(f, k, m) + if o.key == k then [ValueOf(o, m)] else []
  {
    assert (f + [o])[..|f|] == f;
  }

  lemma NothingYet()
    ensures forall k :: !Occurs([], k)
  {
  }

  lemma OccursNext(f: seq<Observation>, o: Observation, k: Key)
    ensures Occurs(f + [o], k) <==> o.key == k || Occurs(f, k)
  {
    assert (f + [o])[|f|] == o;
    if i :| 0 <= i < |f| && f[i].key == k {
      assert (f + [o])[i].key == k;
    }
  }

  method GroupByKey(f: seq<Observation>) returns (groups: map<Key, Group>)
    ensures Grouped(groups, f)
  {
    hide ValuesAt, Occurs;
    groups := map[];
    NothingYet();
    for i := 0 to |f|
      invariant forall k :: k in groups ==> fresh(groups[k])
      invariant Grouped(groups, f[..i])
    {
      ghost var past := f[..i];
      var k := f[i].key;
      if k !in groups {
        var g := new Group();
        ValuesAbsent(past, k);
        groups := groups[k := g];
      }
      groups[k].Add(f[i]);
      assert f[..i + 1] == past + [f[i]];
      forall k' | k' in groups ensures HasValues(groups[k'], f[..i + 1], k') {
        ValuesNext(past, f[i], k', Cost);
        ValuesNext(past, f[i], k', Latency);
      }
      forall k' ensures k' in groups <==> Occurs(f[..i + 1], k') {
        OccursNext(past, f[i], k');
      }
    }
    assert f[..|f|] == f;
  }

  /** Everything one group contributes. */
  method GroupStats(g: Group, ghost f: seq<Observation>, ghost k: Key) returns (s: Stats)
    requires HasValues(g, f, k) && Occurs(f, k)
    ensures AreStats(f, {k}, s)
    ensures Holds(g.costs, f, {k}, Cost) && Holds(g.latencies, f, {k}, Latency)
  {
    ghost var i :| 0 <= i < |f| && f[i].key == k;
    SizeOfSome(f, {k}, i);
    ValuesHold(f, k, Cost);
    ValuesHold(f, k, Latency);
    s := StatsOf(g.costs, g.latencies, f, {k});
  }

  method Entries(groups: map<Key, Group>, ghost f: seq<Observation>)
    returns (entries: map<Key, Stats>, allCosts: seq<real>, allLatencies: seq<real>)
    requires Grouped(groups, f)
    ensures entries.Keys == groups.Keys && forall k :: k in entries ==> AreStats(f, {k}, entries[k])
    ensures Holds(allCosts, f, entries.Keys, Cost) && Holds(allLatencies, f, entries.Keys, Latency)
  {
    hide AreStats, Holds, HasValues, Occurs;
    entries, allCosts, allLatencies := map[], [], [];
    HoldsNone(f, Cost);
    HoldsNone(f, Latency);
    var left := groups.Keys;
    assert entries.Keys == {};
    while left != {}
      invariant left <= groups.Keys && entries.Keys == groups.Keys - left
      invariant forall k :: k in entries ==> AreStats(f, {k}, entries[k])
      invariant Holds(allCosts, f, entries.Keys, Cost) && Holds(allLatencies, f, entries.Keys, Latency)
      decreases |left|
    {
      var k :| k in left;
      var g := groups[k];
      var s := GroupStats(g, f, k);
      HoldsJoined(allCosts, g.costs, f, entries.Keys, k, Cost);
      HoldsJoined(allLatencies, g.latencies, f, entries.Keys, k, Latency);
      allCosts, allLatencies := allCosts + g.costs, allLatencies + g.latencies;
      assert entries[k := s].Keys == entries.Keys + {k};
      entries := entries[k := s];
      left := left - {k};
    }
  }

  method CountRates(f: seq<Observation>) returns (r: Rates)
    requires f != []
    ensures AreRates(f, r)
  {
    var completed, verifyPassed, errored := 0, 0, 0;
    for i := 0 to |f|
      invariant completed == Marks(f[..i], Completed)
      invariant verifyPassed == Marks(f[..i], Verified)
      invariant errored == Marks(f[..i], Errored)
    {
      assert f[..i + 1][..i] == f[..i];
      var o := f[i];
      if o.status.StatusIdle? {
        completed := completed + 1;
      }
      if o.verifyPassed || (!o.status.StatusFailed? && !o.hasError) {
        verifyPassed := verifyPassed + 1;
      }
      if o.hasError {
        errored := errored + 1;
      }
    }
    assert f[..|f|] == f;
    r := Rates(completed as real / |f| as real, verifyPassed as real / |f| as real, errored as real / |f| as real);
  }

  method BuildBaseline(obs: seq<Observation>, now: int, hours: real)
    returns (entries: map<Key, Stats>, aggregate: Option<Stats>, rates: Option<Rates>)
    ensures IsBaseline(Window(obs, now, hours), entries, aggregate)
    ensures forall k :: k in entries ==> AreObserved(Window(obs, now, hours), {k}, entries[k])
    ensures rates.None? <==> aggregate.None?
    ensures rates.Some? ==> AreRates(Window(obs, now, hours), rates.value)
  {
    var f := Filter(obs, now, hours);
    if f == [] {
      return map[], None, None;
    }
    var groups := GroupByKey(f);
    var allCosts, allLatencies;
    entries, allCosts, allLatencies := Entries(groups, f);
    assert Occurs(f, f[0].key);
    SizeOfSome(f, entries.Keys, 0);
    var s := StatsOf(allCosts, allLatencies, f, entries.Keys);
    var r := CountRates(f);
    forall k | k in entries ensures AreObserved(f, {k}, entries[k]) {
      StatsObserved(f, {k}, entries[k]);
    }
    return entries, Some(s), Some(r);
  }
}
