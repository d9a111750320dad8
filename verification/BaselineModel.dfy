// Nearest-rank percentiles of internal/e2e/baseline.go, characterised by counting, and what grouping
// the samples does to them.
module BaselineModel {
  import opened Common

  type Key = nat

  datatype Observation = Observation(key: Key, mode: string, time: int, cost: real, latency: real,
                                     status: Status, verifyPassed: bool, hasError: bool)

  datatype Status = StatusIdle | StatusFailed | OtherStatus

  datatype Metric = Cost | Latency

  function ValueOf(o: Observation, m: Metric): real { if m.Cost? then o.cost else o.latency }

  // ---------------------------------------------------------------- percentiles of sorted lists

  /** The 1-based position of the `p`-th percentile among `n` values. */
  function RankOf(n: nat, p: nat): nat { (p * n + 99) / 100 }

  function PercentileF(sorted: seq<real>, p: nat): real {
    if sorted == [] then 0.0
    else
      var idx := Max(RankOf(|sorted|, p) - 1, 0);
      sorted[if idx >= |sorted| then |sorted| - 1 else idx]
  }

  function Lower(s: seq<real>, v: real): nat {
    if s == [] then 0 else Lower(s[..|s| - 1], v) + if s[|s| - 1] < v then 1 else 0
  }

  function NotHigher(s: seq<real>, v: real): nat {
    if s == [] then 0 else NotHigher(s[..|s| - 1], v) + if s[|s| - 1] <= v then 1 else 0
  }

  ghost predicate Ascending(s: seq<real>) { forall i, j :: 0 <= i < j < |s| ==> s[i] <= s[j] }

  lemma {:induction false} CountsInOrder(s: seq<real>, i: nat)
    requires Ascending(s) && i < |s|
    ensures Lower(s, s[i]) <= i < NotHigher(s, s[i])
    decreases |s|
  {
    var t := s[..|s| - 1];
    if i < |t| {
      CountsInOrder(t, i);
    } else {
      CountsBounded(t, s[i]);
    }
  }

  lemma {:induction false} CountsBounded(s: seq<real>, v: real)
    ensures Lower(s, v) <= NotHigher(s, v) <= |s|
    ensures (forall i :: 0 <= i < |s| ==> s[i] <= v) ==> NotHigher(s, v) == |s|
  {
    if s != [] {
      CountsBounded(s[..|s| - 1], v);
    }
  }

  lemma {:induction false} CountsAdd(s: seq<real>, t: seq<real>, v: real)
    ensures Lower(s + t, v) == Lower(s, v) + Lower(t, v)
    ensures NotHigher(s + t, v) == NotHigher(s, v) + NotHigher(t, v)
  {
    if t == [] {
      assert s + t == s;
    } else {
      var u := t[..|t| - 1];
      CountsAdd(s, u, v);
      assert (s + t)[..|s + t| - 1] == s + u;
    }
  }

  lemma CountsWithout(a: seq<real>, x: real, b: seq<real>, v: real)
    ensures Lower(a + [x] + b, v) == Lower(a + b, v) + if x < v then 1 else 0
    ensures NotHigher(a + [x] + b, v) == NotHigher(a + b, v) + if x <= v then 1 else 0
  {
    CountsAdd(a, b, v);
    CountsAdd(a + [x], b, v);
    assert (a + [x])[..|a|] == a;
  }

  /** Drops from `t` the last element of a permutation `s`. */
  lemma Unlast(s: seq<real>, t: seq<real>) returns (a: seq<real>, b: seq<real>)
    requires s != [] && multiset(s) == multiset(t)
    ensures t == a + [s[|s| - 1]] + b && multiset(s[..|s| - 1]) == multiset(a + b)
  {
    var n, x := |s| - 1, s[|s| - 1];
    assert s == s[..n] + [x];
    assert x in multiset(t);
    var i :| 0 <= i < |t| && t[i] == x;
    a, b := t[..i], t[i + 1..];
    assert t == a + [x] + b;
    assert multiset(t) == multiset(a + b) + multiset{x};
    assert multiset(a + b) == multiset(t) - multiset{x};
  }

  /** Counts do not depend on the order. */
  lemma {:induction false} CountsPermute(s: seq<real>, t: seq<real>, v: real)
    requires multiset(s) == multiset(t)
    ensures Lower(s, v) == Lower(t, v) && NotHigher(s, v) == NotHigher(t, v)
    decreases |s|
  {
    if s == [] {
      assert |multiset(t)| == 0;
    } else {
      var a, b := Unlast(s, t);
      CountsPermute(s[..|s| - 1], a + b, v);
      CountsWithout(a, s[|s| - 1], b, v);
    }
  }

  // ---------------------------------------------------------------- counting observations by key

  /** How many observations have a key in `ks`. */
  ghost function Size(f: seq<Observation>, ks: set<Key>): nat {
    if f == [] then 0 else Size(f[..|f| - 1], ks) + if f[|f| - 1].key in ks then 1 else 0
  }

  ghost function Below(f: seq<Observation>, ks: set<Key>, m: Metric, v: real): nat {
    if f == [] then 0
    else Below(f[..|f| - 1], ks, m, v) + if f[|f| - 1].key in ks && ValueOf(f[|f| - 1], m) < v then 1 else 0
  }

  ghost function AtMost(f: seq<Observation>, ks: set<Key>, m: Metric, v: real): nat {
    if f == [] then 0
    else AtMost(f[..|f| - 1], ks, m, v) + if f[|f| - 1].key in ks && ValueOf(f[|f| - 1], m) <= v then 1 else 0
  }

  lemma {:induction false} KeysAdd(f: seq<Observation>, ks: set<Key>, k: Key, m: Metric, v: real)
    requires k !in ks
    ensures Size(f, ks + {k}) == Size(f, ks) + Size(f, {k})
    ensures Below(f, ks + {k}, m, v) == Below(f, ks, m, v) + Below(f, {k}, m, v)
    ensures AtMost(f, ks + {k}, m, v) == AtMost(f, ks, m, v) + AtMost(f, {k}, m, v)
  {
    if f != [] {
      KeysAdd(f[..|f| - 1], ks, k, m, v);
    }
  }

  lemma {:induction false} CountOrder(f: seq<Observation>, ks: set<Key>, m: Metric, v: real, w: real)
    ensures v < w ==> AtMost(f, ks, m, v) <= Below(f, ks, m, w)
    ensures v <= w ==> Below(f, ks, m, v) <= Below(f, ks, m, w) && AtMost(f, ks, m, v) <= AtMost(f, ks, m, w)
  {
    if f != [] {
      CountOrder(f[..|f| - 1], ks, m, v, w);
    }
  }

  lemma {:induction false} SizeOfAll(f: seq<Observation>, ks: set<Key>)
    requires forall i :: 0 <= i < |f| ==> f[i].key in ks
    ensures Size(f, ks) == |f|
  {
    if f != [] {
      SizeOfAll(f[..|f| - 1], ks);
    }
  }

  lemma {:induction false} SizeOfSome(f: seq<Observation>, ks: set<Key>, i: nat)
    requires i < |f| && f[i].key in ks
    ensures Size(f, ks) > 0
  {
    if i < |f| - 1 {
      SizeOfSome(f[..|f| - 1], ks, i);
    }
  }

  // ---------------------------------------------------------------- percentiles of groups

  /** `v` is the nearest-rank percentile: less than `p` per cent of the values are below it, and at least `p` per cent
      are not above it. */
  ghost predicate IsPercentile(f: seq<Observation>, ks: set<Key>, m: Metric, p: nat, v: real) {
    100 * Below(f, ks, m, v) < p * Size(f, ks) <= 100 * AtMost(f, ks, m, v)
  }

  /** Counting determines the percentile. */
  lemma PercentileUnique(f: seq<Observation>, ks: set<Key>, m: Metric, p: nat, v: real, w: real)
    requires IsPercentile(f, ks, m, p, v) && IsPercentile(f, ks, m, p, w)
    ensures v == w
  {
    CountOrder(f, ks, m, v, w);
    CountOrder(f, ks, m, w, v);
  }

  /** A value no higher than every group's percentile has less than `p` per cent of the union below it. */
  lemma {:induction false} LowSide(f: seq<Observation>, ks: set<Key>, m: Metric, p: nat, lo: real)
    requires ks != {} && forall k :: k in ks ==> 100 * Below(f, {k}, m, lo) < p * Size(f, {k})
    ensures 100 * Below(f, ks, m, lo) < p * Size(f, ks)
    decreases ks
  {
    var k :| k in ks;
    assert 100 * Below(f, {k}, m, lo) < p * Size(f, {k});
    if ks != {k} {
      var rest := ks - {k};
      assert rest + {k} == ks;
      assert rest == {} ==> ks == {k};
      LowSide(f, rest, m, p, lo);
      KeysAdd(f, rest, k, m, lo);
      assert p * (Size(f, rest) + Size(f, {k})) == p * Size(f, rest) + p * Size(f, {k});
    }
  }

  /** A value no lower than every group's percentile has at least `p` per cent of the union not above it. */
  lemma {:induction false} HighSide(f: seq<Observation>, ks: set<Key>, m: Metric, p: nat, hi: real)
    requires ks != {} && forall k :: k in ks ==> p * Size(f, {k}) <= 100 * AtMost(f, {k}, m, hi)
    ensures p * Size(f, ks) <= 100 * AtMost(f, ks, m, hi)
    decreases ks
  {
    var k :| k in ks;
    assert p * Size(f, {k}) <= 100 * AtMost(f, {k}, m, hi);
    if ks != {k} {
      var rest := ks - {k};
      assert rest + {k} == ks;
      assert rest == {} ==> ks == {k};
      HighSide(f, rest, m, p, hi);
      KeysAdd(f, rest, k, m, hi);
      assert p * (Size(f, rest) + Size(f, {k})) == p * Size(f, rest) + p * Size(f, {k});
    }
  }

  /** The percentile of the union lies between any bounds that all groups' percentiles obey. */
  lemma UnionWithin(f: seq<Observation>, ks: set<Key>, m: Metric, p: nat, v: real, q: map<Key, real>, lo: real,
                    hi: real)
    requires ks != {} && ks <= q.Keys && IsPercentile(f, ks, m, p, v)
    requires forall k :: k in ks ==> IsPercentile(f, {k}, m, p, q[k]) && lo <= q[k] <= hi
    ensures lo <= v <= hi
  {
    forall k | k in ks
      ensures 100 * Below(f, {k}, m, lo) < p * Size(f, {k}) <= 100 * AtMost(f, {k}, m, hi)
    {
      CountOrder(f, {k}, m, lo, q[k]);
      CountOrder(f, {k}, m, q[k], hi);
    }
    LowSide(f, ks, m, p, lo);
    HighSide(f, ks, m, p, hi);
    CountOrder(f, ks, m, v, lo);
    CountOrder(f, ks, m, hi, v);
  }

  lemma {:induction false} Extremes(ks: set<Key>, q: map<Key, real>) returns (least: Key, most: Key)
    requires ks != {} && ks <= q.Keys
    ensures least in ks && most in ks && forall k :: k in ks ==> q[least] <= q[k] <= q[most]
    decreases ks
  {
    var k :| k in ks;
    least, most := k, k;
    var rest := ks - {k};
    assert forall x :: x in ks ==> x == k || x in rest;
    if rest != {} {
      var a, b := Extremes(rest, q);
      least := if q[a] < q[k] then a else k;
      most := if q[b] > q[k] then b else k;
    }
  }

  /** Some group is no higher than the union and some group no lower. */
  lemma UnionBetween(f: seq<Observation>, ks: set<Key>, m: Metric, p: nat, v: real, q: map<Key, real>)
    returns (a: Key, b: Key)
    requires ks != {} && ks <= q.Keys && IsPercentile(f, ks, m, p, v)
    requires forall k :: k in ks ==> IsPercentile(f, {k}, m, p, q[k])
    ensures a in ks && b in ks && q[a] <= v <= q[b]
  {
    a, b := Extremes(ks, q);
    UnionWithin(f, ks, m, p, v, q, q[a], q[b]);
  }

  lemma PercentilesOrdered(f: seq<Observation>, ks: set<Key>, m: Metric, p: nat, p': nat, v: real, v': real)
    requires p <= p' && IsPercentile(f, ks, m, p, v) && IsPercentile(f, ks, m, p', v')
    ensures v <= v'
  {
    CountOrder(f, ks, m, v', v);
    hide Below, AtMost, Size;
    ShareGrows(p, p', Size(f, ks));
  }

  lemma ShareGrows(p: nat, p': nat, n: nat)
    requires p <= p'
    ensures p * n <= p' * n
  {
  }

  // ---------------------------------------------------------------- baselines

  datatype Stats = Stats(costP50: real, costP95: real, latencyP50: real, latencyP95: real, samples: nat)

  function Part(s: Stats, m: Metric, p: nat): real {
    if m.Cost? then if p == 50 then s.costP50 else s.costP95 else if p == 50 then s.latencyP50 else s.latencyP95
  }

  ghost predicate AreStats(f: seq<Observation>, ks: set<Key>, s: Stats) {
    && s.samples == Size(f, ks)
    && IsPercentile(f, ks, Cost, 50, s.costP50) && IsPercentile(f, ks, Cost, 95, s.costP95)
    && IsPercentile(f, ks, Latency, 50, s.latencyP50) && IsPercentile(f, ks, Latency, 95, s.latencyP95)
  }

  /** Some observation with a key in `ks` has this cost, and some has this latency. */
  predicate Costs(f: seq<Observation>, ks: set<Key>, v: real) {
    exists i :: 0 <= i < |f| && f[i].key in ks && f[i].cost == v
  }

  predicate Lasts(f: seq<Observation>, ks: set<Key>, v: real) {
    exists i :: 0 <= i < |f| && f[i].key in ks && f[i].latency == v
  }

  /** Every percentile is an observed value. */
  ghost predicate AreObserved(f: seq<Observation>, ks: set<Key>, s: Stats) {
    Costs(f, ks, s.costP50) && Costs(f, ks, s.costP95) && Lasts(f, ks, s.latencyP50) && Lasts(f, ks, s.latencyP95)
  }

  lemma {:induction false} CountObserved(f: seq<Observation>, ks: set<Key>, m: Metric, v: real) returns (i: nat)
    requires Below(f, ks, m, v) < AtMost(f, ks, m, v)
    ensures i < |f| && f[i].key in ks && v == if m.Cost? then f[i].cost else f[i].latency
  {
    var n := |f| - 1;
    if f[n].key in ks && ValueOf(f[n], m) == v {
      i := n;
    } else {
      i := CountObserved(f[..n], ks, m, v);
    }
  }

  lemma StatsObserved(f: seq<Observation>, ks: set<Key>, s: Stats)
    requires AreStats(f, ks, s)
    ensures AreObserved(f, ks, s)
  {
    var a := CountObserved(f, ks, Cost, s.costP50);
    var b := CountObserved(f, ks, Cost, s.costP95);
    var c := CountObserved(f, ks, Latency, s.latencyP50);
    var d := CountObserved(f, ks, Latency, s.latencyP95);
  }

  predicate Occurs(f: seq<Observation>, k: Key) { exists i :: 0 <= i < |f| && f[i].key == k }

  ghost predicate IsBaseline(f: seq<Observation>, entries: map<Key, Stats>, aggregate: Option<Stats>) {
    && (forall k :: k in entries <==> Occurs(f, k))
    && (forall k :: k in entries ==> AreStats(f, {k}, entries[k]))
    && (aggregate.None? <==> f == [])
    && (aggregate.Some? ==> AreStats(f, entries.Keys, aggregate.value))
  }

  function SampleSum(entries: map<Key, Stats>, ks: seq<Key>): nat
    requires forall i :: 0 <= i < |ks| ==> ks[i] in entries
  {
    if ks == [] then 0 else SampleSum(entries, ks[..|ks| - 1]) + entries[ks[|ks| - 1]].samples
  }

  ghost function Elems(ks: seq<Key>): set<Key> { set k | k in ks }

  lemma {:induction false} SamplesOf(f: seq<Observation>, entries: map<Key, Stats>, ks: seq<Key>)
    requires NoDup(ks) && forall i :: 0 <= i < |ks| ==> ks[i] in entries && AreStats(f, {ks[i]}, entries[ks[i]])
    ensures SampleSum(entries, ks) == Size(f, Elems(ks))
  {
    if ks == [] {
      SizeOfNone(f);
      assert Elems(ks) == {};
    } else {
      var rest, k := ks[..|ks| - 1], ks[|ks| - 1];
      SamplesOf(f, entries, rest);
      assert k !in rest;
      assert Elems(ks) == Elems(rest) + {k} by {
        assert ks == rest + [k];
      }
      KeysAdd(f, Elems(rest), k, Cost, 0.0);
      assert AreStats(f, {k}, entries[k]);
    }
  }

  lemma {:induction false} SizeOfNone(f: seq<Observation>)
    ensures Size(f, {}) == 0
  {
    if f != [] {
      SizeOfNone(f[..|f| - 1]);
    }
  }

  /** Every percentile of the aggregate lies between two groups' ones, P50 is at most P95 everywhere,
      and the sample counts of the groups add up to the number of observations kept. */
  lemma BaselineBounds(f: seq<Observation>, entries: map<Key, Stats>, aggregate: Option<Stats>, m: Metric, p: nat,
                       ks: seq<Key>)
    requires IsBaseline(f, entries, aggregate) && aggregate.Some? && (p == 50 || p == 95)
    requires NoDup(ks) && forall k :: k in ks <==> k in entries
    ensures exists a, b :: a in entries && b in entries &&
              Part(entries[a], m, p) <= Part(aggregate.value, m, p) <= Part(entries[b], m, p)
    ensures Part(aggregate.value, m, 50) <= Part(aggregate.value, m, 95)
    ensures forall k :: k in entries ==> Part(entries[k], m, 50) <= Part(entries[k], m, 95)
    ensures SampleSum(entries, ks) == aggregate.value.samples == |f|
  {
    hide IsPercentile;
    var q := map k | k in entries :: Part(entries[k], m, p);
    assert Occurs(f, f[0].key);
    forall k | k in entries.Keys ensures IsPercentile(f, {k}, m, p, q[k]) {
      assert AreStats(f, {k}, entries[k]);
    }
    var a, b := UnionBetween(f, entries.Keys, m, p, Part(aggregate.value, m, p), q);
    PercentilesOrdered(f, entries.Keys, m, 50, 95, Part(aggregate.value, m, 50), Part(aggregate.value, m, 95));
    forall k | k in entries ensures Part(entries[k], m, 50) <= Part(entries[k], m, 95) {
      assert AreStats(f, {k}, entries[k]);
      PercentilesOrdered(f, {k}, m, 50, 95, Part(entries[k], m, 50), Part(entries[k], m, 95));
    }
    SamplesOf(f, entries, ks);
    assert Elems(ks) == entries.Keys;
    forall i | 0 <= i < |f| ensures f[i].key in entries.Keys {
      assert Occurs(f, f[i].key);
    }
    SizeOfAll(f, entries.Keys);
  }

  // ---------------------------------------------------------------- the time window

  const HOUR := 3_600_000_000_000

  function Truncate(x: real): int { if x < 0.0 then -((-x).Floor) else x.Floor }

  /** The cutoff is computed from whole hours. */
  predicate InWindow(time: int, now: int, hours: real) {
    time > now - Truncate(hours) * HOUR || hours <= 0.0
  }

  predicate Eligible(mode: string) { mode == "" || mode == "live" || mode == "mock" }

  predicate Kept(o: Observation, now: int, hours: real) { Eligible(o.mode) && InWindow(o.time, now, hours) }

  /** The window is the requested one exactly for whole numbers of hours, or for no window at all. */
  lemma WindowExactly(now: int, hours: real)
    ensures (forall t: int ::
               InWindow(t, now, hours) <==> hours <= 0.0 || t as real > now as real - hours * 3600000000000.0)
       <==> hours <= 0.0 || hours == hours.Floor as real
  {
    if hours > 0.0 {
      var whole := Truncate(hours);
      if hours == whole as real {
        assert hours * HOUR as real == (whole * HOUR) as real;
      } else {
        var t := now - whole * HOUR;
        assert t as real == now as real - whole as real * HOUR as real;
        assert !InWindow(t, now, hours);
      }
    }
  }

  // ---------------------------------------------------------------- rates

  datatype Mark = Completed | Verified | Errored

  datatype Rates = Rates(completion: real, verifyPass: real, error: real)

  /** Verified means verified outright, or neither failed nor in error. */
  predicate Has(o: Observation, m: Mark) {
    match m
    case Completed => o.status.StatusIdle?
    case Verified => o.verifyPassed || (!o.status.StatusFailed? && !o.hasError)
    case Errored => o.hasError
  }

  function Marks(f: seq<Observation>, m: Mark): nat {
    if f == [] then 0 else Marks(f[..|f| - 1], m) + if Has(f[|f| - 1], m) then 1 else 0
  }

  function RateOf(r: Rates, m: Mark): real {
    match m case Completed => r.completion case Verified => r.verifyPass case Errored => r.error
  }

  ghost predicate AreRates(f: seq<Observation>, r: Rates) {
    f != [] && forall m :: RateOf(r, m) == Marks(f, m) as real / |f| as real
  }

  function Unverified(f: seq<Observation>): nat {
    if f == [] then 0
    else
      var o := f[|f| - 1];
      Unverified(f[..|f| - 1]) + if !o.verifyPassed && (o.status.StatusFailed? || o.hasError) then 1 else 0
  }

  lemma {:induction false} MarksBounded(f: seq<Observation>, m: Mark)
    ensures Marks(f, m) <= |f| && Marks(f, Verified) + Unverified(f) == |f|
  {
    if f != [] {
      MarksBounded(f[..|f| - 1], m);
    }
  }

  /** All rates are between zero and one, and the verified one misses exactly the observations that were not verified
      and failed or had an error. */
  lemma RatesWithin(f: seq<Observation>, r: Rates, m: Mark)
    requires AreRates(f, r)
    ensures 0.0 <= RateOf(r, m) <= 1.0
    ensures r.verifyPass == 1.0 <==> Unverified(f) == 0
  {
    MarksBounded(f, m);
    MarksBounded(f, Verified);
    PartOfWhole(Marks(f, m), |f|);
    PartOfWhole(Marks(f, Verified), |f|);
    assert RateOf(r, Verified) == Marks(f, Verified) as real / |f| as real;
  }

  /** A rate is one exactly when all observations count for it, and zero exactly when none does: those that ended idle,
      those verified or neither failed nor in error, and those in error. */
  lemma RatesExactly(f: seq<Observation>, r: Rates)
    requires AreRates(f, r)
    ensures r.completion == 1.0 <==> forall i :: 0 <= i < |f| ==> f[i].status == StatusIdle
    ensures r.completion == 0.0 <==> forall i :: 0 <= i < |f| ==> f[i].status != StatusIdle
    ensures r.verifyPass == 1.0 <==> forall i :: 0 <= i < |f| && (f[i].status == StatusFailed || f[i].hasError) ==>
                                       f[i].verifyPassed
    ensures r.verifyPass == 0.0 <==> forall i :: 0 <= i < |f| ==>
                                       !f[i].verifyPassed && (f[i].status == StatusFailed || f[i].hasError)
    ensures r.error == 1.0 <==> forall i :: 0 <= i < |f| ==> f[i].hasError
    ensures r.error == 0.0 <==> forall i :: 0 <= i < |f| ==> !f[i].hasError
  {
    forall m: Mark
      ensures RateOf(r, m) == 1.0 <==> forall i :: 0 <= i < |f| ==> Has(f[i], m)
      ensures RateOf(r, m) == 0.0 <==> forall i :: 0 <= i < |f| ==> !Has(f[i], m)
    {
      MarksExtreme(f, m);
      PartOfWhole(Marks(f, m), |f|);
      assert RateOf(r, m) == Marks(f, m) as real / |f| as real;
    }
    assert RateOf(r, Completed) == r.completion && RateOf(r, Verified) == r.verifyPass && RateOf(r, Errored) == r.error;
  }

  lemma {:induction false} MarksExtreme(f: seq<Observation>, m: Mark)
    ensures Marks(f, m) <= |f|
    ensures Marks(f, m) == |f| <==> forall i :: 0 <= i < |f| ==> Has(f[i], m)
    ensures Marks(f, m) == 0 <==> forall i :: 0 <= i < |f| ==> !Has(f[i], m)
  {
    if f != [] {
      var n := |f| - 1;
      MarksExtreme(f[..n], m);
      assert (forall i :: 0 <= i < |f| ==> Has(f[i], m)) <==>
             (forall i :: 0 <= i < n ==> Has(f[..n][i], m)) && Has(f[n], m);
      assert (forall i :: 0 <= i < |f| ==> !Has(f[i], m)) <==>
             (forall i :: 0 <= i < n ==> !Has(f[..n][i], m)) && !Has(f[n], m);
    }
  }

  lemma PartOfWhole(k: nat, n: nat)
    requires k <= n && n > 0
    ensures 0.0 <= k as real / n as real <= 1.0 && (k as real / n as real == 1.0 <==> k == n)
    ensures k as real / n as real == 0.0 <==> k == 0
  {
    Quotient(k as real, n as real, k as real / n as real);
  }

  lemma Quotient(k: real, n: real, q: real)
    requires 0.0 <= k <= n && n > 0.0 && q == k / n
    ensures 0.0 <= q <= 1.0 && (q == 1.0 <==> k == n) && (q == 0.0 <==> k == 0.0)
  {
    assert q * n == k;
    assert (1.0 - q) * n == n - k;
  }
}
