// DetectChangepoints of internal/eval/changepoint.go, loop by loop, against the CUSUM model.
module Cusum {
  import opened Common
  import opened CusumModel
  import opened Reals
  import opened Sorting

  const MIN_OBSERVATIONS := 10
  const MAX_CHANGEPOINTS := 5

  datatype Changepoint = Changepoint(
    index: nat, time: int, metric: string, before: real, after: real, significance: real, rising: bool)

  /** One run of the loop: when it was observed, and a handle on what was. */
  datatype Observation = Observation(time: int, facts: nat)

  datatype Measured = Measured(values: seq<real>, times: seq<int>, metric: string)

  /** The values of one metric with their times. */
  type Series = d: Measured | |d.values| == |d.times| witness Measured([], [], "")

  function SeriesOf(obs: seq<Observation>, metric: Observation -> real, name: string): Series {
    Measured(seq(|obs|, i requires 0 <= i < |obs| => metric(obs[i])),
             seq(|obs|, i requires 0 <= i < |obs| => obs[i].time), name)
  }

  // ---------------------------------------------------------------- specification

  /** The first point to exceed the threshold on account of its restart. */
  predicate FirstAt(z: seq<real>, i: int) {
    Exceeds(z, i) && forall k :: 0 <= k < i && Exceeds(z, k) ==> Place(z, k) != Place(z, i)
  }

  function Detections(z: seq<real>, n: nat): (d: seq<nat>)
    requires n <= |z|
    ensures forall k :: 0 <= k < |d| ==> d[k] < n && FirstAt(z, d[k])
    ensures forall k, l :: 0 <= k < l < |d| ==> d[k] < d[l]
  {
    if n == 0 then [] else Detections(z, n - 1) + if FirstAt(z, n - 1) then [n - 1] else []
  }

  predicate IsChange(data: Series, z: seq<real>, peak: real, i: nat, c: Changepoint)
    requires |data.values| == |z| && i < |z| && peak > 0.0
  {
    && c.index == Place(z, i) && c.time == data.times[c.index] && c.metric == data.metric
    && c.significance == Magnitude(z, i) / peak
    && c.before == (if c.index == 0 then data.values[0] else Mean(data.values[..c.index]))
    && c.after == Mean(data.values[c.index..])
    && c.rising == (c.before <= c.after)
  }

  ghost predicate AreChanges(data: Series, z: seq<real>, peak: real, n: nat, l: seq<Changepoint>)
    requires |data.values| == |z| && n <= |z| && peak > 0.0
  {
    && |l| == |Detections(z, n)|
    && forall k :: 0 <= k < |l| ==> IsChange(data, z, peak, Detections(z, n)[k], l[k])
  }

  /** The largest magnitude of either sum. */
  ghost predicate IsPeak(z: seq<real>, peak: real) {
    && (forall i :: 0 <= i < |z| ==> Pos(z, i) <= peak && -Neg(z, i) <= peak)
    && (peak == 0.0 || exists i :: 0 <= i < |z| && Reaches(z, i, peak))
  }

  predicate Reaches(z: seq<real>, i: nat, peak: real)
    requires i < |z|
  {
    peak == Pos(z, i) || peak == -Neg(z, i)
  }

  predicate Higher(x: Changepoint, y: Changepoint) { x.significance > y.significance }

  /** Every restart that is ever charged with an exceedance is detected, once. */
  lemma {:induction false} DetectedOnce(z: seq<real>, n: nat, i: nat) returns (k: nat)
    requires i < n <= |z| && Exceeds(z, i)
    ensures k < |Detections(z, n)| && Place(z, Detections(z, n)[k]) == Place(z, i)
  {
    if FirstAt(z, i) {
      k := DetectionIndex(z, n, i);
    } else {
      var e :| 0 <= e < i && Exceeds(z, e) && Place(z, e) == Place(z, i);
      k := DetectedOnce(z, n, e);
    }
  }

  lemma {:induction false} DetectionIndex(z: seq<real>, n: nat, i: nat) returns (k: nat)
    requires i < n <= |z| && FirstAt(z, i)
    ensures k < |Detections(z, n)| && Detections(z, n)[k] == i
    decreases n
  {
    if i == n - 1 {
      k := |Detections(z, n - 1)|;
    } else {
      k := DetectionIndex(z, n - 1, i);
    }
  }

  lemma IndicesDiffer(data: Series, z: seq<real>, peak: real, l: seq<Changepoint>, a: nat, b: nat)
    requires |data.values| == |z| && peak > 0.0 && AreChanges(data, z, peak, |z|, l) && a < b < |l|
    ensures l[a].index != l[b].index
  {
    var d := Detections(z, |z|);
    assert FirstAt(z, d[b]) && FirstAt(z, d[a]) && d[a] < d[b];
  }

  lemma SignificanceInRange(data: Series, z: seq<real>, peak: real, i: nat, c: Changepoint)
    requires |data.values| == |z| && i < |z| && peak > 0.0 && IsPeak(z, peak)
    requires Exceeds(z, i) && IsChange(data, z, peak, i, c)
    ensures 0.0 < c.significance <= 1.0
  {
    Ratio(Magnitude(z, i), peak);
  }

  lemma Ratio(m: real, peak: real)
    requires 0.0 < m <= peak
    ensures 0.0 < m / peak <= 1.0
  {
    var q := m / peak;
    assert q * peak == m;
    assert (1.0 - q) * peak >= 0.0;
  }

  lemma SortedDiffer(data: Series, z: seq<real>, peak: real, l: seq<Changepoint>, s: seq<Changepoint>, a: nat, b: nat)
    requires |data.values| == |z| && peak > 0.0 && AreChanges(data, z, peak, |z|, l)
    requires multiset(s) == multiset(l) && a < b < |s|
    ensures s[a].index != s[b].index
  {
    hide AreChanges;
    forall x, y | 0 <= x < y < |l| ensures l[x] != l[y] {
      IndicesDiffer(data, z, peak, l, x, y);
    }
    NoDupPermuted(l, s);
    assert s[a] != s[b];
    assert s[a] in multiset(s) && s[b] in multiset(s);
    var i :| 0 <= i < |l| && l[i] == s[a];
    var j :| 0 <= j < |l| && l[j] == s[b];
    IndicesDiffer(data, z, peak, l, Min(i, j), Max(i, j));
  }

  /** `c` is where the side that is larger at point `i` began the rise that reached the threshold there, and as
      significant as that. */
  ghost predicate Drifts(z: seq<real>, peak: real, c: Changepoint, i: nat) {
    var n := Negated(z);
    c.index <= i < |z| &&
    var w := if Pos(n, i) > Pos(z, i) then n else z;
    RisesFrom(w, c.index, i) && Times(c.significance, peak) == Pos(w, i)
  }

  lemma ChangeDrifts(data: Series, z: seq<real>, peak: real, i: nat, c: Changepoint)
    requires |data.values| == |z| && i < |z| && peak > 0.0 && Exceeds(z, i) && IsChange(data, z, peak, i, c)
    ensures Drifts(z, peak, c, i)
  {
    PlaceExplains(z, i);
    hide Pos, PosReset, NegReset, RisesFrom, Magnitude, Exceeds;
    QuotientBack(Magnitude(z, i), peak);
    hide Mean, Times;
  }

  lemma QuotientBack(m: real, peak: real)
    requires peak > 0.0
    ensures Times(m / peak, peak) == m
  {
  }

  /** The two means of a change split the series at its place: weighed with the lengths of the two sides they give the
      sum of the series; a change at the first point keeps that point as the mean before. The change rises exactly when
      the mean before is not above the mean of the whole series, or of the series from the first point on. */
  ghost predicate Shifts(values: seq<real>, c: Changepoint) {
    c.index < |values| &&
    var k, n := c.index as real, |values| as real;
    if c.index == 0 then c.before == values[0] && Times(c.after, n) == Sum(values) && c.rising == (values[0] <= c.after)
    else Times(c.before, k) + Times(c.after, n - k) == Sum(values) && c.rising == (Times(c.before, n) <= Sum(values))
  }

  lemma ChangeShifts(data: Series, z: seq<real>, peak: real, i: nat, c: Changepoint)
    requires |data.values| == |z| && i < |z| && peak > 0.0 && IsChange(data, z, peak, i, c)
    ensures Shifts(data.values, c)
  {
    hide Exceeds, Magnitude;
    var s := data.values;
    SumSplits(s, c.index);
    assert s[0..] == s;
    hide Sum, Place;
    MeanBack(s[c.index..]);
    if c.index > 0 {
      MeanBack(s[..c.index]);
      hide Mean, Times;
      BelowTheWhole(c.before, c.after, c.index as real, |s| as real - c.index as real, Sum(s));
    }
  }

  lemma MeanBack(s: seq<real>)
    requires s != []
    ensures Times(Mean(s), |s| as real) == Sum(s)
  {
  }

  lemma BelowTheWhole(b: real, a: real, k: real, l: real, sum: real)
    requires k > 0.0 && l > 0.0 && Times(b, k) + Times(a, l) == sum
    ensures b <= a <==> Times(b, k + l) <= sum
  {
    assert sum - b * (k + l) == (a - b) * l;
    SignOfProduct(a - b, l, (a - b) * l);
    SignOfProduct(b - a, l, (b - a) * l);
  }

  lemma {:induction false} SumSplits(s: seq<real>, k: nat)
    requires k <= |s|
    ensures Sum(s[..k]) + Sum(s[k..]) == Sum(s)
  {
    if k == |s| {
      assert s[..k] == s;
    } else {
      var n := |s| - 1;
      SumSplits(s[..n], k);
      assert s[..n][..k] == s[..k] && s[k..][..n - k] == s[..n][k..];
    }
  }

  /** What is reported: different places, significances in (0, 1] in descending order, at most five, none left out
      that is more significant, and something exactly when some point exceeds the threshold. */
  ghost predicate IsReport(data: Series, z: seq<real>, peak: real, l: seq<Changepoint>, r: seq<Changepoint>)
    requires |data.values| == |z| && peak > 0.0
  {
    && AreChanges(data, z, peak, |z|, l)
    && |r| == Min(|l|, 5)
    && (forall a, b :: 0 <= a < b < |r| ==> r[a].index != r[b].index && r[a].significance >= r[b].significance)
    && (forall c :: c in r ==> c in l && 0.0 < c.significance <= 1.0 && exists i: nat :: Drifts(z, peak, c, i))
    && (forall c :: c in r ==> Shifts(data.values, c))
    && (forall c, k :: c in l && c !in r && 0 <= k < |r| ==> r[k].significance >= c.significance)
    && (r != [] <==> exists i :: Exceeds(z, i))
  }

  lemma ListedSignificance(data: Series, z: seq<real>, peak: real, l: seq<Changepoint>, c: Changepoint)
    requires |data.values| == |z| && peak > 0.0 && IsPeak(z, peak) && AreChanges(data, z, peak, |z|, l)
    requires c in l
    ensures 0.0 < c.significance <= 1.0 && Shifts(data.values, c) && exists i: nat :: Drifts(z, peak, c, i)
  {
    hide Drifts, Shifts;
    var k :| 0 <= k < |l| && l[k] == c;
    var i := Detections(z, |z|)[k];
    assert FirstAt(z, i);
    SignificanceInRange(data, z, peak, i, c);
    ChangeDrifts(data, z, peak, i, c);
    ChangeShifts(data, z, peak, i, c);
  }

  lemma SomeListed(data: Series, z: seq<real>, peak: real, l: seq<Changepoint>)
    requires |data.values| == |z| && peak > 0.0 && AreChanges(data, z, peak, |z|, l)
    ensures l != [] <==> exists i :: Exceeds(z, i)
  {
    if i :| Exceeds(z, i) {
      var k := DetectedOnce(z, |z|, i);
    }
    if l != [] {
      assert FirstAt(z, Detections(z, |z|)[0]);
    }
  }

  lemma TopFive(data: Series, z: seq<real>, peak: real, l: seq<Changepoint>, s: seq<Changepoint>)
    requires |data.values| == |z| && peak > 0.0 && IsPeak(z, peak)
    requires AreChanges(data, z, peak, |z|, l) && IsSortOf(Higher, s, l) && |s| == |l|
    ensures IsReport(data, z, peak, l, s[..Min(|l|, MAX_CHANGEPOINTS)])
  {
    hide AreChanges, Exceeds, IsPeak, Drifts, Shifts;
    SortMembers(Higher, s, l);
    SomeListed(data, z, peak, l);
    var r := s[..Min(|l|, MAX_CHANGEPOINTS)];
    forall a, b | 0 <= a < b < |r| ensures r[a].index != r[b].index && r[a].significance >= r[b].significance {
      SortedDiffer(data, z, peak, l, s, a, b);
      assert !Higher(s[b], s[a]);
    }
    forall c | c in r
      ensures c in l && 0.0 < c.significance <= 1.0 && Shifts(data.values, c) && exists i: nat :: Drifts(z, peak, c, i)
    {
      assert c in s;
      ListedSignificance(data, z, peak, l, c);
    }
    forall c, k | c in l && 0 <= k < |r| ensures c in r || r[k].significance >= c.significance {
      assert c in s;
      var j :| 0 <= j < |s| && s[j] == c;
      if j < |r| {
        assert r[j] == c;
      } else {
        assert !Higher(s[j], s[k]);
      }
    }
  }

  // ---------------------------------------------------------------- loops

  method MeanOf(s: seq<real>) returns (m: real)
    ensures m == Mean(s)
  {
    if s == [] {
      return 0.0;
    }
    var sum := 0.0;
    for i := 0 to |s|
      invariant sum == Sum(s[..i])
    {
      assert s[..i + 1][..i] == s[..i];
      sum := sum + s[i];
    }
    assert s[..|s|] == s;
    m := sum / |s| as real;
  }

  ghost predicate AreSums(z: seq<real>, sPos: array<real>, sNeg: array<real>, rPos: array<nat>, rNeg: array<nat>)
    reads sPos, sNeg, rPos, rNeg
  {
    && sPos.Length == sNeg.Length == rPos.Length == rNeg.Length == |z|
    && forall i :: 0 <= i < |z| ==>
         sPos[i] == Pos(z, i) && sNeg[i] == Neg(z, i) && rPos[i] == PosReset(z, i) && rNeg[i] == NegReset(z, i)
  }

  /** Arrays of both sums and of their restarts, filled in one pass. */
  method Accumulate(z: seq<real>) returns (sPos: array<real>, sNeg: array<real>, rPos: array<nat>, rNeg: array<nat>)
    ensures AreSums(z, sPos, sNeg, rPos, rNeg)
  {
    hide Pos, Neg, PosReset, NegReset;
    sPos, sNeg := new real[|z|], new real[|z|];
    rPos, rNeg := new nat[|z|], new nat[|z|];
    for i := 0 to |z|
      invariant forall k :: 0 <= k < i ==>
                  sPos[k] == Pos(z, k) && sNeg[k] == Neg(z, k) && rPos[k] == PosReset(z, k) && rNeg[k] == NegReset(z, k)
    {
      if i == 0 {
        FirstSums(z);
        sPos[0] := if z[0] - DRIFT > 0.0 then z[0] - DRIFT else 0.0;
        sNeg[0] := if z[0] + DRIFT < 0.0 then z[0] + DRIFT else 0.0;
        rPos[0], rNeg[0] := 0, 0;
      } else {
        NextPos(z, i);
        NextNeg(z, i);
        var newPos := sPos[i - 1] + z[i] - DRIFT;
        if newPos <= 0.0 {
          sPos[i], rPos[i] := 0.0, i;
        } else {
          sPos[i], rPos[i] := newPos, rPos[i - 1];
        }
        var newNeg := sNeg[i - 1] + z[i] + DRIFT;
        if newNeg >= 0.0 {
          sNeg[i], rNeg[i] := 0.0, i;
        } else {
          sNeg[i], rNeg[i] := newNeg, rNeg[i - 1];
        }
      }
    }
  }

  method Peak(z: seq<real>, sPos: array<real>, sNeg: array<real>, ghost rPos: array<nat>, ghost rNeg: array<nat>)
    returns (peak: real)
    requires AreSums(z, sPos, sNeg, rPos, rNeg)
    ensures IsPeak(z, peak)
  {
    hide Pos, Neg, PosReset, NegReset;
    peak := 0.0;
    for i := 0 to |z|
      invariant forall k :: 0 <= k < i ==> Pos(z, k) <= peak && -Neg(z, k) <= peak
      invariant peak == 0.0 || exists k :: 0 <= k < i && Reaches(z, k, peak)
    {
      if sPos[i] > peak {
        peak := sPos[i];
        assert Reaches(z, i, peak);
      }
      if -sNeg[i] > peak {
        peak := -sNeg[i];
        assert Reaches(z, i, peak);
      }
    }
  }

  /** An earlier exceedance was charged to the restart at `p`. */
  ghost predicate Charged(z: seq<real>, i: nat, p: nat)
    requires i <= |z|
  {
    exists k :: 0 <= k < i && Exceeds(z, k) && Place(z, k) == p
  }

  lemma ChargedNext(z: seq<real>, i: nat)
    requires i < |z|
    ensures forall p: nat :: Charged(z, i + 1, p) <==> Charged(z, i, p) || (Exceeds(z, i) && Place(z, i) == p)
    ensures FirstAt(z, i) <==> Exceeds(z, i) && !Charged(z, i, Place(z, i))
  {
    forall p: nat | Charged(z, i, p) || (Exceeds(z, i) && Place(z, i) == p) ensures Charged(z, i + 1, p) {
      var k :| 0 <= k < i + 1 && Exceeds(z, k) && Place(z, k) == p;
    }
    forall p: nat | Charged(z, i + 1, p) ensures Charged(z, i, p) || (Exceeds(z, i) && Place(z, i) == p) {
      var k :| 0 <= k < i + 1 && Exceeds(z, k) && Place(z, k) == p;
      assert k == i || 0 <= k < i;
    }
  }

  method Exceedance(z: seq<real>, i: nat, pos: real, neg: real, rPos: nat, rNeg: nat)
    returns (magnitude: real, place: nat, exceeded: bool)
    requires i < |z| && pos == Pos(z, i) && neg == Neg(z, i) && rPos == PosReset(z, i) && rNeg == NegReset(z, i)
    ensures exceeded == Exceeds(z, i) && (exceeded ==> magnitude == Magnitude(z, i) && place == Place(z, i))
  {
    magnitude, place, exceeded := 0.0, 0, false;
    if pos >= THRESHOLD {
      magnitude, place, exceeded := pos, rPos, true;
    }
    if -neg >= THRESHOLD && -neg > magnitude {
      magnitude, place, exceeded := -neg, rNeg, true;
    }
  }

  method Describe(data: Series, place: nat, magnitude: real, peak: real, ghost z: seq<real>, ghost i: nat)
    returns (c: Changepoint)
    requires |data.values| == |z| && i < |z| && peak > 0.0 && IsPeak(z, peak)
    requires Exceeds(z, i) && place == Place(z, i) && magnitude == Magnitude(z, i)
    ensures IsChange(data, z, peak, i, c)
  {
    var before := data.values[0];
    if place > 0 {
      before := MeanOf(data.values[..place]);
    }
    var after := MeanOf(data.values[place..]);
    var significance := magnitude / peak;
    c := Changepoint(place, data.times[place], data.metric, before, after, significance, before <= after);
    SignificanceInRange(data, z, peak, i, c);
    if significance > 1.0 {
      c := c.(significance := 1.0);
    }
  }

  method Detect(data: Series, z: seq<real>, peak: real,
                sPos: array<real>, sNeg: array<real>, rPos: array<nat>, rNeg: array<nat>)
    returns (l: seq<Changepoint>)
    requires |data.values| == |z| && peak > 0.0 && IsPeak(z, peak) && AreSums(z, sPos, sNeg, rPos, rNeg)
    ensures AreChanges(data, z, peak, |z|, l)
  {
    hide Exceeds, Magnitude, Place, IsChange, IsPeak, Charged, FirstAt, Pos, Neg, PosReset, NegReset;
    l := [];
    var detected: set<nat> := {};
    NoneCharged(z);
    for i := 0 to |z|
      invariant AreChanges(data, z, peak, i, l)
      invariant forall p: nat :: p in detected <==> Charged(z, i, p)
    {
      var magnitude, place, exceeded := Exceedance(z, i, sPos[i], sNeg[i], rPos[i], rNeg[i]);
      ChargedNext(z, i);
      if !exceeded || place in detected {
        continue;
      }
      detected := detected + {place};
      var c := Describe(data, place, magnitude, peak, z, i);
      l := l + [c];
    }
  }

  lemma NoneCharged(z: seq<real>)
    ensures forall p: nat :: !Charged(z, 0, p)
  {
  }

  lemma PeakNotZero(z: seq<real>, peak: real, values: seq<real>, sd: real)
    requires values != [] && sd > 0.0 && IsDeviation(values, sd) && IsNormalized(values, Mean(values), sd, z)
    requires IsPeak(z, peak)
    ensures peak >= DRIFT
  {
    var i := SomePeak(values, sd, z);
  }

  method Normalize(values: seq<real>, mean: real, sd: real) returns (z: seq<real>)
    requires sd > 0.0
    ensures IsNormalized(values, mean, sd, z)
  {
    z := [];
    for i := 0 to |values|
      invariant |z| == i && forall k :: 0 <= k < i ==> z[k] == (values[k] - mean) / sd
    {
      z := z + [(values[i] - mean) / sd];
    }
  }

  method Top(ghost data: Series, l: seq<Changepoint>, ghost z: seq<real>, ghost peak: real)
    returns (r: seq<Changepoint>)
    requires |data.values| == |z| && peak > 0.0 && IsPeak(z, peak) && AreChanges(data, z, peak, |z|, l)
    ensures IsReport(data, z, peak, l, r)
  {
    hide IsReport, AreChanges, IsPeak;
    var sorted := Sort(l, Higher);
    SortMembers(Higher, sorted, l);
    TopFive(data, z, peak, l, sorted);
    r := sorted;
    if |r| > MAX_CHANGEPOINTS {
      r := r[..MAX_CHANGEPOINTS];
    }
    assert sorted[..|sorted|] == sorted;
  }

  method MeanStddev(values: seq<real>, root: real -> real) returns (mean: real, sd: real)
    requires IsRoot(root)
    ensures mean == Mean(values) && IsDeviation(values, sd)
  {
    if values == [] {
      return 0.0, 0.0;
    }
    mean := MeanOf(values);
    var sumSq := 0.0;
    for i := 0 to |values|
      invariant sumSq == SumSq(values[..i], mean)
    {
      assert values[..i + 1][..i] == values[..i];
      var d := values[i] - mean;
      sumSq := sumSq + d * d;
    }
    assert values[..|values|] == values;
    SquaresVanish(values, mean);
    sd := root(sumSq / |values| as real);
    RootDeviates(root, sumSq / |values| as real);
  }

  lemma RootDeviates(root: real -> real, v: real)
    requires IsRoot(root) && v >= 0.0
    ensures root(v) >= 0.0 && root(v) * root(v) == v
  {
    assert Times(root(v), root(v)) == v;
  }

  lemma NoDeviation(values: seq<real>, sd: real)
    requires IsDeviation(values, sd)
    ensures sd == 0.0 <==> Variance(values) == 0.0
  {
    SquareSign(sd);
  }

  method Extract(obs: seq<Observation>, metric: Observation -> real, name: string) returns (data: Series)
    ensures data == SeriesOf(obs, metric, name)
  {
    var values := [];
    for i := 0 to |obs|
      invariant values == seq(i, k requires 0 <= k < i => metric(obs[k]))
    {
      values := values + [metric(obs[i])];
    }
    data := Measured(values, seq(|obs|, i requires 0 <= i < |obs| => obs[i].time), name);
    assert values == SeriesOf(obs, metric, name).values;
  }

  /** Change points of one metric of the observations. */
  method DetectChangepoints(obs: seq<Observation>, metric: Observation -> real, name: string, root: real -> real)
    returns (r: seq<Changepoint>, ghost sd: real, ghost z: seq<real>, ghost peak: real, ghost l: seq<Changepoint>)
    requires IsRoot(root)
    ensures |obs| < 10 || Variance(SeriesOf(obs, metric, name).values) == 0.0 ==> r == []
    ensures |obs| >= 10 && Variance(SeriesOf(obs, metric, name).values) != 0.0 ==>
              var data := SeriesOf(obs, metric, name);
              && sd > 0.0 && IsDeviation(data.values, sd) && IsNormalized(data.values, Mean(data.values), sd, z)
              && peak >= 0.5 && IsPeak(z, peak) && IsReport(data, z, peak, l, r)
  {
    r, sd, z, peak, l := [], 0.0, [], 0.0, [];
    if |obs| < MIN_OBSERVATIONS {
      return;
    }
    var data := Extract(obs, metric, name);
    var mean, stddev := MeanStddev(data.values, root);
    NoDeviation(data.values, stddev);
    if stddev == 0.0 {
      return;
    }
    var signal := Normalize(data.values, mean, stddev);
    var sPos, sNeg, rPos, rNeg := Accumulate(signal);
    hide IsPeak, IsReport, AreChanges, Mean, Variance, AreSums;
    var maxCusum := Peak(signal, sPos, sNeg, rPos, rNeg);
    PeakNotZero(signal, maxCusum, data.values, stddev);
    if maxCusum == 0.0 {
      return;
    }
    var found := Detect(data, signal, maxCusum, sPos, sNeg, rPos, rNeg);
    r := Top(data, found, signal, maxCusum);
    sd, z, peak, l := stddev, signal, maxCusum, found;
  }
}
