// The two-sided CUSUM of internal/eval/changepoint.go as functions of the normalized signal, and what
// its recurrences compute.
module CusumModel {
  import opened Reals

  const DRIFT := 0.5
  const THRESHOLD := 4.0

  /** The positive sum after point `i`. */
  function Pos(z: seq<real>, i: nat): (r: real)
    requires i < |z|
    ensures r >= 0.0
  {
    var next := (if i == 0 then 0.0 else Pos(z, i - 1)) + z[i] - DRIFT;
    if next <= 0.0 then 0.0 else next
  }

  /** The negative sum after point `i`. */
  function Neg(z: seq<real>, i: nat): (r: real)
    requires i < |z|
    ensures r <= 0.0
  {
    var next := (if i == 0 then 0.0 else Neg(z, i - 1)) + z[i] + DRIFT;
    if next >= 0.0 then 0.0 else next
  }

  lemma FirstSums(z: seq<real>)
    requires z != []
    ensures Pos(z, 0) == (if z[0] - DRIFT > 0.0 then z[0] - DRIFT else 0.0)
    ensures Neg(z, 0) == (if z[0] + DRIFT < 0.0 then z[0] + DRIFT else 0.0)
    ensures PosReset(z, 0) == NegReset(z, 0) == 0
  {
  }

  lemma NextPos(z: seq<real>, i: nat)
    requires 0 < i < |z|
    ensures var next := Pos(z, i - 1) + z[i] - DRIFT;
            if next <= 0.0 then Pos(z, i) == 0.0 && PosReset(z, i) == i
            else Pos(z, i) == next && PosReset(z, i) == PosReset(z, i - 1)
  {
  }

  lemma NextNeg(z: seq<real>, i: nat)
    requires 0 < i < |z|
    ensures var next := Neg(z, i - 1) + z[i] + DRIFT;
            if next >= 0.0 then Neg(z, i) == 0.0 && NegReset(z, i) == i
            else Neg(z, i) == next && NegReset(z, i) == NegReset(z, i - 1)
  {
  }

  /** Where the positive sum last restarted; point 0 counts as a restart whatever its sum. */
  function PosReset(z: seq<real>, i: nat): (r: nat)
    requires i < |z|
    ensures r <= i
  {
    if i == 0 then 0 else if Pos(z, i - 1) + z[i] - DRIFT <= 0.0 then i else PosReset(z, i - 1)
  }

  function NegReset(z: seq<real>, i: nat): (r: nat)
    requires i < |z|
    ensures r <= i
  {
    if i == 0 then 0 else if Neg(z, i - 1) + z[i] + DRIFT >= 0.0 then i else NegReset(z, i - 1)
  }

  function Negated(z: seq<real>): (r: seq<real>)
    ensures |r| == |z| && forall i :: 0 <= i < |z| ==> r[i] == -z[i]
  {
    seq(|z|, i requires 0 <= i < |z| => -z[i])
  }

  /** The negative side is the positive side of the negated signal. */
  lemma {:induction false} Mirror(z: seq<real>, i: nat)
    requires i < |z|
    ensures Neg(z, i) == -Pos(Negated(z), i) && NegReset(z, i) == PosReset(Negated(z), i)
  {
    if i > 0 {
      Mirror(z, i - 1);
    }
  }

  /** Sum of the signal minus the drift over the points from `j` up to and including `i`. */
  function Stretch(z: seq<real>, j: nat, i: nat): real
    requires j <= i + 1 && i < |z|
    decreases i
  {
    if j == i + 1 then 0.0 else (if j == i then 0.0 else Stretch(z, j, i - 1)) + (z[i] - 0.5)
  }

  /** The recurrence computes the best sum over all stretches ending at `i`, the empty one included. */
  lemma {:induction false} PosIsBest(z: seq<real>, i: nat)
    requires i < |z|
    ensures forall j: nat :: j <= i + 1 ==> Stretch(z, j, i) <= Pos(z, i)
    ensures exists j: nat :: j <= i + 1 && Stretch(z, j, i) == Pos(z, i)
  {
    if i > 0 {
      PosIsBest(z, i - 1);
      var j: nat :| j <= i && Stretch(z, j, i - 1) == Pos(z, i - 1);
      assert j < i ==> Stretch(z, j, i) == Pos(z, i - 1) + (z[i] - DRIFT);
      assert j == i ==> Stretch(z, j, i) == Pos(z, i - 1) + (z[i] - DRIFT);
      forall k: nat | k <= i + 1 ensures Stretch(z, k, i) <= Pos(z, i) {
        assert k <= i ==> Stretch(z, k, i - 1) <= Pos(z, i - 1);
      }
      assert Stretch(z, i + 1, i) == 0.0;
    } else {
      assert Stretch(z, 0, 0) == z[0] - DRIFT && Stretch(z, 1, 0) == 0.0;
    }
  }

  /** The recorded restart is the last zero of the sum, or the start; from there the sum is plain addition. */
  lemma {:induction false} ResetExplains(z: seq<real>, i: nat)
    requires i < |z|
    ensures var r := PosReset(z, i);
            && (r == 0 || Pos(z, r) == 0.0)
            && (forall k: nat :: r < k <= i ==> Pos(z, k) > 0.0)
            && Pos(z, i) == Pos(z, r) + Stretch(z, r + 1, i)
  {
    if i > 0 {
      ResetExplains(z, i - 1);
    }
  }

  // ---------------------------------------------------------------- detection

  predicate PosOver(z: seq<real>, i: nat)
    requires i < |z|
  {
    Pos(z, i) >= THRESHOLD
  }

  /** The negative side wins when it is over the threshold and beats an over-threshold positive side. */
  predicate NegWins(z: seq<real>, i: nat)
    requires i < |z|
  {
    -Neg(z, i) >= THRESHOLD && -Neg(z, i) > if PosOver(z, i) then Pos(z, i) else 0.0
  }

  predicate Exceeds(z: seq<real>, i: int) { 0 <= i < |z| && (PosOver(z, i) || NegWins(z, i)) }

  function Magnitude(z: seq<real>, i: nat): real
    requires i < |z|
  {
    if NegWins(z, i) then -Neg(z, i) else Pos(z, i)
  }

  function Place(z: seq<real>, i: nat): (r: nat)
    requires i < |z|
    ensures r <= i
  {
    if NegWins(z, i) then NegReset(z, i) else PosReset(z, i)
  }

  /** `place` is where the positive sum of `w` began the rise that reached 4 at point `i`. */
  ghost predicate RisesFrom(w: seq<real>, place: nat, i: nat)
    requires place <= i < |w|
  {
    && Pos(w, i) >= 4.0
    && (forall k: nat :: place < k <= i ==> Pos(w, k) > 0.0)
    && (place == 0 || Pos(w, place) == 0.0)
  }

  /** An exceedance is charged to the start of the rise of the larger side. */
  lemma PlaceExplains(z: seq<real>, i: nat)
    requires Exceeds(z, i)
    ensures var n := Negated(z);
            var w := if Pos(n, i) > Pos(z, i) then n else z;
            RisesFrom(w, Place(z, i), i) && Magnitude(z, i) == Pos(w, i)
  {
    var n := Negated(z);
    Mirror(z, i);
    ResetExplains(z, i);
    ResetExplains(n, i);
  }

  /** A point exceeds when some stretch ending there drifts up or down by the threshold, and by how much. */
  lemma ExceedsExactly(z: seq<real>, i: nat)
    requires i < |z|
    ensures Exceeds(z, i) <==>
            exists j: nat :: j <= i && (Stretch(z, j, i) >= THRESHOLD || Stretch(Negated(z), j, i) >= THRESHOLD)
    ensures Exceeds(z, i) ==> Magnitude(z, i) == if Pos(z, i) < -Neg(z, i) then -Neg(z, i) else Pos(z, i)
  {
    var n := Negated(z);
    Mirror(z, i);
    PosIsBest(z, i);
    PosIsBest(n, i);
    var j: nat :| j <= i + 1 && Stretch(z, j, i) == Pos(z, i);
    var k: nat :| k <= i + 1 && Stretch(n, k, i) == Pos(n, i);
    assert j == i + 1 ==> Pos(z, i) == 0.0;
    assert k == i + 1 ==> Pos(n, i) == 0.0;
  }

  // ---------------------------------------------------------------- mean and deviation

  function Mean(s: seq<real>): real { if s == [] then 0.0 else Sum(s) / |s| as real }

  function SumSq(s: seq<real>, m: real): real {
    if s == [] then 0.0 else SumSq(s[..|s| - 1], m) + Times(s[|s| - 1] - m, s[|s| - 1] - m)
  }

  lemma {:induction false} SquaresVanish(s: seq<real>, m: real)
    ensures SumSq(s, m) >= 0.0
    ensures SumSq(s, m) == 0.0 <==> forall i :: 0 <= i < |s| ==> s[i] == m
  {
    if s != [] {
      var n := |s| - 1;
      SquaresVanish(s[..n], m);
      SquareSign(s[n] - m);
      assert (forall i :: 0 <= i < |s| ==> s[i] == m) <==> (forall i :: 0 <= i < n ==> s[..n][i] == m) && s[n] == m;
    }
  }

  function Variance(s: seq<real>): real { if s == [] then 0.0 else SumSq(s, Mean(s)) / |s| as real }

  /** `sd` is the square root of the variance. */
  predicate IsDeviation(s: seq<real>, sd: real) { sd >= 0.0 && sd * sd == Variance(s) }

  predicate IsNormalized(s: seq<real>, m: real, sd: real, z: seq<real>)
    requires sd != 0.0
  {
    |z| == |s| && forall i :: 0 <= i < |s| ==> z[i] == (s[i] - m) / sd
  }

  lemma {:induction false} SquaresScale(s: seq<real>, m: real, sd: real, z: seq<real>, q: real)
    requires sd > 0.0 && q == sd * sd && IsNormalized(s, m, sd, z)
    ensures Times(SumSq(z, 0.0), q) == SumSq(s, m)
  {
    if s != [] {
      hide Times;
      var n := |s| - 1;
      SquaresScale(s[..n], m, sd, z[..n], q);
      SquareScales(s[n] - m, z[n], sd, SumSq(z[..n], 0.0), q);
    }
  }

  lemma SquareScales(d: real, y: real, sd: real, rest: real, q: real)
    requires sd > 0.0 && y == d / sd && q == sd * sd
    ensures Times(rest + Times(y - 0.0, y - 0.0), q) == Times(rest, q) + Times(d, d)
  {
    assert y - 0.0 == y;
    assert y * sd == d;
    assert (y * y) * (sd * sd) == (y * sd) * (y * sd);
    assert (rest + y * y) * q == rest * q + (y * y) * q;
  }

  lemma {:induction false} SmallSquares(z: seq<real>)
    requires z != [] && forall i :: 0 <= i < |z| ==> -1.0 < z[i] < 1.0
    ensures SumSq(z, 0.0) < |z| as real
  {
    var n := |z| - 1;
    assert z[n] * z[n] < 1.0;
    if n == 0 {
      assert z[..0] == [];
    } else {
      SmallSquares(z[..n]);
    }
  }

  /** A normalized signal leaves one standard deviation somewhere, and there one of the sums is positive. */
  lemma SomePeak(s: seq<real>, sd: real, z: seq<real>) returns (i: nat)
    requires s != [] && sd > 0.0 && IsDeviation(s, sd) && IsNormalized(s, Mean(s), sd, z)
    ensures i < |z| && (Pos(z, i) >= DRIFT || -Neg(z, i) >= DRIFT)
  {
    SquaresScale(s, Mean(s), sd, z, Variance(s));
    ProductPositive(sd, sd, Variance(s));
    Cancels(SumSq(z, 0.0), |s| as real, Variance(s), SumSq(s, Mean(s)));
    if forall i :: 0 <= i < |z| ==> -1.0 < z[i] < 1.0 {
      SmallSquares(z);
    }
    i :| 0 <= i < |z| && !(-1.0 < z[i] < 1.0);
  }

  lemma Cancels(x: real, n: real, q: real, t: real)
    requires q > 0.0 && n > 0.0 && x * q == t && q == t / n
    ensures x == n
  {
    assert q * n == t;
    assert (x - n) * q == 0.0;
  }
}
