// Sums of squares over pairs of numbers: Lagrange's identity and when the sum vanishes.
module Pairs {
  import opened Reals

  function Sq(x: real): real { x * x }

  /** The sum of the squares. */
  function SumSq(w: seq<real>): real { if w == [] then 0.0 else SumSq(w[..|w| - 1]) + Sq(w[|w| - 1]) }

  /** Squared differences between the value `x` and every number. */
  function Gaps(w: seq<real>, x: real): real {
    if w == [] then 0.0 else Gaps(w[..|w| - 1], x) + Sq(x - w[|w| - 1])
  }

  function PairGaps(w: seq<real>): real {
    if w == [] then 0.0 else PairGaps(w[..|w| - 1]) + Gaps(w[..|w| - 1], w[|w| - 1])
  }

  function Around(n: real, x: real, s: real, q: real): real { n * (x * x) - 2.0 * x * s + q }

  function Lagrange(n: real, s: real, q: real): real { n * q - s * s }

  lemma {:induction false} GapsExpand(w: seq<real>, x: real)
    ensures Gaps(w, x) == Around(|w| as real, x, Sum(w), SumSq(w))
  {
    if w == [] {
      assert Around(0.0, x, 0.0, 0.0) == 0.0;
    } else {
      var v := w[..|w| - 1];
      GapsExpand(v, x);
      hide Around, Sq;
      OneGap(|v| as real, x, Sum(v), SumSq(v), w[|w| - 1], |w| as real, Sum(w), SumSq(w));
    }
  }

  lemma OneGap(n: real, x: real, s: real, q: real, y: real, n': real, s': real, q': real)
    requires n' == n + 1.0 && s' == s + y && q' == q + Sq(y)
    ensures Around(n', x, s', q') == Around(n, x, s, q) + Sq(x - y)
  {
    assert Sq(x - y) == x * x - 2.0 * x * y + y * y;
    assert (n + 1.0) * (x * x) == n * (x * x) + x * x;
    assert 2.0 * x * (s + y) == 2.0 * x * s + 2.0 * x * y;
  }

  lemma OnePair(n: real, s: real, q: real, y: real, n': real, s': real, q': real)
    requires n' == n + 1.0 && s' == s + y && q' == q + Sq(y)
    ensures Lagrange(n', s', q') == Lagrange(n, s, q) + Around(n, y, s, q)
  {
    assert n' * q' == n * q + q + n * (y * y) + y * y;
    assert s' * s' == s * s + 2.0 * y * s + y * y;
  }

  /** Lagrange's identity. */
  lemma {:induction false} PairsExpand(w: seq<real>)
    ensures PairGaps(w) == Lagrange(|w| as real, Sum(w), SumSq(w))
  {
    if w == [] {
      assert Lagrange(0.0, 0.0, 0.0) == 0.0;
    } else {
      var v, y := w[..|w| - 1], w[|w| - 1];
      PairsExpand(v);
      GapsExpand(v, y);
      hide Around, Lagrange, Gaps, Sq;
      OnePair(|v| as real, Sum(v), SumSq(v), y, |w| as real, Sum(w), SumSq(w));
    }
  }

  lemma {:induction false} GapsSign(w: seq<real>, x: real)
    ensures Gaps(w, x) >= 0.0 && (Gaps(w, x) == 0.0 <==> forall i :: 0 <= i < |w| ==> w[i] == x)
  {
    if w != [] {
      var n := |w| - 1;
      GapsSign(w[..n], x);
      SquareSign(x - w[n]);
      assert (forall i :: 0 <= i < |w| ==> w[i] == x) <==> (forall i :: 0 <= i < n ==> w[..n][i] == x) && w[n] == x;
    }
  }

  predicate AllEqual(w: seq<real>) { forall i :: 0 <= i < |w| ==> w[i] == w[0] }

  lemma {:induction false} PairsSign(w: seq<real>)
    ensures PairGaps(w) >= 0.0 && (PairGaps(w) == 0.0 <==> AllEqual(w))
  {
    if w != [] {
      var n := |w| - 1;
      PairsSign(w[..n]);
      GapsSign(w[..n], w[n]);
      if AllEqual(w) {
        assert forall i :: 0 <= i < n ==> w[..n][i] == w[n];
        assert AllEqual(w[..n]);
      } else if AllEqual(w[..n]) && forall i :: 0 <= i < n ==> w[..n][i] == w[n] {
        forall i | 0 <= i < |w| ensures w[i] == w[0] {
          assert n > 0 ==> w[..n][0] == w[n];
          assert i < n ==> w[..n][i] == w[n];
        }
      }
    }
  }
}
