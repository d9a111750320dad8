// Sums and signs of real numbers, shared by the statistics modules.
module Reals {

  function Sum(s: seq<real>): real { if s == [] then 0.0 else Sum(s[..|s| - 1]) + s[|s| - 1] }

  /** A product that proofs by induction can leave closed. */
  function Times(x: real, y: real): real { x * y }

  lemma {:induction false} SumOfSame(s: seq<real>, x: real)
    requires forall i :: 0 <= i < |s| ==> s[i] == x
    ensures Sum(s) == x * |s| as real
  {
    if s != [] {
      SumOfSame(s[..|s| - 1], x);
    }
  }

  lemma ProductPositive(x: real, y: real, q: real)
    requires x > 0.0 && y > 0.0 && q == x * y
    ensures q > 0.0
  {
  }

  lemma Product(x: real, y: real)
    requires x >= 0.0 && y >= 0.0
    ensures x * y >= 0.0
  {
  }

  lemma SquareSign(d: real)
    ensures d * d >= 0.0 && (d * d == 0.0 <==> d == 0.0)
  {
    if d > 0.0 {
      ProductPositive(d, d, d * d);
    } else if d < 0.0 {
      ProductPositive(-d, -d, d * d);
    }
  }

  lemma SignOfProduct(x: real, m: real, q: real)
    requires m > 0.0 && q == x * m
    ensures q > 0.0 <==> x > 0.0
  {
  }

  lemma Cancel(x: real, y: real, n: real)
    requires n > 0.0 && x * n == y * n
    ensures x == y
  {
    assert (x - y) * n == 0.0;
  }

  /** A square root, as far as the programs rely on it. */
  ghost predicate IsRoot(root: real -> real) {
    forall x :: x >= 0.0 ==> root(x) >= 0.0 && Times(root(x), root(x)) == x
  }
}
