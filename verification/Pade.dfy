// Why the numerators of internal/eval/ab_runner.go are the right ones: cut after its j-th numerator, the continued
// fraction agrees with the hypergeometric series of the incomplete beta function up to the j-th power of the argument.
module Pade {
  import opened Lentz
  import opened Reals

  // ---------------------------------------------------------------- the series

  /** The coefficient of the `k`-th power in F(a + b, 1; a + 1; x): the front factor times this series is the incomplete
      beta function. */
  function BetaSeries(a: real, b: real, k: nat): real
    requires a > 0.0
  {
    if k == 0 then 1.0 else Times(BetaSeries(a, b, k - 1), (a + b + (k - 1) as real) / (a + k as real))
  }

  /** The coefficients of F(p, q; r; x). */
  function Gauss(p: real, q: real, r: real, k: nat): real
    requires r > 0.0
  {
    if k == 0 then 1.0
    else
      var j := (k - 1) as real;
      Times(Gauss(p, q, r, k - 1), (p + j) * (q + j) / ((r + j) * (j + 1.0)))
  }

  lemma GaussNext(p: real, q: real, r: real, k: nat)
    requires r > 0.0
    ensures var j := k as real;
            Times(Gauss(p, q, r, k + 1), Times(r + j, j + 1.0)) == Times(Gauss(p, q, r, k), Times(p + j, q + j))
  {
    var j := k as real;
    ProductPositive(r + j, j + 1.0, (r + j) * (j + 1.0));
    Fraction(Gauss(p, q, r, k), (p + j) * (q + j), (r + j) * (j + 1.0));
  }

  lemma Fraction(c: real, n: real, d: real)
    requires d > 0.0
    ensures Times(Times(c, n / d), d) == Times(c, n)
  {
    assert n / d * d == n;
    assert c * (n / d) * d == c * (n / d * d);
  }

  /** Neighbouring series in terms of a third one, whose `k`-th coefficient is `t`. */
  lemma {:induction false} Upper(p: real, q: real, r: real, k: nat)
    requires r > 0.0
    ensures var c, t, n := Gauss(p, q + 1.0, r + 1.0, k + 1), Gauss(p + 1.0, q + 1.0, r + 2.0, k), (k + 1) as real;
            Times(c, Times(r + 1.0, n)) == Times(t, Times(p, q + n))
  {
    GaussNext(p, q + 1.0, r + 1.0, k);
    if k == 0 {
      assert Gauss(p, q + 1.0, r + 1.0, 0) == Gauss(p + 1.0, q + 1.0, r + 2.0, 0) == 1.0;
      assert q + 1.0 + 0.0 == q + 1.0 && r + 1.0 + 0.0 == r + 1.0 && p + 0.0 == p;
      assert Times(1.0, Times(p, q + 1.0)) == Times(p, q + 1.0);
    } else {
      Upper(p, q, r, k - 1);
      GaussNext(p + 1.0, q + 1.0, r + 2.0, k - 1);
      var n := k as real;
      assert (k - 1) as real == n - 1.0 && (k + 1) as real == n + 1.0;
      UpperStep(Gauss(p, q + 1.0, r + 1.0, k), Gauss(p, q + 1.0, r + 1.0, k + 1),
                Gauss(p + 1.0, q + 1.0, r + 2.0, k - 1), Gauss(p + 1.0, q + 1.0, r + 2.0, k), p, q, r, n);
    }
  }

  lemma UpperStep(c: real, c': real, t: real, t': real, p: real, q: real, r: real, n: real)
    requires r > 0.0 && n >= 1.0
    requires Times(c', Times(r + 1.0 + n, n + 1.0)) == Times(c, Times(p + n, q + 1.0 + n))
    requires Times(c, Times(r + 1.0, n)) == Times(t, Times(p, q + n))
    requires Times(t', Times(r + 2.0 + (n - 1.0), n - 1.0 + 1.0)) ==
             Times(t, Times(p + 1.0 + (n - 1.0), q + 1.0 + (n - 1.0)))
    ensures Times(c', Times(r + 1.0, n + 1.0)) == Times(t', Times(p, q + (n + 1.0)))
  {
    assert r + 2.0 + (n - 1.0) == r + 1.0 + n && n - 1.0 + 1.0 == n;
    assert p + 1.0 + (n - 1.0) == p + n && q + 1.0 + (n - 1.0) == q + n && q + (n + 1.0) == q + 1.0 + n;
    hide Times;
    Exchanged(c, c', t, t', r + 1.0 + n, n + 1.0, r + 1.0, n, p + n, q + 1.0 + n, p, q + n);
  }

  /** Ratios multiplied out. */
  lemma Exchanged(c: real, c': real, t: real, t': real, u: real, v: real, w: real, n: real, d: real, e: real, p: real,
                  q: real)
    requires u > 0.0 && n > 0.0
    requires Times(c', Times(u, v)) == Times(c, Times(d, e)) && Times(c, Times(w, n)) == Times(t, Times(p, q))
    requires Times(t', Times(u, n)) == Times(t, Times(d, q))
    ensures Times(c', Times(w, v)) == Times(t', Times(p, e))
  {
    ProductPositive(u, n, u * n);
    assert (c' * (w * v)) * (u * n) == (c' * (u * v)) * (w * n);
    assert (c * (d * e)) * (w * n) == (c * (w * n)) * (d * e);
    assert (t * (p * q)) * (d * e) == (t * (d * q)) * (p * e);
    assert (t' * (u * n)) * (p * e) == (t' * (p * e)) * (u * n);
    Cancel(c' * (w * v), t' * (p * e), u * n);
  }

  lemma {:induction false} Lower(p: real, q: real, r: real, k: nat)
    requires r > 0.0
    ensures var c, t, n := Gauss(p, q, r, k + 1), Gauss(p + 1.0, q + 1.0, r + 2.0, k), (k + 1) as real;
            Times(c, Times(Times(r, r + 1.0), n)) == Times(t, Times(Times(p, q), r + n))
  {
    GaussNext(p, q, r, k);
    if k == 0 {
      assert Gauss(p, q, r, 0) == Gauss(p + 1.0, q + 1.0, r + 2.0, 0) == 1.0;
      LowerStart(Gauss(p, q, r, 1), p, q, r);
    } else {
      Lower(p, q, r, k - 1);
      GaussNext(p + 1.0, q + 1.0, r + 2.0, k - 1);
      var n := k as real;
      assert (k - 1) as real == n - 1.0 && (k + 1) as real == n + 1.0;
      LowerStep(Gauss(p, q, r, k), Gauss(p, q, r, k + 1), Gauss(p + 1.0, q + 1.0, r + 2.0, k - 1),
                Gauss(p + 1.0, q + 1.0, r + 2.0, k), p, q, r, n);
    }
  }

  lemma LowerStart(c: real, p: real, q: real, r: real)
    requires Times(c, Times(r + 0.0, 0.0 + 1.0)) == Times(1.0, Times(p + 0.0, q + 0.0))
    ensures Times(c, Times(Times(r, r + 1.0), 1.0)) == Times(1.0, Times(Times(p, q), r + 1.0))
  {
    assert c * r == p * q;
    assert c * (r * (r + 1.0)) == (c * r) * (r + 1.0);
  }

  lemma LowerStep(c: real, c': real, t: real, t': real, p: real, q: real, r: real, n: real)
    requires r > 0.0 && n >= 1.0
    requires Times(c', Times(r + n, n + 1.0)) == Times(c, Times(p + n, q + n))
    requires Times(c, Times(Times(r, r + 1.0), n)) == Times(t, Times(Times(p, q), r + n))
    requires Times(t', Times(r + 2.0 + (n - 1.0), n - 1.0 + 1.0)) ==
             Times(t, Times(p + 1.0 + (n - 1.0), q + 1.0 + (n - 1.0)))
    ensures Times(c', Times(Times(r, r + 1.0), n + 1.0)) == Times(t', Times(Times(p, q), r + (n + 1.0)))
  {
    assert r + 2.0 + (n - 1.0) == r + (n + 1.0) && n - 1.0 + 1.0 == n;
    assert p + 1.0 + (n - 1.0) == p + n && q + 1.0 + (n - 1.0) == q + n;
    var w, m := Times(r, r + 1.0), Times(p, q);
    hide Times;
    Rolled(c, c', t, t', r + n, n + 1.0, w, n, Times(p + n, q + n), m, r + (n + 1.0));
  }

  lemma Rolled(c: real, c': real, t: real, t': real, u: real, v: real, w: real, n: real, d: real, m: real, z: real)
    requires u > 0.0 && n > 0.0
    requires Times(c', Times(u, v)) == Times(c, d) && Times(c, Times(w, n)) == Times(t, Times(m, u))
    requires Times(t', Times(z, n)) == Times(t, d)
    ensures Times(c', Times(w, v)) == Times(t', Times(m, z))
  {
    ProductPositive(u, n, u * n);
    assert (c' * (w * v)) * (u * n) == (c' * (u * v)) * (w * n);
    assert (c * d) * (w * n) == (c * (w * n)) * d;
    assert (t * (m * u)) * d == (t * d) * (m * u);
    assert (t' * (z * n)) * (m * u) == (t' * (m * z)) * (u * n);
    Cancel(c' * (w * v), t' * (m * z), u * n);
  }

  function Shift(p: real, q: real, r: real): real
    requires r > 0.0
  {
    ProductPositive(r, r + 1.0, r * (r + 1.0));
    -(p * (r - q)) / (r * (r + 1.0))
  }

  /** The contiguous relation behind the fraction. */
  lemma Contiguous(p: real, q: real, r: real, k: nat)
    requires r > 0.0
    ensures Gauss(p, q, r, k) == Gauss(p, q + 1.0, r + 1.0, k) +
            if k == 0 then 0.0 else Times(Shift(p, q, r), Gauss(p + 1.0, q + 1.0, r + 2.0, k - 1))
  {
    if k > 0 {
      Upper(p, q, r, k - 1);
      Lower(p, q, r, k - 1);
      var n := k as real;
      hide Gauss;
      Difference(Gauss(p, q, r, k), Gauss(p, q + 1.0, r + 1.0, k), Gauss(p + 1.0, q + 1.0, r + 2.0, k - 1), p, q, r, n);
    }
  }

  lemma Difference(c: real, d: real, t: real, p: real, q: real, r: real, n: real)
    requires r > 0.0 && n > 0.0
    requires Times(c, Times(Times(r, r + 1.0), n)) == Times(t, Times(Times(p, q), r + n))
    requires Times(d, Times(r + 1.0, n)) == Times(t, Times(p, q + n))
    ensures c == d + Times(Shift(p, q, r), t)
  {
    ProductPositive(r, r + 1.0, r * (r + 1.0));
    var w, e := r * (r + 1.0), Shift(p, q, r);
    assert e * w == -(p * (r - q));
    ProductPositive(w, n, w * n);
    assert c * (w * n) == t * (p * q * (r + n));
    assert d * (w * n) == (d * ((r + 1.0) * n)) * r == (t * (p * (q + n))) * r;
    assert (e * t) * (w * n) == (e * w) * (t * n);
    assert p * q * (r + n) == p * (q + n) * r - p * (r - q) * n;
    Cancel(c, d + e * t, w * n);
  }

  /** The series that the fraction divides one by the next: F(a + b, 0; a) = 1, F(a + b, 1; a + 1), and on. */
  function Link(a: real, b: real, i: nat, k: nat): real
    requires a > 0.0
  {
    var m := (i / 2) as real;
    if i % 2 == 0 then Gauss(m, a + b + m, a + 2.0 * m, k) else Gauss(a + b + m, m + 1.0, a + 2.0 * m + 1.0, k)
  }

  /** The factor of the argument in the `i`-th numerator. */
  function Factor(a: real, b: real, i: nat): real
    requires a > 0.0
  {
    Numerator(a, b, 1.0, i)
  }

  lemma Links(a: real, b: real, i: nat, k: nat)
    requires a > 0.0 && i >= 1
    ensures Link(a, b, i - 1, k) ==
            Link(a, b, i, k) + if k == 0 then 0.0 else Times(Factor(a, b, i), Link(a, b, i + 1, k - 1))
  {
    if i % 2 == 1 { OddLinks(a, b, i / 2, k); } else { EvenLinks(a, b, i / 2, k); }
  }

  lemma OddLinks(a: real, b: real, h: nat, k: nat)
    requires a > 0.0
    ensures Link(a, b, 2 * h, k) == Link(a, b, 2 * h + 1, k) +
            if k == 0 then 0.0 else Times(Factor(a, b, 2 * h + 1), Link(a, b, 2 * h + 2, k - 1))
  {
    hide Gauss, Times, Shift;
    var m := h as real;
    assert (2 * h) / 2 == h && (2 * h + 1) / 2 == h && (2 * h + 2) / 2 == h + 1 && (h + 1) as real == m + 1.0;
    SameGauss(a + b + m, m, a + 2.0 * m, k);
    assert Link(a, b, 2 * h, k) == Gauss(a + b + m, m, a + 2.0 * m, k);
    assert Link(a, b, 2 * h + 1, k) == Gauss(a + b + m, m + 1.0, a + 2.0 * m + 1.0, k);
    Contiguous(a + b + m, m, a + 2.0 * m, k);
    if k > 0 {
      SameGauss(a + b + m + 1.0, m + 1.0, a + 2.0 * m + 2.0, k - 1);
      assert a + 2.0 * (m + 1.0) == a + 2.0 * m + 2.0 && a + b + (m + 1.0) == a + b + m + 1.0;
      assert Link(a, b, 2 * h + 2, k - 1) == Gauss(a + b + m + 1.0, m + 1.0, a + 2.0 * m + 2.0, k - 1);
      OddFactor(a, b, m);
    }
  }

  lemma EvenLinks(a: real, b: real, h: nat, k: nat)
    requires a > 0.0 && h >= 1
    ensures Link(a, b, 2 * h - 1, k) == Link(a, b, 2 * h, k) +
            if k == 0 then 0.0 else Times(Factor(a, b, 2 * h), Link(a, b, 2 * h + 1, k - 1))
  {
    hide Gauss, Times, Shift;
    var m := h as real;
    assert (2 * h - 1) / 2 == h - 1 && (2 * h) / 2 == h && (2 * h + 1) / 2 == h && (h - 1) as real == m - 1.0;
    SameGauss(a + b + (m - 1.0), m, a + 2.0 * (m - 1.0) + 1.0, k);
    SameGauss(a + b + m, m + 1.0, a + 2.0 * m + 1.0, if k == 0 then 0 else k - 1);
    assert a + 2.0 * (m - 1.0) + 1.0 == a + 2.0 * m - 1.0 && a + b + (m - 1.0) + 1.0 == a + b + m;
    assert m - 1.0 + 1.0 == m && a + 2.0 * m - 1.0 + 1.0 == a + 2.0 * m &&
           a + 2.0 * m - 1.0 + 2.0 == a + 2.0 * m + 1.0;
    Contiguous(m, a + b + (m - 1.0), a + 2.0 * m - 1.0, k);
    EvenFactor(a, b, m);
  }

  /** The first two parameters commute. */
  lemma {:induction false} SameGauss(p: real, q: real, r: real, k: nat)
    requires r > 0.0
    ensures Gauss(p, q, r, k) == Gauss(q, p, r, k)
  {
    if k > 0 {
      SameGauss(p, q, r, k - 1);
      assert (p + (k - 1) as real) * (q + (k - 1) as real) == (q + (k - 1) as real) * (p + (k - 1) as real);
    }
  }

  lemma OddFactor(a: real, b: real, m: real)
    requires a > 0.0 && m >= 0.0
    ensures Odd(a, b, 1.0, m) == Shift(a + b + m, m, a + 2.0 * m)
  {
    var r := a + 2.0 * m;
    ProductPositive(r, r + 1.0, r * (r + 1.0));
    assert (a + m) * (a + b + m) * 1.0 == (a + b + m) * (r - m);
  }

  lemma EvenFactor(a: real, b: real, m: real)
    requires a > 0.0 && m >= 1.0
    ensures Even(a, b, 1.0, m) == Shift(m, a + b + (m - 1.0), a + 2.0 * m - 1.0)
  {
    var q, r := a + b + (m - 1.0), a + 2.0 * m - 1.0;
    ProductPositive(r, r + 1.0, r * (r + 1.0));
    assert r + 1.0 == a + 2.0 * m && r - q == m - b;
    assert m * (b - m) * 1.0 == -(m * (r - q));
  }

  lemma LinkIsSeries(a: real, b: real, k: nat)
    requires a > 0.0
    ensures Link(a, b, 1, k) == BetaSeries(a, b, k)
    ensures Link(a, b, 0, k) == if k == 0 then 1.0 else 0.0
  {
    OneIsSeries(a, b, k);
    if k > 0 { NoSeries(a + b, a, k); }
    hide Gauss, BetaSeries;
    assert a + b + 0.0 == a + b && 0.0 + 1.0 == 1.0 && a + 2.0 * 0.0 + 1.0 == a + 1.0 && a + 2.0 * 0.0 == a;
    assert Link(a, b, 1, k) == Gauss(a + b, 1.0, a + 1.0, k) && Link(a, b, 0, k) == Gauss(0.0, a + b, a, k);
    if k == 0 { GaussStarts(0.0, a + b, a); }
  }

  lemma GaussStarts(p: real, q: real, r: real)
    requires r > 0.0
    ensures Gauss(p, q, r, 0) == 1.0
  {
  }

  lemma LinkStarts(a: real, b: real, i: nat)
    requires a > 0.0
    ensures Link(a, b, i, 0) == 1.0
  {
  }

  lemma {:induction false} OneIsSeries(a: real, b: real, k: nat)
    requires a > 0.0
    ensures Gauss(a + b, 1.0, a + 1.0, k) == BetaSeries(a, b, k)
  {
    if k > 0 {
      OneIsSeries(a, b, k - 1);
      var j := (k - 1) as real;
      GaussNext(a + b, 1.0, a + 1.0, k - 1);
      assert a + 1.0 + j == a + k as real && j + 1.0 == 1.0 + j;
      hide Times, Gauss;
      OneCancels(BetaSeries(a, b, k - 1), Gauss(a + b, 1.0, a + 1.0, k), a + b + j, 1.0 + j, a + k as real);
    }
  }

  lemma OneCancels(c: real, c': real, n: real, f: real, d: real)
    requires d > 0.0 && f > 0.0 && Times(c', Times(d, f)) == Times(c, Times(n, f))
    ensures c' == Times(c, n / d)
  {
    var q := n / d;
    assert q * d == n;
    assert c' * (d * f) == c' * d * f && c * (n * f) == c * n * f;
    Cancel(c' * d, c * n, f);
    assert c * q * d == c * (q * d);
    Cancel(c', c * q, d);
  }

  /** With a first parameter of zero nothing follows the constant. */
  lemma {:induction false} NoSeries(q: real, r: real, k: nat)
    requires r > 0.0 && k > 0
    ensures Gauss(0.0, q, r, k) == 0.0
  {
    if k > 1 {
      NoSeries(q, r, k - 1);
    } else {
      assert (0.0 + 0.0) * (q + 0.0) == 0.0;
      NoNumerator(Gauss(0.0, q, r, 0), (r + 0.0) * (0.0 + 1.0));
    }
  }

  lemma NoNumerator(c: real, d: real)
    ensures d != 0.0 ==> Times(c, 0.0 / d) == 0.0
    ensures Times(0.0, c) == 0.0
  {
  }

  // ---------------------------------------------------------------- the denominators as polynomials

  /** The coefficient of the `k`-th power in the continuant of the numerators `i` to `j`. */
  ghost function Coef(f: nat -> real, i: nat, j: int, k: int): real
    decreases if j < i then 0 else j - i + 1
  {
    if k < 0 then 0.0
    else if j < i then if k == 0 then 1.0 else 0.0
    else Coef(f, i, j - 1, k) + Times(f(j), Coef(f, i, j - 2, k - 1))
  }

  /** They too can be unrolled from the front. */
  lemma {:induction false} CoefFromTheFront(f: nat -> real, i: nat, j: int, k: int)
    requires i <= j
    ensures Coef(f, i, j, k) == Coef(f, i + 1, j, k) + Times(f(i), Coef(f, i + 2, j, k - 1))
    decreases j
  {
    assert Times(f(i), 0.0) == Times(f(j), 0.0) == 0.0;
    hide Times;
    if k < 0 {
    } else if j == i {
      assert Coef(f, i, i - 1, k) == Coef(f, i + 1, i, k) && Coef(f, i, i - 2, k - 1) == Coef(f, i + 2, i, k - 1);
    } else if j == i + 1 {
      assert Coef(f, i, i + 1, k) == Coef(f, i, i, k) + Times(f(i + 1), Coef(f, i, i - 1, k - 1));
      assert Coef(f, i, i, k) == Coef(f, i, i - 1, k) + Times(f(i), Coef(f, i, i - 2, k - 1));
      assert Coef(f, i + 1, i + 1, k) == Coef(f, i + 1, i, k) + Times(f(i + 1), Coef(f, i + 1, i - 1, k - 1));
    } else {
      CoefFromTheFront(f, i, j - 1, k);
      CoefFromTheFront(f, i, j - 2, k - 1);
      Exchange(Coef(f, i + 1, j - 1, k), Coef(f, i + 2, j - 1, k - 1), Coef(f, i + 1, j - 2, k - 1),
               Coef(f, i + 2, j - 2, k - 2), f(i), f(j));
    }
  }

  lemma {:induction false} CoefStarts(f: nat -> real, i: nat, j: int)
    ensures Coef(f, i, j, 0) == 1.0
    decreases if j < i then 0 else j - i + 1
  {
    if i <= j {
      CoefStarts(f, i, j - 1);
      assert Times(f(j), 0.0) == 0.0;
    }
  }

  // ---------------------------------------------------------------- products of series

  /** The first `l + 1` terms of the `k`-th coefficient of a continuant times a series. */
  ghost function Product(f: nat -> real, i: nat, j: int, g: nat -> real, k: int, l: int): real
    requires l <= k
    decreases l + 1
  {
    if l < 0 then 0.0 else Product(f, i, j, g, k, l - 1) + Times(Coef(f, i, j, l), g(k - l))
  }

  lemma Spread(x: real, u: real, v: real, y: real)
    ensures Times(u + Times(x, v), y) == Times(u, y) + Times(x, Times(v, y))
    ensures Times(y, u + Times(x, v)) == Times(y, u) + Times(x, Times(y, v))
  {
    assert (u + x * v) * y == u * y + x * v * y;
    assert x * v * y == x * (v * y) == x * (y * v);
  }

  lemma Gather(x: real, u: real, v: real)
    ensures Times(x, u + v) == Times(x, u) + Times(x, v)
  {
  }

  /** Unrolling the continuant inside a product. */
  lemma {:induction false} ProductUnrolls(f: nat -> real, i: nat, j: int, g: nat -> real, k: nat, l: int)
    requires i <= j && l <= k
    ensures Product(f, i, j, g, k, l) ==
            Product(f, i + 1, j, g, k, l) + Times(f(i), Product(f, i + 2, j, g, k - 1, l - 1))
    decreases l + 1
  {
    assert Times(f(i), 0.0) == 0.0;
    if l >= 0 {
      ProductUnrolls(f, i, j, g, k, l - 1);
      CoefFromTheFront(f, i, j, l);
      assert Times(0.0, g(k)) == 0.0;
      hide Times, Coef;
      Spread(f(i), Coef(f, i + 1, j, l), Coef(f, i + 2, j, l - 1), g(k - l));
      if l > 0 {
        Gather(f(i), Product(f, i + 2, j, g, k - 1, l - 2), Times(Coef(f, i + 2, j, l - 1), g(k - l)));
      } else {
        NegativeCoef(f, i + 2, j, g(k));
      }
    }
  }

  lemma NegativeCoef(f: nat -> real, i: nat, j: int, y: real)
    ensures Coef(f, i, j, -1) == 0.0 && Times(Coef(f, i, j, -1), y) == 0.0
  {
  }

  /** Splitting the series inside a product. */
  lemma {:induction false} ProductSplits(f: nat -> real, i: nat, j: int, g: nat -> real, u: nat -> real, v: nat -> real,
                                         x: real, k: nat, l: int)
    requires l <= k
    requires forall t: nat :: g(t) == u(t) + if t == 0 then 0.0 else Times(x, v(t - 1))
    ensures Product(f, i, j, g, k, l) ==
            Product(f, i, j, u, k, l) + Times(x, Product(f, i, j, v, k - 1, if l == k then l - 1 else l))
    decreases l + 1
  {
    assert Times(x, 0.0) == 0.0;
    if l >= 0 {
      ProductSplits(f, i, j, g, u, v, x, k, l - 1);
      hide Times, Coef;
      assert g(k - l) == u(k - l) + if k == l then 0.0 else Times(x, v(k - l - 1));
      if l < k {
        Spread(x, u(k - l), v(k - l - 1), Coef(f, i, j, l));
        Gather(x, Product(f, i, j, v, k - 1, l - 1), Times(Coef(f, i, j, l), v(k - l - 1)));
      }
    }
  }

  // ---------------------------------------------------------------- the approximation

  ghost function Series(a: real, b: real, i: nat): nat -> real
    requires a > 0.0
  {
    (k: nat) => Link(a, b, i, k)
  }

  ghost function Factors(a: real, b: real): nat -> real
    requires a > 0.0
  {
    (i: nat) => Factor(a, b, i)
  }

  /** The `k`-th coefficient by which the fraction from `i` to `j` misses the quotient of two neighbouring series. */
  ghost function Missed(a: real, b: real, i: nat, j: int, k: int): real
    requires a > 0.0 && i >= 1
  {
    var f := Factors(a, b);
    if k < 0 then 0.0
    else Product(f, i, j, Series(a, b, i), k, k) - Product(f, i + 1, j, Series(a, b, i - 1), k, k)
  }

  /** One level deeper the miss is the same but for a factor and a power of the argument. */
  lemma MissedDeeper(a: real, b: real, i: nat, j: int, k: int)
    requires a > 0.0 && 1 <= i <= j && k >= 0
    ensures Missed(a, b, i, j, k) == -Times(Factor(a, b, i), Missed(a, b, i + 1, j, k - 1))
  {
    var f, g, h, u, x := Factors(a, b), Series(a, b, i - 1), Series(a, b, i), Series(a, b, i + 1), Factor(a, b, i);
    forall t: nat ensures g(t) == h(t) + if t == 0 then 0.0 else Times(x, u(t - 1)) {
      Links(a, b, i, t);
    }
    ProductUnrolls(f, i, j, h, k, k);
    ProductSplits(f, i + 1, j, g, h, u, x, k, k);
    hide Product, Link, Factor, Times;
    Negated(x, Product(f, i + 2, j, h, k - 1, k - 1), Product(f, i + 1, j, u, k - 1, k - 1));
    assert k == 0 ==> Missed(a, b, i + 1, j, -1) == 0.0;
    NoProduct(f, i + 2, j, h);
    NoProduct(f, i + 1, j, u);
  }

  lemma NoProduct(f: nat -> real, i: nat, j: int, g: nat -> real)
    ensures Product(f, i, j, g, -1, -1) == 0.0
  {
  }

  lemma Negated(x: real, y: real, z: real)
    ensures Times(x, y) - Times(x, z) == -Times(x, z - y) && Times(x, 0.0) == 0.0
  {
  }

  lemma MissedAtStart(a: real, b: real, i: nat, j: int)
    requires a > 0.0 && i >= 1
    ensures Missed(a, b, i, j, 0) == 0.0
  {
    var f := Factors(a, b);
    CoefStarts(f, i, j);
    CoefStarts(f, i + 1, j);
    LinkStarts(a, b, i);
    LinkStarts(a, b, i - 1);
    assert Product(f, i, j, Series(a, b, i), 0, -1) == 0.0;
    assert Product(f, i + 1, j, Series(a, b, i - 1), 0, -1) == 0.0;
  }

  lemma {:induction false} NothingMissed(a: real, b: real, i: nat, j: int, k: nat)
    requires a > 0.0 && 1 <= i <= j + 1 && k <= j + 1 - i
    ensures Missed(a, b, i, j, k) == 0.0
    decreases k
  {
    hide Missed, Factor;
    if k == 0 {
      MissedAtStart(a, b, i, j);
    } else {
      NothingMissed(a, b, i + 1, j, k - 1);
      MissedDeeper(a, b, i, j, k);
      NoNumerator(Factor(a, b, i), 1.0);
      assert Times(Factor(a, b, i), 0.0) == 0.0;
    }
  }

  /** Against the constant series 1 a product is the continuant itself. */
  lemma {:induction false} ProductWithOne(f: nat -> real, i: nat, j: int, g: nat -> real, k: nat, l: int)
    requires l <= k && forall t: nat :: g(t) == if t == 0 then 1.0 else 0.0
    ensures Product(f, i, j, g, k, l) == if l == k then Coef(f, i, j, k) else 0.0
    decreases l + 1
  {
    if l >= 0 {
      ProductWithOne(f, i, j, g, k, l - 1);
      assert Times(Coef(f, i, j, l), 0.0) == 0.0 && Times(Coef(f, i, j, l), 1.0) == Coef(f, i, j, l);
      hide Times, Coef;
    }
  }

  /** The fraction cut after its `j`-th numerator has the power series of the incomplete beta function up to the `j`-th
      power: its denominator times that series is its numerator. */
  lemma FractionMatchesSeries(a: real, b: real, j: nat, k: nat)
    requires a > 0.0 && j >= 1 && k <= j
    ensures Product(Factors(a, b), 1, j, (t: nat) => BetaSeries(a, b, t), k, k) == Coef(Factors(a, b), 2, j, k)
  {
    var f := Factors(a, b);
    NothingMissed(a, b, 1, j, k);
    forall t: nat
      ensures Series(a, b, 1)(t) == BetaSeries(a, b, t) && Series(a, b, 0)(t) == if t == 0 then 1.0 else 0.0
    {
      LinkIsSeries(a, b, t);
    }
    hide BetaSeries, Link;
    ProductWithOne(f, 2, j, Series(a, b, 0), k, k);
    ProductSame(f, 1, j, Series(a, b, 1), (t: nat) => BetaSeries(a, b, t), k, k);
  }

  lemma {:induction false} ProductSame(f: nat -> real, i: nat, j: int, g: nat -> real, h: nat -> real, k: int, l: int)
    requires l <= k && forall t: nat :: g(t) == h(t)
    ensures Product(f, i, j, g, k, l) == Product(f, i, j, h, k, l)
    decreases l + 1
  {
    hide Times, Coef;
    if l >= 0 { ProductSame(f, i, j, g, h, k, l - 1); }
  }

  // ---------------------------------------------------------------- the polynomials are the continuants

  /** The sum of the first `d` terms of a continuant's polynomial. */
  ghost function Value(f: nat -> real, i: nat, j: int, x: real, d: nat): real {
    if d == 0 then 0.0 else Value(f, i, j, x, d - 1) + Times(Coef(f, i, j, d - 1), Power(x, d - 1))
  }

  function Power(x: real, k: nat): real { if k == 0 then 1.0 else Times(x, Power(x, k - 1)) }

  lemma {:induction false} ValueSplits(f: nat -> real, i: nat, j: int, x: real, d: nat)
    requires i <= j
    ensures Value(f, i, j, x, d + 1) ==
            Value(f, i, j - 1, x, d + 1) + Times(Times(f(j), x), Value(f, i, j - 2, x, d))
  {
    if d == 0 {
      assert Value(f, i, j, x, 0) == Value(f, i, j - 1, x, 0) == Value(f, i, j - 2, x, 0) == 0.0;
      CoefStarts(f, i, j);
      CoefStarts(f, i, j - 1);
      assert Times(Times(f(j), x), 0.0) == 0.0;
    } else {
      ValueSplits(f, i, j, x, d - 1);
      assert Coef(f, i, j, d) == Coef(f, i, j - 1, d) + Times(f(j), Coef(f, i, j - 2, d - 1));
      assert Power(x, d) == Times(x, Power(x, d - 1));
      hide Coef, Power, Times;
      PowerSplits(f(j), x, Coef(f, i, j - 1, d), Coef(f, i, j - 2, d - 1), Power(x, d - 1), Power(x, d));
      Gather(Times(f(j), x), Value(f, i, j - 2, x, d - 1), Times(Coef(f, i, j - 2, d - 1), Power(x, d - 1)));
    }
  }

  lemma PowerSplits(y: real, x: real, u: real, v: real, p: real, q: real)
    requires q == Times(x, p)
    ensures Times(u + Times(y, v), q) == Times(u, q) + Times(Times(y, x), Times(v, p))
  {
    assert (u + y * v) * q == u * q + y * v * q;
    assert y * v * (x * p) == (y * x) * (v * p);
  }

  lemma {:induction false} ConstantValue(f: nat -> real, i: nat, j: int, x: real, d: nat)
    requires j < i
    ensures Value(f, i, j, x, d + 1) == 1.0
  {
    if d > 0 {
      ConstantValue(f, i, j, x, d - 1);
      assert Times(0.0, Power(x, d)) == 0.0;
    } else {
      assert Value(f, i, j, x, 0) == 0.0;
      assert Times(1.0, 1.0) == 1.0;
    }
  }

  /** With enough terms the polynomial is the continuant of the numerators at the argument. */
  lemma {:induction false} ContinuantIsValue(n: nat -> real, f: nat -> real, i: nat, j: int, x: real, d: nat)
    requires (forall k: nat :: n(k) == Times(f(k), x)) && d >= j - i + 1
    ensures Continuant(n, i, j) == Value(f, i, j, x, d + 1)
    decreases if j < i then 0 else j - i + 1
  {
    if j < i {
      ConstantValue(f, i, j, x, d);
    } else {
      ContinuantIsValue(n, f, i, j - 1, x, d);
      ContinuantIsValue(n, f, i, j - 2, x, d - 1);
      ValueSplits(f, i, j, x, d);
    }
  }

  /** The numerators of the source are the factors times the argument. */
  lemma NumeratorsScale(a: real, b: real, x: real, k: nat)
    requires a > 0.0
    ensures Numerators(a, b, x)(k) == Times(Factors(a, b)(k), x)
  {
    assert Times(0.0, x) == 0.0;
    hide Times;
    var m := (k / 2) as real;
    if k > 0 {
      if k % 2 == 0 { EvenScales(a, b, x, m); } else { OddScales(a, b, x, m); }
    }
  }

  lemma EvenScales(a: real, b: real, x: real, m: real)
    requires a > 0.0 && m >= 1.0
    ensures Even(a, b, x, m) == Times(Even(a, b, 1.0, m), x)
  {
    ProductPositive(a + 2.0 * m - 1.0, a + 2.0 * m, (a + 2.0 * m - 1.0) * (a + 2.0 * m));
    ScaledQuotient(m * (b - m), x, (a + 2.0 * m - 1.0) * (a + 2.0 * m));
  }

  lemma OddScales(a: real, b: real, x: real, m: real)
    requires a > 0.0 && m >= 0.0
    ensures Odd(a, b, x, m) == Times(Odd(a, b, 1.0, m), x)
  {
    var p, q := (a + m) * (a + b + m), (a + 2.0 * m) * (a + 2.0 * m + 1.0);
    ProductPositive(a + 2.0 * m, a + 2.0 * m + 1.0, q);
    ScaledQuotient(-p, x, q);
    assert -(p * x) == -p * x && -(p * 1.0) == -p * 1.0;
  }

  lemma ScaledQuotient(p: real, x: real, q: real)
    requires q > 0.0
    ensures p * x / q == Times(p * 1.0 / q, x)
  {
    var u, v := p * x / q, p * 1.0 / q;
    assert u * q == p * x && v * q == p;
    assert (v * x) * q == (v * q) * x;
    Cancel(u, v * x, q);
  }

  /** The value of the loop is the quotient of the two polynomials. */
  lemma FractionIsQuotient(a: real, b: real, x: real, j: nat)
    requires a > 0.0 && j >= 1
    ensures var n, f := Numerators(a, b, x), Factors(a, b);
            && Continuant(n, 1, j) == Value(f, 1, j, x, j + 1) && Continuant(n, 2, j) == Value(f, 2, j, x, j + 1)
  {
    var n, f := Numerators(a, b, x), Factors(a, b);
    forall k: nat ensures n(k) == Times(f(k), x) {
      NumeratorsScale(a, b, x, k);
    }
    hide Numerator, Factor, Times;
    ContinuantIsValue(n, f, 1, j, x, j);
    ContinuantIsValue(n, f, 2, j, x, j);
  }
}
