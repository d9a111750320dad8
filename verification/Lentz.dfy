// The continued fraction of the incomplete beta function in internal/eval/ab_runner.go: Lentz's forward loop computes
// the truncated fraction, and where the loop is entered its denominators are positive and its guards do not fire.
module Lentz {
  import opened Reals

  const EPSILON: real := 0.00000000000001
  const MAX_ROUNDS: nat := 200

  // ---------------------------------------------------------------- a continued fraction and its denominators

  /** The continuant of the numerators `i` to `j`: 1 + n(i) / (1 + n(i + 1) / (... (1 + n(j)))) is the one from `i` over
      the one from `i + 1`. */
  ghost function Continuant(n: nat -> real, i: nat, j: int): real
    decreases if j < i then 0 else j - i + 1
  {
    if j < i then 1.0 else Continuant(n, i, j - 1) + Times(n(j), Continuant(n, i, j - 2))
  }

  lemma Exchange(p: real, q: real, r: real, s: real, u: real, v: real)
    ensures (p + Times(u, q)) + Times(v, r + Times(u, s)) == (p + Times(v, r)) + Times(u, q + Times(v, s))
  {
    assert v * (r + u * s) == v * r + v * (u * s);
    assert u * (q + v * s) == u * q + u * (v * s);
    assert v * (u * s) == u * (v * s);
  }

  /** Continuants can be unrolled from the front as well. */
  lemma {:induction false} FromTheFront(n: nat -> real, i: nat, j: int)
    requires i <= j
    ensures Continuant(n, i, j) == Continuant(n, i + 1, j) + Times(n(i), Continuant(n, i + 2, j))
    decreases j
  {
    hide Times;
    if j == i {
      assert Continuant(n, i, i - 1) == Continuant(n, i, i - 2) == 1.0;
    } else if j == i + 1 {
      assert Continuant(n, i, i - 1) == Continuant(n, i, i - 2) == 1.0;
      assert Continuant(n, i, i) == 1.0 + Times(n(i), 1.0);
      assert Continuant(n, i + 1, i) == Continuant(n, i + 1, i - 1) == 1.0;
    } else {
      FromTheFront(n, i, j - 1);
      FromTheFront(n, i, j - 2);
      Exchange(Continuant(n, i + 1, j - 1), Continuant(n, i + 2, j - 1), Continuant(n, i + 1, j - 2),
               Continuant(n, i + 2, j - 2), n(i), n(j));
    }
  }

  ghost predicate PositiveTo(n: nat -> real, i: nat, j: int) {
    forall k: nat {:trigger Continuant(n, k, j)} :: i <= k <= j ==> Continuant(n, k, j) > 0.0
  }

  /** 1 + n(i) / (1 + n(i + 1) / (... (1 + n(j)))), from the inside out. */
  ghost function Nested(n: nat -> real, i: nat, j: int): (r: real)
    requires PositiveTo(n, i + 1, j)
    ensures Times(r, Continuant(n, i + 1, j)) == Continuant(n, i, j)
    decreases if j < i then 0 else j - i + 1
  {
    if j < i then 1.0
    else
      var t := Nested(n, i + 1, j);
      FromTheFront(n, i, j);
      Deeper(n(i), t, Continuant(n, i + 1, j), Continuant(n, i + 2, j), Continuant(n, i, j));
      1.0 + n(i) / t
  }

  lemma NotZero(x: real, y: real)
    requires Times(x, y) != 0.0
    ensures x != 0.0
  {
  }

  lemma Deeper(u: real, t: real, k: real, l: real, m: real)
    requires Times(t, l) == k > 0.0 && m == k + Times(u, l)
    ensures t != 0.0 && Times(1.0 + u / t, k) == m
  {
    NotZero(t, l);
    var q := u / t;
    assert q * t == u;
    assert (1.0 + q) * k == k + q * (t * l);
    assert q * (t * l) == (q * t) * l;
  }

  // ---------------------------------------------------------------- Lentz's loop

  datatype State = State(c: real, d: real, f: real)

  /** What the guards put in place of a value too close to zero. */
  function Guarded(y: real): (r: real)
    ensures r != 0.0
  {
    if -EPSILON < y < EPSILON then EPSILON else y
  }

  function First(num: real): State {
    State(1.0, 1.0 / Guarded(1.0 + num), 1.0 / Guarded(1.0 + num))
  }

  /** Half a round. */
  function Half(s: State, num: real): State
    requires s.c != 0.0
  {
    var d := 1.0 / Guarded(1.0 + num * s.d);
    var c := Guarded(1.0 + num / s.c);
    State(c, d, s.f * (c * d))
  }

  /** The state after the numerators 1 to `j`. */
  function After(n: nat -> real, j: nat): (s: State)
    requires j >= 1
    ensures s.c != 0.0
  {
    if j == 1 then First(n(1)) else Half(After(n, j - 1), n(j))
  }

  /** No ratio of neighbouring denominators is below the guard. */
  ghost predicate Clear(n: nat -> real, j: nat) {
    forall k: nat {:trigger Ratio(n, 1, k)} {:trigger Ratio(n, 2, k)} :: 1 <= k <= j ==>
      Ratio(n, 1, k) && Ratio(n, 2, k)
  }

  ghost predicate Ratio(n: nat -> real, i: nat, k: nat) {
    Continuant(n, i, k) > 0.0 && Continuant(n, i, k) >= EPSILON * Continuant(n, i, k - 1)
  }

  ghost predicate IsConvergent(n: nat -> real, j: nat, s: State) {
    && Times(s.d, Continuant(n, 1, j)) == Continuant(n, 1, j - 1)
    && Times(s.c, Continuant(n, 2, j - 1)) == Continuant(n, 2, j)
    && Times(s.f, Continuant(n, 1, j)) == Continuant(n, 2, j)
  }

  /** One half round on numbers: `p0, p1, p2` and `q0, q1, q2` are neighbouring denominators. */
  lemma HalfRound(s: State, num: real, p0: real, p1: real, p2: real, q0: real, q1: real, q2: real)
    requires Times(s.d, p1) == p0 && Times(s.c, q0) == q1 && Times(s.f, p1) == q1
    requires p2 == p1 + Times(num, p0) && q2 == q1 + Times(num, q0)
    requires p1 > 0.0 && p2 >= EPSILON * p1 && p2 > 0.0 && q0 > 0.0 && q1 > 0.0 && q2 > 0.0 && q2 >= EPSILON * q1
    ensures s.c != 0.0
    ensures var t := Half(s, num); Times(t.d, p2) == p1 && Times(t.c, q1) == q2 && Times(t.f, p2) == q2
  {
    NotZero(s.c, q0);
    var y, z := 1.0 + num * s.d, 1.0 + num / s.c;
    assert y * p1 == p2 by {
      assert num * s.d * p1 == num * (s.d * p1);
    }
    assert z * q1 == q2 by {
      assert (num / s.c) * (s.c * q0) == (num / s.c * s.c) * q0;
      assert num / s.c * s.c == num;
    }
    Unguarded(y, p1, p2);
    Unguarded(z, q1, q2);
    var d := 1.0 / y;
    assert d * y == 1.0;
    assert d * p2 == (d * y) * p1;
    assert s.f * (z * d) * p2 == z * (s.f * (d * p2));
  }

  lemma Unguarded(y: real, p: real, q: real)
    requires y * p == q && p > 0.0 && q >= EPSILON * p
    ensures y >= EPSILON && Guarded(y) == y
  {
    if y < EPSILON {
      ProductPositive(EPSILON - y, p, (EPSILON - y) * p);
    }
  }

  lemma FirstRound(n: nat -> real)
    requires Clear(n, 1)
    ensures IsConvergent(n, 1, After(n, 1))
  {
    assert Ratio(n, 1, 1);
    assert Continuant(n, 1, 1) == 1.0 + Times(n(1), 1.0) == 1.0 + n(1);
    assert Continuant(n, 2, 1) == Continuant(n, 2, 0) == 1.0;
    var y := 1.0 + n(1);
    assert y >= EPSILON;
    assert (1.0 / y) * y == 1.0;
  }

  lemma {:induction false} AfterIsConvergent(n: nat -> real, j: nat)
    requires j >= 1 && Clear(n, j)
    ensures IsConvergent(n, j, After(n, j))
  {
    if j == 1 {
      FirstRound(n);
    } else {
      AfterIsConvergent(n, j - 1);
      hide Times, Half;
      assert Ratio(n, 1, j - 1) && Ratio(n, 2, j - 1) && Ratio(n, 1, j) && Ratio(n, 2, j);
      assert j > 2 ==> Ratio(n, 2, j - 2);
      HalfRound(After(n, j - 1), n(j), Continuant(n, 1, j - 2), Continuant(n, 1, j - 1), Continuant(n, 1, j),
                Continuant(n, 2, j - 2), Continuant(n, 2, j - 1), Continuant(n, 2, j));
    }
  }

  /** When no ratio is below the guard, the loop has the truncated fraction after every half round. */
  lemma ForwardIsNested(n: nat -> real, j: nat)
    requires j >= 1 && Clear(n, j) && PositiveTo(n, 1, j)
    ensures Times(After(n, j).f, Nested(n, 1, j)) == 1.0
  {
    AfterIsConvergent(n, j);
    assert Ratio(n, 1, j) && Ratio(n, 2, j);
    Inverse(After(n, j).f, Nested(n, 1, j), Continuant(n, 1, j), Continuant(n, 2, j));
  }

  lemma Inverse(f: real, r: real, p: real, q: real)
    requires Times(f, p) == q && Times(r, q) == p && q > 0.0
    ensures Times(f, r) == 1.0
  {
    assert f * (r * q) == (f * r) * q;
    Cancel(f * r, 1.0, q);
  }

  // ---------------------------------------------------------------- chains

  /** Each numerator is bounded by a chain of numbers in (0, 1]. */
  ghost predicate Chained(n: nat -> real, low: nat -> real) {
    && low(0) <= 1.0
    && forall j: nat {:trigger n(j)} :: j >= 1 ==>
         0.0 < low(j - 1) && 0.0 < low(j) <= 1.0 && -n(j) <= Times(low(j - 1), 1.0 - low(j))
  }

  /** Then all denominators are positive, and each is at least the chain's share of the one before. */
  lemma {:induction false} ChainKeepsPositive(n: nat -> real, low: nat -> real, i: nat, j: nat)
    requires Chained(n, low) && 1 <= i <= j + 1
    ensures Continuant(n, i, j) > 0.0 && Continuant(n, i, j) >= Times(low(j), Continuant(n, i, j - 1))
  {
    if j < i {
      assert n(j) == n(j) && n(i) == n(i);
      assert Times(low(j), 1.0) == low(j);
    } else {
      ChainKeepsPositive(n, low, i, j - 1);
      var a := n(j);
      if i <= j - 1 { ChainKeepsPositive(n, low, i, j - 2); }
      hide Times;
      Descend(n(j), low(j - 1), low(j), Continuant(n, i, j - 2), Continuant(n, i, j - 1), Continuant(n, i, j));
    }
  }

  lemma Descend(num: real, l0: real, l1: real, k0: real, k1: real, k2: real)
    requires 0.0 < l1 <= 1.0 && -num <= Times(l0, 1.0 - l1) && k0 > 0.0 && k1 > 0.0 && k1 >= Times(l0, k0)
    requires k2 == k1 + Times(num, k0)
    ensures k2 > 0.0 && k2 >= Times(l1, k1)
  {
    assert (num + l0 * (1.0 - l1)) * k0 >= 0.0;
    assert (1.0 - l1) * (k1 - l0 * k0) >= 0.0;
    assert l0 * (1.0 - l1) * k0 == (1.0 - l1) * (l0 * k0);
    assert k2 - l1 * k1 == (num + l0 * (1.0 - l1)) * k0 + (1.0 - l1) * (k1 - l0 * k0);
    ProductPositive(l1, k1, l1 * k1);
  }

  // ---------------------------------------------------------------- the fraction of the beta function

  function Even(a: real, b: real, x: real, m: real): real
    requires a > 0.0 && m >= 1.0
  {
    m * (b - m) * x / ((a + 2.0 * m - 1.0) * (a + 2.0 * m))
  }

  function Odd(a: real, b: real, x: real, m: real): real
    requires a > 0.0 && m >= 0.0
  {
    -((a + m) * (a + b + m) * x) / ((a + 2.0 * m) * (a + 2.0 * m + 1.0))
  }

  function Numerator(a: real, b: real, x: real, j: nat): real
    requires a > 0.0
  {
    if j == 0 then 0.0
    else if j % 2 == 0 then Even(a, b, x, (j / 2) as real)
    else Odd(a, b, x, (j / 2) as real)
  }

  function Numerators(a: real, b: real, x: real): nat -> real
    requires a > 0.0
  {
    (j: nat) => Numerator(a, b, x, j)
  }

  /** Where the caller reflects instead of entering the fraction. */
  function Threshold(a: real, b: real): real
    requires a > 0.0 && b > 0.0
  {
    (a + 1.0) / (a + b + 2.0)
  }

  function EvenLow(a: real, m: real): real
    requires a > 0.0 && m >= 0.0
  {
    (a + m) / (a + 2.0 * m)
  }

  function OddLow(a: real, b: real, x: real, m: real): real
    requires a > 0.0 && m >= 0.0
  {
    1.0 - x * (a + b + m) / (a + 2.0 * m + 1.0)
  }

  /** The chain behind the numerators. */
  function Low(a: real, b: real, x: real, j: nat): real
    requires a > 0.0
  {
    var m := (j / 2) as real;
    if j % 2 == 0 then EvenLow(a, m) else OddLow(a, b, x, m)
  }

  lemma OddLink(a: real, b: real, x: real, m: real)
    requires a > 0.0 && m >= 0.0
    ensures -Odd(a, b, x, m) == Times(EvenLow(a, m), 1.0 - OddLow(a, b, x, m))
  {
    QuotientProduct(a + m, a + 2.0 * m, x * (a + b + m), a + 2.0 * m + 1.0);
    var p, q := (a + m) * (a + b + m) * x, (a + 2.0 * m) * (a + 2.0 * m + 1.0);
    assert (a + m) * (x * (a + b + m)) == p;
    Negative(p, q);
  }

  lemma Negative(p: real, q: real)
    requires q != 0.0
    ensures -((-p) / q) == p / q
  {
  }

  lemma QuotientProduct(p: real, q: real, r: real, s: real)
    requires q > 0.0 && s > 0.0
    ensures q * s > 0.0 && Times(p / q, r / s) == (p * r) / (q * s)
  {
    ProductPositive(q, s, q * s);
    var u, v, w := p / q, r / s, (p * r) / (q * s);
    assert u * q == p && v * s == r && w * (q * s) == p * r;
    assert (u * v) * (q * s) == (u * q) * (v * s);
    Cancel(u * v, w, q * s);
  }

  lemma QuotientBack(p: real, q: real)
    requires q > 0.0
    ensures p / q * q == p
  {
  }

  lemma EvenLowIs(a: real, m: real, s: real)
    requires a > 0.0 && m >= 0.0 && s == a + 2.0 * m
    ensures EvenLow(a, m) * s == a + m
  {
    QuotientBack(a + m, s);
  }

  lemma OddLowIs(a: real, b: real, x: real, m: real, q: real, t: real)
    requires a > 0.0 && m >= 0.0 && q == a + 2.0 * m + 1.0 && t == a + b + m
    ensures (1.0 - OddLow(a, b, x, m)) * q == x * t
  {
    QuotientBack(x * t, q);
  }

  lemma EvenIs(a: real, b: real, x: real, m: real, q: real, s: real)
    requires a > 0.0 && m >= 1.0 && q == a + 2.0 * m - 1.0 && s == a + 2.0 * m
    ensures q * s > 0.0 && Even(a, b, x, m) * (q * s) == m * (b - m) * x
  {
    ProductPositive(q, s, q * s);
    QuotientBack(m * (b - m) * x, q * s);
  }

  lemma EvenLink(a: real, b: real, x: real, m: real)
    requires a > 0.0 && b > 0.0 && 0.0 <= x <= 1.0 && m >= 1.0
    ensures -Even(a, b, x, m) <= Times(OddLow(a, b, x, m - 1.0), 1.0 - EvenLow(a, m))
  {
    hide Even, OddLow, EvenLow;
    var q, s, t := a + 2.0 * m - 1.0, a + 2.0 * m, a + b + m - 1.0;
    EvenIs(a, b, x, m, q, s);
    EvenLowIs(a, m, s);
    OddLowIs(a, b, x, m - 1.0, q, t);
    EvenGap(b, x, m, 1.0 - OddLow(a, b, x, m - 1.0), EvenLow(a, m), Even(a, b, x, m), q, s, t);
  }

  lemma EvenGap(b: real, x: real, m: real, u: real, v: real, w: real, q: real, s: real, t: real)
    requires 0.0 <= x <= 1.0 && m >= 1.0 && q > 0.0 && q * s > 0.0 && q == t - b + m
    requires u * q == x * t && v * s == s - m && w * (q * s) == m * (b - m) * x
    ensures -w <= Times(1.0 - u, 1.0 - v)
  {
    var y := (1.0 - u) * (1.0 - v);
    assert y * (q * s) == ((1.0 - u) * q) * ((1.0 - v) * s);
    assert (1.0 - u) * q == q - x * t && (1.0 - v) * s == m;
    GapProduct(b, x, m, q, t);
    NotNegative(y + w, q * s, m * (1.0 - x) * q);
  }

  lemma GapProduct(b: real, x: real, m: real, q: real, t: real)
    requires 0.0 <= x <= 1.0 && m >= 1.0 && q > 0.0 && q == t - b + m
    ensures (q - x * t) * m + m * (b - m) * x == m * (1.0 - x) * q >= 0.0
  {
    assert x * t == x * q + x * (b - m);
    assert m * (1.0 - x) >= 0.0;
  }

  lemma NotNegative(y: real, k: real, g: real)
    requires k > 0.0 && y * k == g && g >= 0.0
    ensures y >= 0.0
  {
  }

  /** How far the odd links of the chain stay away from zero where the fraction is entered. */
  lemma OddFloor(a: real, b: real, x: real, m: real)
    requires a > 0.0 && b > 0.0 && 0.0 < x <= Threshold(a, b) && (m == 0.0 || m >= 1.0)
    ensures var l := OddLow(a, b, x, m);
            l <= 1.0 && l >= if m == 0.0 then 2.0 / (a + b + 2.0) else 1.0 / (a + 3.0)
  {
    hide OddLow;
    var n, q, t := a + b + 2.0, a + 2.0 * m + 1.0, a + b + m;
    var u := 1.0 - OddLow(a, b, x, m);
    OddLowIs(a, b, x, m, q, t);
    QuotientBack(a + 1.0, n);
    Scaled(x, Threshold(a, b), n, a + 1.0);
    ProductPositive(x, t, x * t);
    SignOfProduct(u, q, x * t);
    if m == 0.0 {
      QuotientBack(2.0, n);
      StartFloor(a + 1.0, n, x, u, 2.0 / n);
    } else {
      QuotientBack(1.0, a + 3.0);
      LaterGap(a + 1.0, n, x, m);
      LaterFloor(a, m, u, 1.0 / (a + 3.0));
    }
  }

  /** The first denominator, which the loop divides by before its first round. */
  lemma FirstDenominator(a: real, b: real, x: real)
    requires a > 0.0 && b > 0.0 && 0.0 < x <= Threshold(a, b)
    ensures 1.0 - (a + b) * x / (a + 1.0) >= 2.0 / (a + b + 2.0)
  {
    hide Threshold;
    OddFloor(a, b, x, 0.0);
    assert x * (a + b) == (a + b) * x;
  }

  lemma Scaled(x: real, t: real, n: real, c: real)
    requires x <= t && n > 0.0 && t * n == c
    ensures x * n <= c
  {
    assert (t - x) * n >= 0.0;
  }

  lemma QuotientPositive(p: real, q: real)
    requires p > 0.0 && q > 0.0
    ensures p / q > 0.0
  {
  }

  lemma StartProducts(c: real, n: real, x: real, u: real, r: real, w: real, p: real)
    requires w == c * n && p == x * n && u * c == x * (n - 2.0) && r * n == 2.0
    ensures u * w == p * (n - 2.0) && r * w == 2.0 * c
  {
    assert u * w == (u * c) * n;
    assert (x * (n - 2.0)) * n == p * (n - 2.0);
    assert r * w == (r * n) * c;
  }

  lemma StartFloor(c: real, n: real, x: real, u: real, r: real)
    requires c > 0.0 && n > 2.0 && x * n <= c && u * c == x * (n - 2.0) && r * n == 2.0
    ensures 1.0 - u >= r
  {
    var w, p := c * n, x * n;
    StartProducts(c, n, x, u, r, w, p);
    ProductPositive(c, n, w);
    Rest(c, n, u, r, w, p);
    NotNegative(1.0 - u - r, w, (c - p) * (n - 2.0));
  }

  lemma Rest(c: real, n: real, u: real, r: real, w: real, p: real)
    requires w == c * n && u * w == p * (n - 2.0) && r * w == 2.0 * c && p <= c && n > 2.0
    ensures (1.0 - u - r) * w == (c - p) * (n - 2.0) >= 0.0
  {
    assert (1.0 - u - r) * w == w - u * w - r * w;
    assert (c - p) * (n - 2.0) == c * n - 2.0 * c - p * (n - 2.0);
    Product(c - p, n - 2.0);
  }

  lemma BelowOne(x: real, n: real, c: real)
    requires x * n <= c < n && n > 0.0
    ensures x < 1.0
  {
    assert x >= 1.0 ==> (x - 1.0) * n >= 0.0;
  }

  lemma LaterGap(c: real, n: real, x: real, m: real)
    requires 0.0 < c < n && m >= 1.0 && x > 0.0 && x * n <= c && c > 1.0
    ensures x * (n - 2.0 + m) <= c + m
  {
    BelowOne(x, n, c);
    assert x * (n - 2.0 + m) == x * n + x * (m - 2.0);
    if m > 2.0 {
      Product(1.0 - x, m - 2.0);
      assert (1.0 - x) * (m - 2.0) == m - 2.0 - x * (m - 2.0);
    } else {
      Product(x, 2.0 - m);
      assert x * (2.0 - m) == -(x * (m - 2.0));
    }
  }

  lemma LaterFloor(a: real, m: real, u: real, r: real)
    requires a > 0.0 && m >= 1.0 && u * (a + 2.0 * m + 1.0) <= a + 1.0 + m && r * (a + 3.0) == 1.0
    ensures 1.0 - u >= r
  {
    var q := a + 2.0 * m + 1.0;
    assert (1.0 - u) * q >= m;
    assert r > 0.0;
    assert m * (a + 3.0) - q == (m - 1.0) * (a + 1.0);
    assert (m - 1.0) * (a + 1.0) >= 0.0;
    assert r * (m * (a + 3.0) - q) >= 0.0;
    assert r * (m * (a + 3.0)) == m;
    NotNegative(1.0 - u - r, q, (1.0 - u - r) * q);
  }

  /** The smallest ratio of neighbouring denominators. */
  function Floor(a: real, b: real): real
    requires a > 0.0 && b > 0.0
  {
    if 2.0 / (a + b + 2.0) < 1.0 / (a + 3.0) then 2.0 / (a + b + 2.0) else 1.0 / (a + 3.0)
  }

  lemma LowWithin(a: real, b: real, x: real, j: nat)
    requires a > 0.0 && b > 0.0 && 0.0 < x <= Threshold(a, b)
    ensures 0.0 < Floor(a, b) <= Low(a, b, x, j) <= 1.0
  {
    var m := (j / 2) as real;
    QuotientPositive(2.0, a + b + 2.0);
    QuotientPositive(1.0, a + 3.0);
    hide Threshold, EvenLow, OddLow;
    if j % 2 == 1 {
      OddFloor(a, b, x, m);
    } else {
      EvenFloor(a, m);
    }
  }

  lemma EvenFloor(a: real, m: real)
    requires a > 0.0 && m >= 0.0
    ensures 1.0 / (a + 3.0) <= EvenLow(a, m) <= 1.0
  {
    var v, r := EvenLow(a, m), 1.0 / (a + 3.0);
    assert v * (a + 2.0 * m) == a + m && r * (a + 3.0) == 1.0;
    NotNegative(1.0 - v, a + 2.0 * m, m);
    NotNegative(v - 0.5, a + 2.0 * m, 0.5 * a);
    assert (0.5 - r) * (a + 3.0) == 0.5 * (a + 3.0) - 1.0;
    NotNegative(0.5 - r, a + 3.0, 0.5 * a + 0.5);
  }

  lemma ThresholdBelowOne(a: real, b: real)
    requires a > 0.0 && b > 0.0
    ensures 0.0 < Threshold(a, b) < 1.0
  {
    assert Threshold(a, b) * (a + b + 2.0) == a + 1.0;
  }

  lemma Links(a: real, b: real, x: real, j: nat)
    requires a > 0.0 && b > 0.0 && 0.0 < x <= Threshold(a, b) && j >= 1
    ensures -Numerator(a, b, x, j) <= Times(Low(a, b, x, j - 1), 1.0 - Low(a, b, x, j))
  {
    hide Times, Even, Odd, Threshold, EvenLow, OddLow;
    ThresholdBelowOne(a, b);
    var m := (j / 2) as real;
    if j % 2 == 1 {
      OddLink(a, b, x, m);
    } else {
      assert ((j - 1) / 2) as real == m - 1.0;
      EvenLink(a, b, x, m);
    }
  }

  function Lows(a: real, b: real, x: real): nat -> real
    requires a > 0.0
  {
    (j: nat) => Low(a, b, x, j)
  }

  lemma LowsChain(a: real, b: real, x: real)
    requires a > 0.0 && b > 0.0 && 0.0 < x <= Threshold(a, b)
    ensures Chained(Numerators(a, b, x), Lows(a, b, x))
  {
    hide Threshold, Numerator, Low, Floor;
    var n, low := Numerators(a, b, x), Lows(a, b, x);
    forall k: nat
      ensures 0.0 < low(k) <= 1.0 && (k >= 1 ==> 0.0 < low(k - 1) && -n(k) <= Times(low(k - 1), 1.0 - low(k)))
    {
      LowWithin(a, b, x, k);
      if k >= 1 {
        LowWithin(a, b, x, k - 1);
        Links(a, b, x, k);
      }
    }
  }

  /** Where the fraction is entered, every denominator is positive and no ratio of neighbouring ones is below the
      floor, whatever the numerators' signs. */
  lemma DenominatorsPositive(a: real, b: real, x: real, i: nat, j: nat)
    requires a > 0.0 && b > 0.0 && 0.0 < x <= Threshold(a, b) && 1 <= i <= j + 1
    ensures var n := Numerators(a, b, x);
            Continuant(n, i, j) > 0.0 && Continuant(n, i, j) >= Times(Floor(a, b), Continuant(n, i, j - 1))
  {
    hide Threshold, Numerator, Low, Floor;
    var n := Numerators(a, b, x);
    var low := Lows(a, b, x);
    LowsChain(a, b, x);
    hide Chained, Continuant;
    ChainKeepsPositive(n, low, i, j);
    LowWithin(a, b, x, j);
    if i <= j { ChainKeepsPositive(n, low, i, j - 1); }
    hide Times;
    Shrink(Floor(a, b), low(j), Continuant(n, i, j - 1));
  }

  lemma Shrink(f: real, l: real, k: real)
    requires f <= l && k > 0.0
    ensures Times(f, k) <= Times(l, k)
  {
    assert (l - f) * k >= 0.0;
  }

  // ---------------------------------------------------------------- the loop

  /** The last half round left the value as it was, up to the tolerance. */
  predicate Still(s: State) { -EPSILON < s.c * s.d - 1.0 < EPSILON }

  predicate Settled(n: nat -> real, k: nat)
    requires k >= 1
  {
    Still(After(n, 2 * k + 1))
  }

  /** Round `k` is the first one that settles, or the last one allowed. */
  ghost predicate Ends(n: nat -> real, k: nat) {
    && 1 <= k <= MAX_ROUNDS && (k == MAX_ROUNDS || Settled(n, k))
    && forall i {:trigger Settled(n, i)} :: 1 <= i < k ==> !Settled(n, i)
  }

  lemma {:induction false} SomeRoundEnds(n: nat -> real, i: nat) returns (k: nat)
    requires 1 <= i <= MAX_ROUNDS && forall l {:trigger Settled(n, l)} :: 1 <= l < i ==> !Settled(n, l)
    ensures Ends(n, k)
    decreases MAX_ROUNDS - i
  {
    hide Settled;
    if i == MAX_ROUNDS || Settled(n, i) {
      k := i;
    } else {
      k := SomeRoundEnds(n, i + 1);
    }
  }

  lemma OneRoundEnds(n: nat -> real, k: nat, l: nat)
    requires Ends(n, k) && Ends(n, l)
    ensures k == l
  {
    hide Settled;
  }

  /** How many rounds the loop takes. */
  ghost function Rounds(n: nat -> real): (k: nat)
    ensures Ends(n, k)
  {
    assert exists k: nat :: Ends(n, k) by {
      var k := SomeRoundEnds(n, 1);
    }
    var k: nat :| Ends(n, k);
    k
  }

  ghost function Value(a: real, b: real, x: real): real
    requires a > 0.0
  {
    After(Numerators(a, b, x), 2 * Rounds(Numerators(a, b, x)) + 1).f
  }

  lemma AfterRound(n: nat -> real, i: nat)
    requires i >= 1
    ensures After(n, 2 * i + 1) == Half(Half(After(n, 2 * i - 1), n(2 * i)), n(2 * i + 1))
  {
    hide Half, First;
  }

  lemma NumeratorsOf(a: real, b: real, x: real, i: nat)
    requires a > 0.0 && i >= 1
    ensures Numerators(a, b, x)(2 * i) == Even(a, b, x, i as real)
    ensures Numerators(a, b, x)(2 * i + 1) == Odd(a, b, x, i as real)
  {
    hide Even, Odd;
    assert (2 * i) / 2 == i == (2 * i + 1) / 2;
  }

  /** Half a round, as the loop writes it. */
  method Advance(s: State, num: real) returns (t: State)
    requires s.c != 0.0
    ensures t == Half(s, num) && t.c != 0.0
  {
    var d := 1.0 + num * s.d;
    if -EPSILON < d < EPSILON {
      d := EPSILON;
    }
    var c := 1.0 + num / s.c;
    if -EPSILON < c < EPSILON {
      c := EPSILON;
    }
    d := 1.0 / d;
    t := State(c, d, s.f * (c * d));
  }

  method Begin(a: real, b: real, x: real) returns (s: State)
    requires a > 0.0
    ensures s == After(Numerators(a, b, x), 1)
  {
    var d := 1.0 - (a + b) * x / (a + 1.0);
    if -EPSILON < d < EPSILON {
      d := EPSILON;
    }
    d := 1.0 / d;
    s := State(1.0, d, d);
    FirstState(a, b, x, d);
  }

  method ContinuedFraction(a: real, b: real, x: real) returns (f: real)
    requires a > 0.0
    ensures f == Value(a, b, x)
  {
    var s := Begin(a, b, x);
    s := Iterate(a, b, x, s);
    f := s.f;
  }

  /** Rounds until one settles or the last one is done. */
  method Iterate(a: real, b: real, x: real, first: State) returns (s: State)
    requires a > 0.0 && first == After(Numerators(a, b, x), 1)
    ensures s == After(Numerators(a, b, x), 2 * Rounds(Numerators(a, b, x)) + 1)
  {
    ghost var n := Numerators(a, b, x);
    hide Numerators, After, Still, NoneBefore, Ends;
    s := first;
    var i := 1;
    while i <= MAX_ROUNDS
      invariant 1 <= i <= MAX_ROUNDS + 1 && s == After(n, 2 * i - 1)
      invariant NoneBefore(n, i)
    {
      s := Round(a, b, x, i, s);
      if Still(s) {
        EndsAt(n, i);
        return;
      }
      NoneBeforeNext(n, i);
      i := i + 1;
    }
    EndsAt(n, MAX_ROUNDS);
  }

  ghost predicate NoneBefore(n: nat -> real, i: nat) {
    forall l {:trigger Settled(n, l)} :: 1 <= l < i ==> !Settled(n, l)
  }

  lemma NoneBeforeNext(n: nat -> real, i: nat)
    requires i >= 1 && NoneBefore(n, i) && !Still(After(n, 2 * i + 1))
    ensures NoneBefore(n, i + 1)
  {
    hide After, Still;
  }

  lemma EndsAt(n: nat -> real, i: nat)
    requires 1 <= i <= MAX_ROUNDS && (NoneBefore(n, i) || NoneBefore(n, i + 1))
    requires i == MAX_ROUNDS || Still(After(n, 2 * i + 1))
    ensures i == Rounds(n)
  {
    hide After, Still;
    assert Ends(n, i);
    OneRoundEnds(n, i, Rounds(n));
  }

  /** Both halves of a round. */
  method Round(a: real, b: real, x: real, i: nat, s: State) returns (t: State)
    requires a > 0.0 && i >= 1 && s == After(Numerators(a, b, x), 2 * i - 1)
    ensures t == After(Numerators(a, b, x), 2 * i + 1)
  {
    AfterRound(Numerators(a, b, x), i);
    NumeratorsOf(a, b, x, i);
    hide Half, Numerators, Even, Odd, After;
    var m := i as real;
    assert m >= 1.0;
    t := Advance(s, Even(a, b, x, m));
    t := Advance(t, Odd(a, b, x, m));
  }

  lemma FirstNumerator(a: real, b: real, x: real)
    requires a > 0.0
    ensures Odd(a, b, x, 0.0) == -((a + b) * x / (a + 1.0))
  {
    var p, q := (a + b) * x, a + 1.0;
    assert (a + 0.0) * (a + b + 0.0) * x == a * p;
    assert (a + 2.0 * 0.0) * (a + 2.0 * 0.0 + 1.0) == a * q;
    QuotientProduct(a, a, p, q);
    assert a / a == 1.0;
    Negative(a * p, a * q);
  }

  lemma FirstState(a: real, b: real, x: real, d: real)
    requires a > 0.0 && d == 1.0 / Guarded(1.0 - (a + b) * x / (a + 1.0))
    ensures After(Numerators(a, b, x), 1) == State(1.0, d, d)
  {
    FirstNumerator(a, b, x);
    hide Odd;
  }

  // ---------------------------------------------------------------- what the loop returns

  /** The loop returned the truncated fraction of as many rounds as it took. */
  ghost predicate IsFraction(a: real, b: real, x: real)
    requires a > 0.0
  {
    var n := Numerators(a, b, x);
    var j := 2 * Rounds(n) + 1;
    PositiveTo(n, 1, j) && Times(Value(a, b, x), Nested(n, 1, j)) == 1.0
  }

  lemma FloorClears(a: real, b: real)
    requires a > 0.0 && b > 0.0 && a + b + 3.0 <= 100000000000000.0
    ensures Floor(a, b) >= EPSILON
  {
    var p, q := 2.0 / (a + b + 2.0), 1.0 / (a + 3.0);
    assert p * (a + b + 2.0) == 2.0 && q * (a + 3.0) == 1.0;
    NotNegative(p - EPSILON, a + b + 2.0, 2.0 - EPSILON * (a + b + 2.0));
    NotNegative(q - EPSILON, a + 3.0, 1.0 - EPSILON * (a + 3.0));
  }

  /** For parameters that add up to less than 10^14 no guard ever fires, and what the forward loop returns is exactly
      the continued fraction, truncated after the last round and evaluated from the inside out. */
  lemma LoopIsFraction(a: real, b: real, x: real)
    requires a > 0.0 && b > 0.0 && 0.0 < x <= Threshold(a, b) && a + b + 3.0 <= 100000000000000.0
    ensures IsFraction(a, b, x)
  {
    var n := Numerators(a, b, x);
    var j := 2 * Rounds(n) + 1;
    hide Threshold, Numerators, Continuant, Ends;
    forall k: nat {:trigger Ratio(n, 1, k)} | 1 <= k <= j ensures Ratio(n, 1, k) && Ratio(n, 2, k) {
      RatioClears(a, b, x, 1, k);
      RatioClears(a, b, x, 2, k);
    }
    forall i: nat {:trigger Continuant(n, i, j)} | 1 <= i <= j ensures Continuant(n, i, j) > 0.0 {
      DenominatorsPositive(a, b, x, i, j);
    }
    ForwardIsNested(n, j);
  }

  lemma RatioClears(a: real, b: real, x: real, i: nat, k: nat)
    requires a > 0.0 && b > 0.0 && 0.0 < x <= Threshold(a, b) && a + b + 3.0 <= 100000000000000.0
    requires 1 <= i <= k + 1 && k >= 1
    ensures Ratio(Numerators(a, b, x), i, k)
  {
    var n := Numerators(a, b, x);
    FloorClears(a, b);
    DenominatorsPositive(a, b, x, i, k);
    if i <= k { DenominatorsPositive(a, b, x, i, k - 1); }
    assert Continuant(n, i, k - 1) > 0.0;
    hide Threshold, Numerators, Continuant, Floor;
    Shrink(EPSILON, Floor(a, b), Continuant(n, i, k - 1));
  }
}
