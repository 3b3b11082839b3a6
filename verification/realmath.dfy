/** The three transcendental functions the rating engine calls: the standard normal
    CDF (Python's `NormalDist(0, 1).cdf`), `np.sqrt` and `np.log2`. Their numerics
    are not modelled; they are parameters of the model, constrained only by the laws
    below, which the true mathematical functions satisfy. */
module RealMath {

  /** The three functions as total tables from the reals to the reals. */
  datatype Numerics = Numerics(phi: imap<real, real>, sqrt: imap<real, real>, log2: imap<real, real>)

  /** The table has an entry for every real. */
  ghost predicate Total(m: imap<real, real>) {
    forall x :: x in m
  }

  /** `x` lies strictly below `y`. The order laws below are stated on this name so
      that a proof uses them only for the pairs it names. */
  predicate Below(x: real, y: real) {
    x < y
  }

  /** `x` and `y` are mirror images about 0. */
  predicate Mirrored(x: real, y: real) {
    x + y == 0.0
  }

  /** Phi is a strictly increasing distribution function symmetric about 0 (the
      normal density is positive everywhere). */
  ghost predicate PhiLaws(phi: imap<real, real>) {
    && Total(phi)
    && (forall x :: 0.0 <= phi[x] <= 1.0)
    && phi[0.0] == 0.5
    && (forall x, y {:trigger Mirrored(x, y)} :: Mirrored(x, y) ==> phi[x] + phi[y] == 1.0)
    && (forall x, y {:trigger Below(x, y)} :: Below(x, y) ==> phi[x] < phi[y])
  }

  /** sqrt is the non-negative square root on the non-negative reals. */
  ghost predicate SqrtLaws(sqrt: imap<real, real>) {
    && Total(sqrt)
    && (forall x :: x >= 0.0 ==> sqrt[x] >= 0.0 && Sq(sqrt[x]) == x)
  }

  /** log2 vanishes at 1 and is strictly increasing on [1, oo). */
  ghost predicate Log2Laws(log2: imap<real, real>) {
    && Total(log2)
    && log2[1.0] == 0.0
    && (forall x, y {:trigger Below(x, y)} :: 1.0 <= x && Below(x, y) ==> log2[x] < log2[y])
  }

  ghost predicate Lawful(n: Numerics) {
    PhiLaws(n.phi) && SqrtLaws(n.sqrt) && Log2Laws(n.log2)
  }

  function Abs(x: real): real {
    if x < 0.0 then -x else x
  }

  /** Squaring, kept behind a name: every fact about squares the model needs is
      derived from strict monotonicity on the non-negative reals. */
  function Sq(x: real): real {
    x * x
  }

  lemma SquareStrictlyMonotone(a: real, b: real)
    requires 0.0 <= a < b
    ensures Sq(a) < Sq(b)
  {
    var p, q, r := a * a, b * b, a * b;
    assert p <= r;
    assert r < q;
  }

  lemma SquareOfAbs(x: real)
    ensures Sq(Abs(x)) == Sq(x)
  {
  }

  lemma SquareOfProduct(a: real, b: real)
    ensures Sq(a * b) == Sq(a) * Sq(b)
  {
  }

  lemma SquarePositive(x: real)
    requires x != 0.0
    ensures Sq(x) > 0.0
  {
    SquareOfAbs(x);
    SquareStrictlyMonotone(0.0, Abs(x));
    assert Sq(0.0) == 0.0;
  }

  lemma SquareNonNegative(x: real)
    ensures Sq(x) >= 0.0
  {
    if x != 0.0 {
      SquarePositive(x);
    } else {
      assert Sq(0.0) == 0.0;
    }
  }

  /** Two non-negative reals with the same square are equal. */
  lemma SquareInjective(a: real, b: real)
    requires a >= 0.0 && b >= 0.0
    requires Sq(a) == Sq(b)
    ensures a == b
  {
    if a < b {
      SquareStrictlyMonotone(a, b);
    } else if b < a {
      SquareStrictlyMonotone(b, a);
    }
  }

  /** Squares are monotone on the non-negative reals, read backwards. */
  lemma SquareMonotone(a: real, b: real)
    requires a >= 0.0 && b >= 0.0
    requires Sq(a) <= Sq(b)
    ensures a <= b
  {
    if b < a {
      SquareStrictlyMonotone(b, a);
    }
  }

  lemma SqrtPositive(n: Numerics, x: real)
    requires SqrtLaws(n.sqrt)
    requires x > 0.0
    ensures n.sqrt[x] > 0.0
  {
    assert Sq(n.sqrt[x]) == x;
    assert Sq(0.0) == 0.0;
  }

  /** sqrt(a * b^2) = sqrt(a) * |b|: the learning-rate term of the sigma update. */
  lemma SqrtOfScaledSquare(n: Numerics, a: real, b: real)
    requires SqrtLaws(n.sqrt)
    requires a >= 0.0
    ensures n.sqrt[a * Sq(b)] == n.sqrt[a] * Abs(b)
  {
    var s := n.sqrt[a];
    SquareNonNegative(b);
    var t := n.sqrt[a * Sq(b)];
    assert s >= 0.0 && Sq(s) == a;
    assert t >= 0.0 && Sq(t) == a * Sq(b);
    SquareOfAbs(b);
    SquareOfProduct(s, Abs(b));
    assert s * Abs(b) >= 0.0;
    SquareInjective(t, s * Abs(b));
  }

  /** Non-negativity of log2 on [1, oo) follows from the laws. */
  lemma Log2NonNegative(n: Numerics, x: real)
    requires Log2Laws(n.log2)
    requires x >= 1.0
    ensures n.log2[x] >= 0.0
  {
    if x > 1.0 {
      assert Below(1.0, x);
    }
  }

  /** Scaling by a non-negative factor keeps the sign: `p` is the product. */
  lemma ScaledSign(k: real, s: real, p: real)
    requires k >= 0.0 && p == k * s
    ensures s >= 0.0 ==> p >= 0.0
    ensures s <= 0.0 ==> p <= 0.0
  {
  }

  /** A positive scale keeps a non-zero value's strict sign: `p` is the product. */
  lemma ScaledStrictSign(k: real, s: real, p: real)
    requires k > 0.0 && p == k * s
    ensures s > 0.0 ==> p > 0.0
    ensures s < 0.0 ==> p < 0.0
  {
  }

  /** Adding a share in (0, 1/2] of a change moves a value in the direction of the
      change and by at most half of it: `u` is the moved value. */
  lemma HalfShareBounds(m: real, w: real, c: real, u: real)
    requires 0.0 < w <= 0.5 && u == m + w * c
    ensures c >= 0.0 ==> m <= u <= m + c / 2.0
    ensures c <= 0.0 ==> m + c / 2.0 <= u <= m
  {
  }

  /** A larger non-negative scale moves a non-zero value further from zero:
      `p1` and `p2` are the two products. */
  lemma ScaleStrictlyMonotone(k1: real, k2: real, s: real, p1: real, p2: real)
    requires 0.0 <= k1 < k2 && p1 == k1 * s && p2 == k2 * s
    ensures s > 0.0 ==> p1 < p2
    ensures s < 0.0 ==> p2 < p1
  {
  }

  /** Adding a positive multiple preserves a strict order of the multiplied values:
      `u1` and `u2` are the two sums. */
  lemma ShiftStrictlyMonotone(m: real, w: real, c1: real, c2: real, u1: real, u2: real)
    requires w > 0.0 && c1 < c2 && u1 == m + w * c1 && u2 == m + w * c2
    ensures u1 < u2
  {
  }

  lemma NegatedQuotient(a: real, d: real)
    requires d != 0.0
    ensures (-a) / d == -(a / d)
  {
  }

  lemma QuotientSign(a: real, d: real)
    requires d > 0.0
    ensures a >= 0.0 ==> a / d >= 0.0
    ensures a <= 0.0 ==> a / d <= 0.0
    ensures a > 0.0 ==> a / d > 0.0
    ensures a < 0.0 ==> a / d < 0.0
  {
  }

  /** Averages over the same count add up to the average of the sum. */
  lemma AveragesAdd(a: real, t: real, e: real, n: real)
    requires n != 0.0
    ensures a / n + t / n + e / n == (a + t + e) / n
  {
  }

  /** A share of averages over the same count is the share of the totals. */
  lemma ShareOfAverages(x: real, s: real, n: real)
    requires n != 0.0 && s != 0.0
    ensures (x / n) / (s / n) == x / s
  {
  }

  /** Three parts divided by their sum add up to one. */
  lemma SharesSum(a: real, t: real, e: real, s: real)
    requires s != 0.0 && a + t + e == s
    ensures a / s + t / s + e / s == 1.0
  {
  }

  /** Complementary probabilities weighted alike add up to the weight. */
  lemma Complement(r: real, b: real, s: real)
    requires r + b == 1.0
    ensures r * s + b * s == s
  {
    assert b == 1.0 - r;
    assert b * s == (1.0 - r) * s;
  }

  /** A convex combination of values in [0, 1] stays in [0, 1]. */
  lemma MixBounds(sa: real, st: real, se: real, ra: real, rt: real, re: real, mix: real)
    requires sa >= 0.0 && st >= 0.0 && se >= 0.0 && sa + st + se == 1.0
    requires 0.0 <= ra <= 1.0 && 0.0 <= rt <= 1.0 && 0.0 <= re <= 1.0
    requires mix == 0.0 + ra * sa + rt * st + re * se
    ensures 0.0 <= mix <= 1.0
  {
    ScaledUnit(ra, sa, ra * sa);
    ScaledUnit(rt, st, rt * st);
    ScaledUnit(re, se, re * se);
  }

  /** A part's share of itself plus a fixed positive amount grows strictly with the
      part. */
  lemma ShareStrictlyMonotone(p: real, q: real, t: real)
    requires 0.0 < p < q && t > 0.0
    ensures p / (p + t) < q / (q + t)
  {
    var a, b := p + t, q + t;
    ScaleStrictlyMonotone(p, q, t, p * t, q * t);
    assert p * b == p * q + p * t;
    assert q * a == p * q + q * t;
    assert a * b > 0.0;
    assert p / a == (p * b) / (a * b);
    assert q / b == (q * a) / (a * b);
  }

  /** A value in [0, 1] times a non-negative weight lies between 0 and the weight:
      `p` is the product. */
  lemma ScaledUnit(r: real, s: real, p: real)
    requires 0.0 <= r <= 1.0 && s >= 0.0 && p == r * s
    ensures 0.0 <= p <= s
  {
  }
}
