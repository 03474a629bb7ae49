/**
 * Small facts about division over the reals. Each is stated over plain
 * numbers so that the lemmas about phase fractions can call them without
 * handing the solver any nonlinear arithmetic of their own.
 */
module RealArith {

  /** `a / t + b / t == (a + b) / t` */
  lemma AddQuotients(a: real, b: real, t: real)
    requires t != 0.0
    ensures a / t + b / t == (a + b) / t
  {
  }

  /** `a / m / t * m == a / t` */
  lemma MassOfMoles(a: real, m: real, t: real)
    requires m != 0.0 && t != 0.0
    ensures a / m / t * m == a / t
  {
  }

  /** `a / t / (1 / t) == a` */
  lemma DivInverse(a: real, t: real)
    requires t != 0.0
    ensures a / t / (1.0 / t) == a
  {
  }

  /** `(a / t) * b == (b / t) * a` */
  lemma Cross(a: real, b: real, t: real)
    requires t != 0.0
    ensures (a / t) * b == (b / t) * a
  {
  }

  /** A quotient of two numbers of the same sign is positive. */
  lemma QuotientPositive(n: real, d: real)
    requires (0.0 < n && 0.0 < d) || (d < 0.0 && n < 0.0)
    ensures n / d > 0.0
  {
  }

  /** A quotient of two numbers of opposite signs is negative. */
  lemma QuotientNegative(n: real, d: real)
    requires (n < 0.0 < d) || (d < 0.0 < n)
    ensures n / d < 0.0
  {
  }

  /** `n / d` lies strictly between 0 and 1 when `n` lies strictly between 0 and `d`. */
  lemma QuotientInUnit(n: real, d: real)
    requires (0.0 < n < d) || (d < n < 0.0)
    ensures 0.0 < n / d < 1.0
  {
    QuotientPositive(n, d);
    QuotientPositive(d - n, d);
    AddQuotients(d - n, n, d);
    SelfQuotient(d);
  }

  /** `n / d` exceeds 1 when `n` lies beyond `d`, on the far side from 0. */
  lemma QuotientAboveOne(n: real, d: real)
    requires (0.0 < d < n) || (n < d < 0.0)
    ensures n / d > 1.0
  {
    QuotientPositive(n - d, d);
    AddQuotients(n - d, d, d);
    SelfQuotient(d);
  }

  /** `a / m` keeps the sign of `a` for positive `m`. */
  lemma PosDiv(a: real, m: real)
    requires m > 0.0 && a >= 0.0
    ensures a / m >= 0.0 && (a > 0.0 ==> a / m > 0.0)
  {
  }

  /** `(a / b) * (b / c) == a / c` */
  lemma ChainQuotients(a: real, b: real, c: real)
    requires b != 0.0 && c != 0.0
    ensures (a / b) * (b / c) == a / c
  {
  }

  /** `(p * d) / d == p` */
  lemma ProductQuotient(p: real, d: real)
    requires d != 0.0
    ensures (p * d) / d == p && (d * p) / d == p
  {
  }

  /** Clearing the denominator: `p * (e / w) == k` gives `p * e == k * w`. */
  lemma ScaledQuotient(p: real, e: real, w: real, k: real)
    requires w != 0.0 && p * (e / w) == k
    ensures p * e == k * w
  {
  }

  /** `n / d` lies in [0, 1] when `n` lies in [0, d], and below 1 when `n < d`. */
  lemma QuotientAtMostOne(n: real, d: real)
    requires 0.0 <= n <= d && 0.0 < d
    ensures 0.0 <= n / d <= 1.0
    ensures n < d ==> n / d < 1.0
  {
    PosDiv(n, d);
    PosDiv(d - n, d);
    AddQuotients(d - n, n, d);
    SelfQuotient(d);
  }

  /** `d / d == 1` and `0 / d == 0` */
  lemma SelfQuotient(d: real)
    requires d != 0.0
    ensures d / d == 1.0 && 0.0 / d == 0.0
  {
  }

  /**
   * The shares `cr / t` and `c / t` of three nonnegative amounts with a
   * positive total `t` are nonnegative and together at most 1, below 1
   * when the first amount is positive.
   */
  lemma SharesInRange(fe: real, cr: real, c: real)
    requires 0.0 <= fe && 0.0 <= cr && 0.0 <= c && fe + cr + c > 0.0
    ensures var t := fe + cr + c;
      0.0 <= c / t && 0.0 <= cr / t && c / t + cr / t <= 1.0
      && (fe > 0.0 ==> c / t + cr / t < 1.0)
      && (c > 0.0 ==> c / t > 0.0)
      && (cr > 0.0 ==> cr / t > 0.0)
  {
    var t := fe + cr + c;
    PosDiv(c, t);
    PosDiv(cr, t);
    AddQuotients(c, cr, t);
    QuotientAtMostOne(c + cr, t);
  }

  /** `xi : xj` is the ratio `mi : mj`, written without division. */
  predicate Proportional(xi: real, xj: real, mi: real, mj: real)
  {
    xi * mj == xj * mi
  }

  /** Shares `xi == mi / t` and `xj == mj / t` of one total keep the ratio `mi : mj`. */
  lemma ProportionalShares(xi: real, xj: real, mi: real, mj: real, t: real)
    requires t != 0.0 && xi == mi / t && xj == mj / t
    ensures Proportional(xi, xj, mi, mj)
  {
    Cross(mi, mj, t);
  }
}
