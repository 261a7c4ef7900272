/** Small facts of real arithmetic, each proved in a context of its own so
    that the proofs using them stay linear. */
module RealAlgebra {
  /** Equal factors give equal products. */
  lemma EqualFactors(a: real, b: real, x: real)
    requires a == b
    ensures a * x == b * x && x * a == x * b
  {
  }

  /** Scaling distributes over a weighted term: if `s == a + w * x`,
      `v == b * w`, `c == b * a` and `d == c + v * x`, then `d == b * s`.
      Every product is a parameter of its own, so that callers pass the
      values they already hold and the proof stays one linear step. */
  lemma ScaleSum(b: real, a: real, w: real, v: real, x: real, s: real, c: real, d: real)
    requires s == a + w * x && v == b * w && c == b * a && d == c + v * x
    ensures d == b * s
  {
  }

  /** The product of two non-negative reals is non-negative. */
  lemma NonNegativeProduct(a: real, b: real)
    requires 0.0 <= a && 0.0 <= b
    ensures 0.0 <= a * b
  {
  }

  /** The product of two positive reals is positive. */
  lemma PositiveProduct(a: real, b: real)
    requires a > 0.0 && b > 0.0
    ensures a * b > 0.0
  {
  }

  /** A non-zero common factor cancels. */
  lemma CancelFactor(a: real, b: real, c: real)
    requires c != 0.0 && a * c == b * c
    ensures a == b
  {
    assert (a - b) * c == 0.0;
  }

  /** Multiplication regroups freely. */
  lemma Reassociate(a: real, b: real, c: real)
    ensures a * (b * c) == (a * b) * c
    ensures (a * b) * c == (a * c) * b
  {
  }

  /** Proportions chain: if `vm / vi == pm / pi` and `vj / vm == pj / pm`
      (cross-multiplied, with `pm` non-zero), then `vj / vi == pj / pi`. */
  lemma ChainRatios(vi: real, vm: real, vj: real, pi: real, pm: real, pj: real)
    requires pm != 0.0
    requires vm * pi == vi * pm && vj * pm == vm * pj
    ensures vj * pi == vi * pj
  {
    calc {
      (vj * pi) * pm;
      (vj * pm) * pi;
      (vm * pj) * pi;
      (vm * pi) * pj;
      (vi * pm) * pj;
      (vi * pj) * pm;
    }
    CancelFactor(vj * pi, vi * pj, pm);
  }

  /** A value grown by a factor that carries `b` to `a`, stated without
      division: `after / before == a / b`. */
  lemma GrowthByFactor(before: real, after: real, factor: real, a: real, b: real)
    requires after == before * factor && factor * b == a
    ensures after * b == before * a
  {
    Reassociate(before, factor, b);
    EqualFactors(factor * b, a, before);
  }

  /** Extending a tracked ratio by one row: if `vm / vi == pm / pi` and the
      row grows `vm` into `vj` by the factor carrying `pm` to `pj`, then
      `vj / vi == pj / pi`, all stated without division. The seven values
      are parameters so that a caller's portfolio and price terms enter the
      proof as plain names rather than as nested products. */
  lemma TrackOneMore(vi: real, vm: real, vj: real, factor: real, pi: real, pm: real, pj: real)
    requires pm != 0.0 && vj == vm * factor && factor * pm == pj && vm * pi == vi * pm
    ensures vj * pi == vi * pj
  {
    GrowthByFactor(vm, vj, factor, pj, pm);
    ChainRatios(vi, vm, vj, pi, pm, pj);
  }

  /** Quotients by one divisor add. */
  lemma QuotientsAdd(a: real, b: real, c: real)
    requires c != 0.0
    ensures a / c + b / c == (a + b) / c
  {
  }

  /** A positive value at most `c` has a relative shortfall `p / c - 1` in
      `(-1, 0]`, zero exactly when `p == c`. */
  lemma Shortfall(p: real, c: real)
    requires 0.0 < p <= c
    ensures -1.0 < p / c - 1.0 <= 0.0
    ensures p == c ==> p / c - 1.0 == 0.0
    ensures p < c ==> p / c - 1.0 < 0.0
  {
    QuotientsAdd(p, c - p, c);
    assert p + (c - p) == c;
    assert c / c == 1.0;
    if p < c {
      assert (c - p) / c > 0.0;
    }
  }

  /** The sign of `c * m / d` with positive `c` and `d` is the sign of `m`. */
  lemma QuotientSign(c: real, m: real, d: real)
    requires c > 0.0 && d > 0.0
    ensures m > 0.0 ==> c * m / d > 0.0
    ensures m < 0.0 ==> c * m / d < 0.0
    ensures m == 0.0 ==> c * m / d == 0.0
  {
    if m > 0.0 {
      assert c * m > 0.0;
    } else if m < 0.0 {
      assert c * (-m) > 0.0;
      assert c * m == -(c * (-m));
    } else {
      assert c * m == c * 0.0;
    }
  }

  /** A named product of two positive factors is positive. */
  lemma PositiveProductOf(a: real, b: real, s: real)
    requires a > 0.0 && b > 0.0 && s == a * b
    ensures s > 0.0
  {
  }

  /** The mean of `n` copies of `c` is `c`. */
  lemma MeanOfCopies(n: real, c: real)
    requires n > 0.0
    ensures (n * c) / n == c
  {
  }
}
