/** The Wilson score interval over the reals; the square root is a value whose square is given. */
module Wilson {
  datatype Interval = Interval(low: real, high: real)

  function Rate(errors: int, total: int): real
    requires total > 0
  {
    errors as real / total as real
  }

  /** What the root is the square root of. */
  function Radicand(rate: real, n: real, z: real): real
    requires n > 0.0
  {
    rate * (1.0 - rate) / n + z * z / (4.0 * n * n)
  }

  predicate IsRoot(errors: int, total: int, z: real, root: real)
    requires total > 0
  {
    root >= 0.0 && root * root == Radicand(Rate(errors, total), total as real, z)
  }

  function Max(a: real, b: real): real {
    if b > a then b else a
  }

  function Min(a: real, b: real): real {
    if b < a then b else a
  }

  function Denominator(n: real, z: real): real
    requires n > 0.0
  {
    1.0 + z * z / n
  }

  lemma DenominatorPositive(n: real, z: real)
    requires n > 0.0
    ensures Denominator(n, z) >= 1.0
  {
    assert z * z >= 0.0;
  }

  function IntervalOf(rate: real, n: real, z: real, root: real): Interval
    requires n > 0.0
  {
    DenominatorPositive(n, z);
    var center := (rate + z * z / (2.0 * n)) / Denominator(n, z);
    var half := z * root / Denominator(n, z);
    Interval(Max(0.0, center - half), Min(1.0, center + half))
  }

  function WilsonInterval(errors: int, total: int, z: real, root: real): Interval {
    if total <= 0 then Interval(0.0, 1.0) else IntervalOf(Rate(errors, total), total as real, z, root)
  }

  /** The quadratic whose roots the ends should be: `(rate - p)^2 = z^2 * p * (1 - p) / n`. */
  predicate SolvesAt(rate: real, n: real, z: real, p: real)
    requires n > 0.0
  {
    (rate - p) * (rate - p) == z * z * p * (1.0 - p) / n
  }

  predicate Solves(errors: int, total: int, z: real, p: real)
    requires total > 0
  {
    SolvesAt(Rate(errors, total), total as real, z, p)
  }

  // ----- Real arithmetic -----

  lemma ProductNonNegative(a: real, b: real)
    requires a >= 0.0 && b >= 0.0
    ensures a * b >= 0.0
  {
  }

  lemma ProductPositive(a: real, b: real)
    requires a > 0.0 && b > 0.0
    ensures a * b > 0.0
  {
  }

  lemma Scale(a: real, b: real, d: real)
    requires d > 0.0 && a <= b
    ensures a / d <= b / d
  {
  }

  lemma Quotient(p: real, c: real, d: real)
    requires d > 0.0
    ensures p == c / d <==> p * d == c
  {
  }

  lemma SumOverDenominator(c: real, y: real, d: real)
    requires d > 0.0
    ensures c / d - y / d == (c - y) / d && c / d + y / d == (c + y) / d
  {
  }

  lemma SquaresOrder(a: real, b: real)
    requires b >= 0.0 && a * a <= b * b
    ensures -b <= a <= b
  {
    if a > b {
      Grows(b, a);
    } else if -a > b {
      Grows(b, -a);
    }
  }

  lemma Grows(b: real, a: real)
    requires 0.0 <= b < a
    ensures b * b < a * a
  {
    ProductPositive(a - b, a + b);
    assert a * a - b * b == (a - b) * (a + b);
  }

  lemma SameSquare(x: real, y: real)
    requires x * x == y * y
    ensures x == y || x == -y
  {
    assert (x - y) * (x + y) == 0.0;
  }

  // ----- The quadratic -----

  /** The square of the scaled root, with `t` for `z * z / n`. */
  lemma SquareGiven(n: real, z: real, root: real, rate: real)
    requires n > 0.0 && root * root == Radicand(rate, n, z)
    ensures var t := z * z / n; (z * root) * (z * root) == t * (rate * (1.0 - rate) + t / 4.0)
  {
    var t, spread := z * z / n, rate * (1.0 - rate);
    var r := root * root;
    assert (z * root) * (z * root) == z * z * r;
    assert z * z == t * n;
    FourthOfSquare(n, t, z * z);
    assert t * n * (spread / n) == t * spread by {
      assert spread / n * n == spread;
    }
    assert t * n * (t / (4.0 * n)) == t * (t / 4.0) by {
      assert t / (4.0 * n) * n == t / 4.0;
    }
  }

  lemma FourthOfSquare(n: real, t: real, square: real)
    requires n > 0.0 && square == t * n
    ensures square / (4.0 * n * n) == t / (4.0 * n)
  {
    var q := t / (4.0 * n);
    assert q * (4.0 * n) == t;
    assert q * (4.0 * n * n) == square;
    var m := 4.0 * n;
    ProductPositive(m, n);
    Quotient(q, square, m * n);
  }

  /**
   With `x` the scaled distance of `p` from the centre, the quadratic is `x * x` less the
   square of the scaled root.
   */
  lemma CompleteSquare(rate: real, t: real, p: real)
    ensures var x := p * (1.0 + t) - (rate + t / 2.0);
            ((rate - p) * (rate - p) - t * p * (1.0 - p)) * (1.0 + t) == x * x - t * (rate * (1.0 - rate) + t / 4.0)
  {
  }

  lemma RightSide(n: real, z: real, t: real, p: real)
    requires n > 0.0 && t == z * z / n
    ensures z * z * p * (1.0 - p) / n == t * p * (1.0 - p)
  {
    assert t * n == z * z;
    assert t * p * (1.0 - p) * n == z * z * p * (1.0 - p);
  }

  lemma Vanishes(a: real, b: real)
    requires b >= 1.0
    ensures a * b == 0.0 <==> a == 0.0
  {
  }

  /** Before clamping, the two ends are exactly the roots of the quadratic. */
  lemma {:induction false} EndsSolve(rate: real, t: real, y: real, p: real)
    requires t >= 0.0 && y * y == t * (rate * (1.0 - rate) + t / 4.0)
    ensures var c, d := rate + t / 2.0, 1.0 + t;
            (rate - p) * (rate - p) == t * p * (1.0 - p) <==> p == (c - y) / d || p == (c + y) / d
  {
    var c, d := rate + t / 2.0, 1.0 + t;
    CompleteSquare(rate, t, p);
    Vanishes((rate - p) * (rate - p) - t * p * (1.0 - p), d);
    var x := p * d - c;
    if x * x == y * y {
      SameSquare(x, y);
    }
    Quotient(p, c - y, d);
    Quotient(p, c + y, d);
  }

  /**
   The scaled root is small enough for the ends to stay inside the unit interval and large
   enough for them to lie around the rate.
   */
  lemma CentreBounds(rate: real, t: real, y: real)
    requires 0.0 <= rate <= 1.0 && t >= 0.0 && y >= 0.0 && y * y == t * (rate * (1.0 - rate) + t / 4.0)
    ensures y <= rate + t / 2.0
  {
    var c := rate + t / 2.0;
    ProductNonNegative(rate, rate);
    ProductNonNegative(t, rate * rate);
    assert c * c == y * y + rate * rate + t * (rate * rate);
    SquaresOrder(y, c);
  }

  lemma AroundRate(rate: real, t: real, y: real)
    requires 0.0 <= rate <= 1.0 && t >= 0.0 && y >= 0.0 && y * y == t * (rate * (1.0 - rate) + t / 4.0)
    ensures rate + t / 2.0 - y <= rate * (1.0 + t) <= rate + t / 2.0 + y
  {
    var m, spread := t / 2.0 - t * rate, rate * (1.0 - rate);
    ProductNonNegative(rate, 1.0 - rate);
    ProductNonNegative(t, spread);
    ProductNonNegative(t, t * spread);
    assert m * m == t * t / 4.0 - t * (t * spread);
    assert y * y == t * spread + t * t / 4.0;
    SquaresOrder(m, y);
  }

  lemma EndsBounds(c: real, y: real, d: real, rate: real)
    requires d >= 1.0 && 0.0 <= y <= c && c + y <= d && c - y <= rate * d <= c + y
    ensures 0.0 <= (c - y) / d <= rate <= (c + y) / d <= 1.0
  {
    Scale(0.0, c - y, d);
    Scale(c - y, rate * d, d);
    Scale(rate * d, c + y, d);
    Scale(c + y, d, d);
    Quotient(rate, rate * d, d);
    Quotient(1.0, d, d);
    Quotient(0.0, 0.0, d);
  }

  lemma RateInUnit(errors: int, total: int)
    requires 0 <= errors <= total && 0 < total
    ensures 0.0 <= Rate(errors, total) <= 1.0
  {
    var n := total as real;
    Scale(0.0, errors as real, n);
    Scale(errors as real, n, n);
    Quotient(1.0, n, n);
    Quotient(0.0, 0.0, n);
  }

  lemma HalfTerm(n: real, z: real)
    requires n > 0.0
    ensures z * z / (2.0 * n) == z * z / n / 2.0
  {
    var q := z * z / n / 2.0;
    assert q * 2.0 * n == z * z;
    assert q * (2.0 * n) == z * z;
  }

  /** The interval in terms of the scaled root `y` and of `t`. */
  lemma InTermsOf(rate: real, n: real, z: real, root: real, t: real, y: real)
    requires n > 0.0 && t == z * z / n && y == z * root
    ensures t >= 0.0
    ensures var c, d := rate + t / 2.0, 1.0 + t;
            IntervalOf(rate, n, z, root) == Interval(Max(0.0, (c - y) / d), Min(1.0, (c + y) / d))
  {
    DenominatorPositive(n, z);
    HalfTerm(n, z);
    SumOverDenominator(rate + t / 2.0, y, 1.0 + t);
  }

  /** The ends lie around the rate inside the unit interval, so neither clamp binds. */
  lemma ClampsNeverBind(rate: real, t: real, y: real)
    requires 0.0 <= rate <= 1.0 && t >= 0.0 && y >= 0.0 && y * y == t * (rate * (1.0 - rate) + t / 4.0)
    ensures var c, d := rate + t / 2.0, 1.0 + t; 0.0 <= (c - y) / d <= rate <= (c + y) / d <= 1.0
  {
    CentreBounds(rate, t, y);
    assert (1.0 - rate) * (1.0 - (1.0 - rate)) == rate * (1.0 - rate);
    CentreBounds(1.0 - rate, t, y);
    AroundRate(rate, t, y);
    EndsBounds(rate + t / 2.0, y, 1.0 + t, rate);
  }

  lemma ScaledRoot(rate: real, n: real, z: real, root: real) returns (t: real, y: real)
    requires n > 0.0 && z >= 0.0 && root >= 0.0 && root * root == Radicand(rate, n, z)
    ensures t == z * z / n && y == z * root && t >= 0.0 && y >= 0.0
    ensures y * y == t * (rate * (1.0 - rate) + t / 4.0)
  {
    t, y := z * z / n, z * root;
    DenominatorPositive(n, z);
    SquareGiven(n, z, root, rate);
    ProductNonNegative(z, root);
  }

  lemma SolvesIff(rate: real, n: real, z: real, t: real, y: real, low: real, high: real, p: real)
    requires n > 0.0 && t == z * z / n && t >= 0.0 && y * y == t * (rate * (1.0 - rate) + t / 4.0)
    requires low == (rate + t / 2.0 - y) / (1.0 + t) && high == (rate + t / 2.0 + y) / (1.0 + t)
    ensures SolvesAt(rate, n, z, p) <==> p == low || p == high
  {
    RightSide(n, z, t, p);
    EndsSolve(rate, t, y, p);
  }

  /** The interval of a rate: its ends bracket it inside the unit interval and are exactly the solutions. */
  lemma RateInterval(rate: real, n: real, z: real, root: real)
    requires 0.0 <= rate <= 1.0 && n > 0.0 && z >= 0.0 && root >= 0.0 && root * root == Radicand(rate, n, z)
    ensures var i := IntervalOf(rate, n, z, root);
            && 0.0 <= i.low <= rate <= i.high <= 1.0
            && forall p :: SolvesAt(rate, n, z, p) <==> p == i.low || p == i.high
  {
    var i := IntervalOf(rate, n, z, root);
    var t, y := ScaledRoot(rate, n, z, root);
    ClampsNeverBind(rate, t, y);
    InTermsOf(rate, n, z, root, t, y);
    forall p
      ensures SolvesAt(rate, n, z, p) <==> p == i.low || p == i.high
    {
      SolvesIff(rate, n, z, t, y, i.low, i.high, p);
    }
  }

  /**
   For a count of errors within the total, the interval brackets the error rate inside the unit interval
   and its ends are exactly the two roots of the quadratic.
   */
  lemma IntervalIsExact(errors: int, total: int, z: real, root: real)
    requires 0 <= errors <= total && 0 < total && z >= 0.0 && IsRoot(errors, total, z, root)
    ensures var i := WilsonInterval(errors, total, z, root);
            && 0.0 <= i.low <= Rate(errors, total) <= i.high <= 1.0
            && forall p :: Solves(errors, total, z, p) <==> p == i.low || p == i.high
  {
    RateInUnit(errors, total);
    RateInterval(Rate(errors, total), total as real, z, root);
    forall p
      ensures Solves(errors, total, z, p) <==> SolvesAt(Rate(errors, total), total as real, z, p)
    {
    }
  }

  /** With nothing observed the rate may be anything. */
  lemma NothingObserved(errors: int, total: int, z: real, root: real)
    requires total <= 0
    ensures WilsonInterval(errors, total, z, root) == Interval(0.0, 1.0)
  {
  }
}
