/**
 * Integer division as C++ performs it: the quotient is truncated toward zero and
 * the remainder takes the sign of the dividend.  Dafny's own `/` and `%` are
 * Euclidean, so they agree with C++ only for a non-negative dividend and a
 * positive divisor (lemma QuotIsDiv).
 */
module IntDiv {

  /** `a / b` in C++. */
  function Quot(a: int, b: int): int
    requires b != 0
  {
    if a >= 0 && b > 0 then a / b
    else if a < 0 && b > 0 then -((-a) / b)
    else if a >= 0 then -(a / (-b))
    else (-a) / (-b)
  }

  /**
   * The dividend is the quotient times the divisor plus the remainder, and for
   * non-negative operands the quotient is the floor.
   */
  lemma QuotRem(a: int, b: int)
    requires b != 0
    ensures a >= 0 && b > 0 ==> 0 <= Quot(a, b) * b <= a < (Quot(a, b) + 1) * b
    ensures a == b * Quot(a, b) + Rem(a, b)
  {
    if a >= 0 && b > 0 {
      DivMod(a, b);
    } else if a < 0 && b > 0 {
      DivMod(-a, b);
      NegMul(b, (-a) / b);
    } else if a >= 0 {
      DivMod(a, -b);
      NegMul(b, a / (-b));
    } else {
      DivMod(-a, -b);
      NegMul(b, (-a) / (-b));
    }
  }

  /** Dafny's division of a non-negative dividend by a positive divisor. */
  lemma DivMod(x: int, y: int)
    requires x >= 0 && y > 0
    ensures x == y * (x / y) + x % y && 0 <= x % y < y
    ensures 0 <= (x / y) * y <= x < (x / y + 1) * y
  {
    assert (x / y + 1) * y == (x / y) * y + y;
  }

  lemma NegMul(x: int, y: int)
    ensures x * -y == -(x * y) && (-x) * y == -(x * y)
  {
  }

  /** `a % b` in C++. */
  function Rem(a: int, b: int): (r: int)
    requires b != 0
  {
    if a >= 0 && b > 0 then a % b
    else if a < 0 && b > 0 then -((-a) % b)
    else if a >= 0 then a % (-b)
    else -((-a) % (-b))
  }

  function Abs(x: int): nat { if x < 0 then -x else x }

  /** The remainder is smaller than the divisor and never has the opposite sign of the dividend. */
  lemma RemBounds(a: int, b: int)
    requires b != 0
    ensures Abs(Rem(a, b)) < Abs(b)
    ensures a >= 0 ==> Rem(a, b) >= 0
    ensures a <= 0 ==> Rem(a, b) <= 0
  {
  }

  /** For a non-negative dividend and a positive divisor C++ and Dafny agree. */
  lemma QuotIsDiv(a: int, b: int)
    requires a >= 0 && b > 0
    ensures Quot(a, b) == a / b && Rem(a, b) == a % b
  {
  }

  /** Division undoes a multiplication plus a small non-negative remainder. */
  lemma QuotUnique(q: int, r: int, b: int)
    requires b > 0 && q >= 0 && 0 <= r < b
    ensures Quot(q * b + r, b) == q && Rem(q * b + r, b) == r
  {
    var a := q * b + r;
    MulMonotone(0, q, b);
    var q' := a / b;
    DivMod(a, b);
    assert (q + 1) * b == q * b + b;
    MulOrder(q', q + 1, b);
    MulOrder(q, q' + 1, b);
    assert q' == q;
  }

  lemma MulMonotone(a: int, b: int, n: int)
    requires a <= b && n >= 0
    ensures a * n <= b * n
  {
  }

  /** Scaling by a positive factor keeps the order. */
  lemma MulOrder(a: int, b: int, n: int)
    requires n > 0
    ensures a < b <==> a * n < b * n
  {
    if a < b {
      MulMonotone(a + 1, b, n);
      assert (a + 1) * n == a * n + n;
    } else {
      MulMonotone(b, a, n);
    }
  }

  /** A multiple of b leaves no remainder. */
  lemma RemOfMultiple(k: int, b: int)
    requires b > 0
    ensures Rem(k * b, b) == 0 && Quot(k * b, b) == k
  {
    if k >= 0 {
      QuotUnique(k, 0, b);
    } else {
      QuotUnique(-k, 0, b);
      assert k * b == -((-k) * b);
    }
  }

  /** Dafny's own `%` leaves nothing of a multiple, and `/` recovers the factor. */
  lemma MulMod(k: int, b: int)
    requires b > 0
    ensures (k * b) % b == 0 && (k * b) / b == k
  {
    var q, r := (k * b) / b, (k * b) % b;
    assert k * b == q * b + r && 0 <= r < b;
    assert (k - q) * b == r;
    if k - q >= 1 {
      assert false;
    } else if k - q <= -1 {
      assert false;
    }
  }

  /** Truncating division by a positive divisor is monotone on non-negative dividends. */
  lemma QuotMonotone(a: int, b: int, d: int)
    requires 0 <= a <= b && d > 0
    ensures 0 <= Quot(a, d) <= Quot(b, d)
  {
    var qa, qb := a / d, b / d;
    assert qa * d <= a && b < (qb + 1) * d;
    if qa > qb {
      assert false;
    }
  }
}
