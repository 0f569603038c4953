/**
 * Python's `int(a / d)` for a positive divisor `d`: true division followed by
 * truncation toward zero. Dafny's own `/` on `int` is Euclidean, which differs
 * from truncation when `a` is negative, so the truncation is written out.
 */
module Truncation {

  /** `int(a / d)`: the quotient rounded toward zero. */
  function TruncDiv(a: int, d: int): (q: int)
    requires d > 0
    ensures 0 <= a ==> 0 <= q && q * d <= a < q * d + d
    ensures a < 0 ==> q <= 0 && a <= q * d < a + d
  {
    if a >= 0 then
      DivBounds(a, d);
      a / d
    else
      DivBounds(-a, d);
      NegateProduct((-a) / d, d);
      -((-a) / d)
  }

  /** Euclidean division of a non-negative dividend brackets it between two multiples. */
  lemma {:induction false} DivBounds(n: int, d: int)
    requires 0 <= n && 0 < d
    ensures 0 <= n / d && (n / d) * d <= n < (n / d) * d + d
  {
  }

  lemma {:induction false} NegateProduct(x: int, d: int)
    ensures (-x) * d == -(x * d)
  {
  }

  lemma {:induction false} MulLeft(x: int, y: int, d: int)
    requires x <= y && 0 < d
    ensures x * d <= y * d
  {
  }

  /** Truncating division never reverses the order of its dividends. */
  lemma {:induction false} TruncDivMonotone(a: int, b: int, d: int)
    requires a <= b && 0 < d
    ensures TruncDiv(a, d) <= TruncDiv(b, d)
  {
    var qa, qb := TruncDiv(a, d), TruncDiv(b, d);
    if qa > qb {
      MulLeft(qb + 1, qa, d);
      assert false;
    }
  }

  /** Dividing an exact multiple gives back the factor. */
  lemma {:induction false} TruncDivMultiple(y: int, n: int)
    requires 0 <= y && 0 < n
    ensures TruncDiv(n * y, n) == y
  {
  }

  /** A quotient is pinned down by its bracket `q * d <= a < q * d + d`. */
  lemma {:induction false} TruncDivUnique(a: int, d: int, q: int)
    requires 0 <= a && 0 < d && q * d <= a < q * d + d
    ensures TruncDiv(a, d) == q
  {
    var r := TruncDiv(a, d);
    if r < q {
      MulLeft(r + 1, q, d);
    } else if r > q {
      MulLeft(q + 1, r, d);
    }
  }

  /** Truncating twice by `b` and `c` is truncating once by `b * c`. */
  lemma {:induction false} TruncDivTwice(a: int, b: int, c: int)
    requires 0 <= a && 0 < b && 0 < c
    ensures TruncDiv(TruncDiv(a, b), c) == TruncDiv(a, b * c)
  {
    var q1 := TruncDiv(a, b);
    var q2 := TruncDiv(q1, c);
    var r1, r2 := a - q1 * b, q1 - q2 * c;
    assert 0 <= r1 < b && 0 <= r2 < c;
    assert a == q2 * (b * c) + (r2 * b + r1) by {
      assert q1 * b == (q2 * c + r2) * b == q2 * (b * c) + r2 * b;
    }
    MulLeft(r2, c - 1, b);
    assert (c - 1) * b == b * c - b;
    TruncDivUnique(a, b * c, q2);
  }

  /** Truncating the parts first never gives more than truncating the sum. */
  lemma {:induction false} TruncDivAdd(a: int, b: int, d: int)
    requires 0 <= a && 0 <= b && 0 < d
    ensures TruncDiv(a, d) + TruncDiv(b, d) <= TruncDiv(a + b, d)
  {
    var qa, qb, qs := TruncDiv(a, d), TruncDiv(b, d), TruncDiv(a + b, d);
    if qs < qa + qb {
      MulLeft(qs + 1, qa + qb, d);
    }
  }
}
