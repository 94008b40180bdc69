/** Facts about Euclidean division that the paging and time formatting need. */
module Arith {

  lemma MulAtLeast(d: int, b: int)
    requires d >= 1 && b > 0
    ensures d * b >= b
  {
  }

  lemma MulStep(x: int, y: int, b: int)
    requires x < y && b > 0
    ensures x * b + b <= y * b
  {
    assert y * b == x * b + (y - x) * b;
    MulAtLeast(y - x, b);
  }

  /** Quotient and remainder are determined by `a == q * b + r` with `0 <= r < b`. */
  lemma DivModUnique(a: int, b: int, q: int, r: int)
    requires b > 0 && a == q * b + r && 0 <= r < b
    ensures a / b == q && a % b == r
  {
    var q0 := a / b;
    if q0 > q {
      MulStep(q, q0, b);
    } else if q0 < q {
      MulStep(q0, q, b);
    }
  }

  lemma DivSub(a: int, b: int)
    requires b > 0 && a >= b
    ensures (a - b) / b == a / b - 1 && (a - b) % b == a % b
  {
    var q, r := a / b, a % b;
    assert a - b == (q - 1) * b + r;
    DivModUnique(a - b, b, q - 1, r);
  }

  lemma MulMono(x: int, y: int, b: int)
    requires x <= y && b > 0
    ensures x * b <= y * b
  {
    if x < y {
      MulStep(x, y, b);
    }
  }

  /** Dividing twice is dividing by the product. */
  lemma DivDiv(a: int, b: int, c: int)
    requires b > 0 && c > 0
    ensures (a / b) / c == a / (b * c)
  {
    var q, r := a / b, a % b;
    var q2, r2 := q / c, q % c;
    assert a == q2 * (b * c) + (r2 * b + r) by {
      assert a == q * b + r;
      assert q == q2 * c + r2;
      assert q * b == q2 * c * b + r2 * b;
    }
    MulMono(r2, c - 1, b);
    assert (c - 1) * b == c * b - b;
    DivModUnique(a, b * c, q2, r2 * b + r);
  }
}
