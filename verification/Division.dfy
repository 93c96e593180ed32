/** Quotients of natural numbers, as the tags of requests are made of them. */
module Division {
  import opened Basics

  lemma DivDiv(a: nat, b: nat, c: nat)
    requires b > 0 && c > 0
    ensures b * c > 0 && a / b / c == a / (b * c)
  {
    var q := a / b / c;
    var r, r2 := a % b, (a / b) % c;
    assert a == b * (c * q + r2) + r;
    assert b * (c * q + r2) == (b * c) * q + b * r2;
    assert b * r2 + r <= b * (c - 1) + (b - 1);
    assert a == (b * c) * q + (b * r2 + r) && 0 <= b * r2 + r < b * c;
    DivUnique(a, b * c, q, b * r2 + r);
  }

  lemma DivUnique(a: nat, d: nat, q: int, r: int)
    requires d > 0 && a == d * q + r && 0 <= r < d
    ensures q == a / d
  {
    var q', r' := a / d, a % d;
    var k := q - q';
    assert d * q == d * q' + d * k;
    assert d * k == r' - r;
    MulGrows(d, k);
    MulGrows(d, -k);
    assert d * -k == -(d * k);
  }

  lemma MulGrows(d: nat, k: int)
    requires d > 0
    ensures k >= 1 ==> d * k >= d
  {
  }

  /** A length in units of weight times reducer bytes, at least one: both
      branches of the tag computation as one. */
  lemma UnitsOf(length: nat, weight: nat, reducer: nat)
    requires weight > 0 && reducer > 0
    ensures weight * reducer > 0
    ensures (if weight * reducer > length then 1 else length / weight / reducer) == Max(1, length / (weight * reducer))
  {
    DivDiv(length, weight, reducer);
    var d := weight * reducer;
    if length < d {
      DivUnique(length, d, 0, length);
    } else {
      DivUnique(length, d, length / d, length % d);
      MulGrows(d, -(length / d) + 1);
      assert d * (-(length / d) + 1) == d - d * (length / d);
    }
  }

  /** A quotient between its bounds. */
  lemma QuotientBounds(n: nat, d: nat)
    requires d > 0
    ensures d * (n / d) <= n < d * (n / d) + d
  {
    assert n == d * (n / d) + n % d;
  }
}
