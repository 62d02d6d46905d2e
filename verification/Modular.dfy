// Quotients and remainders with a variable divisor.
module Modular {
  lemma DivModIs(x: int, l: int, q: int, r: int)
    requires 0 <= r < l && x == q * l + r
    ensures x / l == q && x % l == r
  {
    var d, m := x / l, x % l;
    assert x == d * l + m by { EuclidIs(x, l); }
    Grows(d, q, l);
    Grows(q, d, l);
  }

  lemma EuclidIs(x: int, l: int)
    requires l > 0
    ensures x == (x / l) * l + x % l && 0 <= x % l < l
  {
  }

  lemma Grows(a: int, b: int, l: int)
    requires l > 0
    ensures a < b ==> a * l + l <= b * l
  {
    if a < b {
      Scales(b - a, l);
      assert b * l == a * l + (b - a) * l;
    }
  }

  lemma {:induction false} Scales(k: nat, l: nat)
    requires k > 0
    ensures k * l >= l
    decreases k
  {
    if k > 1 {
      Scales(k - 1, l);
      assert k * l == (k - 1) * l + l;
    }
  }
}
