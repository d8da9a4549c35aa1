/** Counting, and multiples of a length. */
module Arithmetic {

  function Count(b: bool): nat {
    if b then 1 else 0
  }

  lemma MultipleHasNoRemainder(m: int, len: nat, x: nat)
    requires len > 0 && x == len * m
    ensures x % len == 0
  {
    var d := m - x / len;
    assert x % len == len * d;
    assert d == 0 by {
      MultipleBelow(d, 1, len);
      MultipleBelow(0, d, len);
    }
  }

  lemma MultipleBelow(p: int, q: int, len: nat)
    ensures p < q ==> len * p + len <= len * q
    ensures p >= q ==> len * p >= len * q
  {
    if p < q {
      assert len * (q - p - 1) == len * q - len * p - len;
      NoNegativeProduct(len, q - p - 1);
    } else {
      assert len * (p - q) == len * p - len * q;
      NoNegativeProduct(len, p - q);
    }
  }

  lemma NoNegativeProduct(a: nat, b: nat)
    ensures a * b >= 0
  {
  }

  lemma MultiplesAdd(a: nat, b: nat, len: nat)
    requires len > 0 && a % len == 0 && b % len == 0
    ensures (a + b) % len == 0
    ensures a < b ==> a + len <= b
  {
    var p, q := a / len, b / len;
    assert a == len * p && b == len * q;
    assert len * (p + q) == a + b;
    MultipleHasNoRemainder(p + q, len, a + b);
    MultipleBelow(p, q, len);
  }
}
