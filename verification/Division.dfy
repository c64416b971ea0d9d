/** How a quotient compares with a bound. */
module Division {

  lemma {:induction false} MulBelow(p: int, a: int, b: int)
    requires p > 0 && a < b
    ensures p * a < p * b
  {
    assert p * (b - a) > 0;
  }

  lemma {:induction false} MulAtMost(p: int, a: int, b: int)
    requires p >= 0 && a <= b
    ensures p * a <= p * b
  {
    assert p * (b - a) >= 0;
  }

  lemma {:induction false} DivBounds(a: int, den: int)
    requires den > 0
    ensures a / den * den <= a < (a / den + 1) * den
  {
    assert a == den * (a / den) + a % den;
  }

  lemma {:induction false} DivBelow(a: int, q: int, den: int)
    requires den > 0 && a < q * den
    ensures a / den < q
  {
    var gap := a / den - q;
    assert den * gap < 0;
    assert gap >= 0 ==> den * gap >= 0;
  }

  lemma {:induction false} DivAtLeast(a: int, q: int, den: int)
    requires den > 0 && a >= q * den
    ensures a / den >= q
  {
    var gap := a / den + 1 - q;
    assert den * gap > 0;
    assert gap <= 0 ==> den * gap <= 0;
  }

  lemma {:induction false} DivAtMost(a: int, q: int, den: int)
    requires den > 0 && a <= q * den
    ensures a / den <= q
  {
    var gap := a / den - q;
    assert den * gap <= 0;
    assert gap >= 1 ==> den * gap >= den;
  }
}
