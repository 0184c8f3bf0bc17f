/** Quotients and remainders. */
module Arithmetic {

  lemma DivModNext(o: nat, m: nat)
    requires m > 0
    ensures o % m == m - 1 ==> (o + 1) / m == o / m + 1 && (o + 1) % m == 0
    ensures o % m < m - 1 ==> (o + 1) / m == o / m && (o + 1) % m == o % m + 1
  {
    var q, r := o / m, o % m;
    assert o == q * m + r;
    if r == m - 1 {
      assert o + 1 == (q + 1) * m;
      DivModUnique(o + 1, m, q + 1, 0);
    } else {
      DivModUnique(o + 1, m, q, r + 1);
    }
  }

  lemma MultipleIsFar(d: int, m: nat)
    requires d != 0
    ensures d * m >= m || d * m + m <= 0
  {
    if d > 0 {
      assert (d - 1) * m >= 0;
    } else {
      assert (-d - 1) * m >= 0;
    }
  }

  lemma DivModUnique(o: nat, m: nat, q: nat, r: nat)
    requires m > 0 && o == q * m + r && r < m
    ensures o / m == q && o % m == r
  {
    var q' := o / m;
    assert (q - q') * m == o % m - r;
    if q != q' {
      MultipleIsFar(q - q', m);
    }
  }
}
