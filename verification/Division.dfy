// Division of natural numbers by a divisor that is not a constant.
module Division {

  function Quotient(v: nat, m: nat): nat requires m > 0 { v / m }

  function Remainder(v: nat, m: nat): nat requires m > 0 { v % m }

  lemma Divided(v: nat, m: nat)
    requires m > 0
    ensures v == Quotient(v, m) * m + Remainder(v, m) && Remainder(v, m) < m
  {
  }

  lemma ProductGrows(a: nat, b: nat, m: nat)
    requires a < b
    ensures a * m + m <= b * m
  {
    var c := b - a - 1;
    assert b * m == (a + 1 + c) * m == a * m + m + c * m;
  }

  /** Only one quotient and remainder make up a number. */
  lemma DivisionIsUnique(v: nat, m: nat, q: nat, r: nat)
    requires r < m && v == q * m + r
    ensures Quotient(v, m) == q && Remainder(v, m) == r
  {
    hide Quotient;
    hide Remainder;
    Divided(v, m);
    var w := Quotient(v, m);
    if w < q { ProductGrows(w, q, m); } else if q < w { ProductGrows(q, w, m); }
  }
}
