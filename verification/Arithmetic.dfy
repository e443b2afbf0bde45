/** Facts about products and quotients of natural numbers. */
module Arithmetic {

  function Div(x: nat, d: nat): (q: nat)
    requires d > 0
    ensures d * q <= x < d * (q + 1)
  {
    x / d
  }

  lemma TimesIsMonotone(d: nat, a: nat, b: nat)
    requires a <= b
    ensures d * a <= d * b
  {
  }

  lemma TimesDistributes(a: int, b: int, c: int)
    ensures a * (b + c) == a * b + a * c
  {
  }

  lemma TimesAssociates(a: nat, b: nat, c: nat)
    ensures a * (b * c) == a * b * c
  {
  }

  lemma Quotient(x: nat, d: nat, q: nat, r: nat)
    requires d > 0 && x == d * q + r && r < d
    ensures x / d == q && x % d == r
  {
    var y := x / d;
    if y < q {
      TimesIsMonotone(d, y + 1, q);
    } else if y > q {
      TimesIsMonotone(d, q + 1, y);
    }
  }

  lemma NestedRemainder(d: nat, e: nat, y: nat, s: nat, q: nat, r: nat)
    requires s < d && y == e * q + r && r < e
    ensures d * y + s == d * e * q + (d * r + s)
    ensures d * r + s < d * e
  {
    TimesIsMonotone(d, r + 1, e);
    assert d * (e * q + r) == d * (e * q) + d * r;
    assert d * (e * q) == d * e * q;
  }

  lemma DivideTwice(x: nat, d: nat, e: nat)
    requires d > 0 && e > 0
    ensures d * e > 0 && x / (d * e) == x / d / e
    ensures x % (d * e) == d * (x / d % e) + x % d
  {
    var y := x / d;
    NestedRemainder(d, e, y, x % d, y / e, y % e);
    Quotient(x, d * e, y / e, d * (y % e) + x % d);
  }
}
