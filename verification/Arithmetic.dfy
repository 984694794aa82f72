/** Facts about multiplication, division and 64-bit wrap-around that the solver needs to be told. */
module Arithmetic {
  import opened Basics

  lemma FloorBounds(x: nat, d: nat)
    requires d > 0
    ensures d * (x / d) <= x < d * (x / d) + d
  {
  }

  lemma WrapBound(x: nat)
    ensures Wrap64(x) <= x
    ensures x >= U64 ==> Wrap64(x) <= x - U64
  {
  }

  lemma Distribute(a: int, b: int, c: int)
    ensures a * (b + c) == a * b + a * c
  {
  }

  lemma MulMonotone(a: nat, b: nat, c: nat)
    requires b <= c
    ensures 0 <= a * b <= a * c
  {
  }

  lemma MulLess(a: nat, b: nat, c: nat)
    requires a * b < a * c
    ensures b < c
  {
    if b >= c {
      MulMonotone(a, c, b);
    }
  }

  lemma QuotientGap(a: nat, b: nat, d: nat)
    requires d > 0 && a + d <= b
    ensures a / d < b / d
  {
    FloorBounds(a, d);
    FloorBounds(b, d);
    Distribute(d, b / d, 1);
    MulLess(d, a / d, b / d);
  }

  lemma DivMonotone(a: nat, b: nat, d: nat)
    requires d > 0 && a <= b
    ensures a / d <= b / d
  {
    FloorBounds(a, d);
    FloorBounds(b, d);
    Distribute(d, b / d, 1);
    MulLess(d, a / d, b / d + 1);
  }

  lemma BiggerDivisor(x: nat, d: nat, e: nat)
    requires 0 < d <= e
    ensures x / e <= x / d
  {
    FloorBounds(x, d);
    FloorBounds(x, e);
    MulMonotone(x / e, d, e);
    Distribute(d, x / d, 1);
    MulLess(d, x / e, x / d + 1);
  }

  lemma QuotientUnique(x: nat, t: nat, q: nat, r: nat)
    requires t > 0 && x == t * q + r && r < t
    ensures x / t == q && x % t == r
  {
    FloorBounds(x, t);
    Distribute(t, x / t, 1);
    Distribute(t, q, 1);
    MulLess(t, q, x / t + 1);
    MulLess(t, x / t, q + 1);
  }

  lemma SmallQuotient(x: nat, d: nat)
    requires x < d
    ensures x / d == 0 && x % d == x
  {
  }

  lemma NextQuotient(x: nat, d: nat)
    requires d > 0
    ensures (x + d) / d == x / d + 1
  {
    FloorBounds(x, d);
    FloorBounds(x + d, d);
    var q: nat, p: nat := x / d, (x + d) / d;
    Distribute(d, q, 1);
    Distribute(d, q, 2);
    Distribute(d, p, 1);
    MulLess(d, q + 1, p + 1);
    MulLess(d, p, q + 2);
  }

  lemma QuotientSmall(h: nat, b: nat)
    requires b > 0
    ensures h / b <= h
  {
    FloorBounds(h, b);
    MulMonotone(h / b, 1, b);
  }

  lemma HeightSteps(h: nat, b: nat)
    requires h > 0 && b > 0
    ensures h / b == (h - 1) / b + if h % b == 0 then 1 else 0
  {
    var q, r := h / b, h % b;
    var p, t := (h - 1) / b, (h - 1) % b;
    assert h == b * q + r && h - 1 == b * p + t;
    if q > p + 1 {
      MulMonotone(b, p + 2, q);
      Distribute(b, p, 2);
      assert false;
    }
    if q < p {
      MulMonotone(b, q + 1, p);
      Distribute(b, q, 1);
      assert false;
    }
    Distribute(b, p, 1);
  }
}
