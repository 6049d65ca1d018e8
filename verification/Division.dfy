/** Dividing twice is dividing by the product. */
module Division {
  lemma DivTwice(x: nat, a: nat, b: nat)
    requires a > 0 && b > 0
    ensures a * b > 0 && x / a / b == x / (a * b)
  {
    MulPositive(a, b);
    var q, r := x / a / b, (x / a) % b;
    assert x / a == q * b + r;
    var s := x % a;
    assert x == (q * b + r) * a + s;
    MulSplit(q, b, r, a);
    assert x == q * (a * b) + (r * a + s);
    MulBelow(r, b, a, s);
    DivIs(x, a * b, q, r * a + s);
  }

  lemma MulPositive(a: nat, b: nat)
    requires a > 0 && b > 0
    ensures a * b > 0
  {
  }

  lemma MulSplit(q: nat, b: nat, r: nat, a: nat)
    ensures (q * b + r) * a == q * (a * b) + r * a
  {
  }

  lemma MulBelow(r: nat, b: nat, a: nat, s: nat)
    requires r < b && s < a
    ensures 0 <= r * a + s < a * b
  {
    assert (b - 1 - r) * a >= 0;
    assert r * a + a + (b - 1 - r) * a == b * a;
  }

  lemma DivIs(x: nat, d: nat, q: nat, r: nat)
    requires d > 0 && x == q * d + r && r < d
    ensures x / d == q
  {
    var p, t := x / d, x % d;
    Same(p, t, q, r, d, x);
  }

  /** Quotient and remainder are unique. */
  lemma Same(p: nat, t: nat, q: nat, r: nat, d: nat, x: nat)
    requires x == p * d + t && x == q * d + r && t < d && r < d
    ensures p == q
  {
    if p > q {
      Apart(p, q, d);
    } else if q > p {
      Apart(q, p, d);
    }
  }

  lemma Apart(p: nat, q: nat, d: nat)
    requires p > q
    ensures p * d >= q * d + d
  {
    assert (p - q - 1) * d >= 0;
    assert p * d == q * d + d + (p - q - 1) * d;
  }
}
