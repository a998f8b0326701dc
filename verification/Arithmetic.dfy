/** Facts about truncating division that the clock and scheduler arithmetic rests on. */
module Arithmetic {

  lemma MulLe(a: int, b: int, w: nat)
    ensures a <= b ==> a * w <= b * w
  {}

  lemma DivBounds(a: int, w: nat)
    requires w > 0
    ensures a / w * w <= a < a / w * w + w && a == a / w * w + a % w
  {}

  lemma OneMore(a: int, w: nat)
    ensures (a + 1) * w == a * w + w && (a - 1) * w == a * w - w
  {}

  /** The quotient is the number whose multiple is reached but not passed. */
  lemma DivIs(a: int, w: nat, q: int)
    requires w > 0 && q * w <= a < (q + 1) * w
    ensures a / w == q
  {
    var p := a / w;
    DivBounds(a, w);
    OneMore(p, w);
    MulLe(p + 1, q, w);
    MulLe(q + 1, p, w);
  }

  lemma DivMonotone(a: nat, b: nat, w: nat)
    requires w > 0 && a <= b
    ensures a / w <= b / w
  {
    var p, q := a / w, b / w;
    DivBounds(a, w);
    DivBounds(b, w);
    OneMore(q, w);
    MulLe(q + 1, p, w);
  }

  /** The whole part and the remainder can be scaled apart. */
  lemma ScaleApart(a: nat, w: nat, k: nat)
    requires w > 0
    ensures a * k / w == a / w * k + a % w * k / w
  {
    var q, r := a / w, a % w;
    var d, e := r * k / w, r * k % w;
    DivBounds(a, w);
    DivBounds(r * k, w);
    Distribute(q, w, r, k);
    Regroup(q, k, d, w);
    DivIs(a * k, w, q * k + d);
  }

  lemma Distribute(q: nat, w: nat, r: nat, k: nat)
    ensures (q * w + r) * k == q * k * w + r * k
  {
    assert q * w * k == q * k * w;
  }

  lemma Regroup(q: nat, k: nat, d: nat, w: nat)
    ensures (q * k + d) * w == q * k * w + d * w && (q * k + d + 1) * w == q * k * w + d * w + w
  {}

  /** A larger divisor gives a smaller quotient. */
  lemma DivByMore(a: nat, v: nat, w: nat)
    requires 0 < v <= w
    ensures a / w <= a / v
  {
    Below(a / w, w, v, a);
    DivMultiple(a / w, v, a);
  }

  lemma Below(p: nat, w: nat, v: nat, a: nat)
    requires w > 0 && v <= w && p == a / w
    ensures p * v <= a
  {
    DivBounds(a, w);
    MulLe(v, w, p);
  }

  lemma DivMultiple(p: nat, v: nat, a: nat)
    requires v > 0 && p * v <= a
    ensures p <= a / v
  {
    DivIs(p * v, v, p);
    DivMonotone(p * v, a, v);
  }
}
