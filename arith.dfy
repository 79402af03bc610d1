/** Small facts about multiplication and division by a variable divisor, which the solver does not find alone. */
module Arith {

  lemma DivModUnique(q: nat, r: nat, d: nat)
    requires 0 < d && r < d
    ensures (q * d + r) / d == q && (q * d + r) % d == r
  {
    var n := q * d + r;
    var q', r' := n / d, n % d;
    assert n == q' * d + r';
    assert (q' - q) * d == r - r';
    if q' > q {
      MulAtLeast(q' - q, d);
    } else if q' < q {
      MulAtLeast(q - q', d);
    }
  }

  lemma MulAtLeast(a: int, d: nat)
    requires a >= 1
    ensures a * d >= d
  {
  }

  lemma DivBelow(i: nat, w: nat, h: nat)
    requires i < w * h
    ensures w > 0 && i / w < h
  {
    assert w > 0;
    assert (i / w) * w <= i;
    if i / w >= h {
      MulLe(h, i / w, w);
    }
  }

  lemma MulLe(a: nat, b: nat, c: nat)
    requires a <= b
    ensures a * c <= b * c
  {
  }
}
