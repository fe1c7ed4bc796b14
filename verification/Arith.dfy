/** Division facts used by every layer that translates between units. */
module Arith {

  lemma MulMono(a: nat, b: nat, d: nat)
    requires a <= b
    ensures a * d <= b * d
  {
    assert b * d == a * d + (b - a) * d;
  }

  lemma QuotientBelow(x: nat, n: nat, d: nat)
    requires 0 < d && x < n * d
    ensures x / d < n
  {
    if n <= x / d {
      MulMono(n, x / d, d);
      assert false;
    }
  }

  lemma DivModUnique(q: nat, r: nat, d: nat)
    requires r < d
    ensures (q * d + r) / d == q && (q * d + r) % d == r
  {
    var x := q * d + r;
    assert x < (q + 1) * d;
    QuotientBelow(x, q + 1, d);
    var q' := x / d;
    assert (q' + 1) * d == q' * d + d;
    if q' < q {
      MulMono(q' + 1, q, d);
      assert false;
    }
  }

  function Max(a: nat, b: nat): nat { if a < b then b else a }

  function Min(a: nat, b: nat): nat { if a < b then a else b }

  function CeilDiv(n: nat, d: nat): nat
    requires 0 < d
  {
    (n + d - 1) / d
  }

  lemma Distribute(a: nat, b: nat, c: nat)
    ensures (a + b) * c == a * c + b * c
  {
  }
}
