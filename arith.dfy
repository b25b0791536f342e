/** Facts about multiplication, division and remainder that the index
    computations of the mesh and image code rest on. */
module Arith {

  lemma MulMono(a: nat, b: nat, c: nat)
    requires a <= b
    ensures a * c <= b * c
  {
  }

  lemma MulLe(a: int, b: int, c: int)
    requires a <= b && 0 < c
    ensures a * c <= b * c
  {
    assert b * c - a * c == (b - a) * c;
  }

  /** A quotient and remainder pair is the only one. */
  lemma DivModUnique(k: int, d: int, q: int, r: int)
    requires 0 < d && 0 <= r < d && k == q * d + r
    ensures k / d == q && k % d == r
  {
    var q' := k / d;
    if q < q' {
      MulLe(q + 1, q', d);
      assert false;
    } else if q' < q {
      MulLe(q' + 1, q, d);
      assert false;
    }
  }
}
