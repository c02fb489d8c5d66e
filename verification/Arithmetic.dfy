/** Facts about products and floor division that the pricing proofs rest on. */
module Arithmetic {

  lemma MulMono(a: int, b: int, c: int)
    requires a <= b && 0 <= c
    ensures a * c <= b * c
  {
    assert 0 <= (b - a) * c;
  }

  lemma MulMono2(a: int, b: int, c: int, d: int)
    requires 0 <= a <= b && 0 <= c <= d
    ensures a * c <= b * d
  {
    MulMono(a, b, c);
    MulMono(c, d, b);
  }

  lemma MulCancel(a: int, b: int, c: int)
    requires 0 < c && a * c <= b * c
    ensures a <= b
  {
    assert (b + 1) * c == b * c + c;
    if b < a {
      MulMono(b + 1, a, c);
    }
  }

  /** The source's unsigned division. */
  function Quot(n: nat, d: nat): nat
    requires 0 < d
  {
    n / d
  }

  lemma QuotBounds(n: nat, d: nat)
    requires 0 < d
    ensures Quot(n, d) * d <= n < Quot(n, d) * d + d
    ensures n % d == n - Quot(n, d) * d
  {
    assert n == (n / d) * d + n % d;
  }

  /** Floor division is the right adjoint of multiplication. */
  lemma QuotAdjoint(n: nat, d: nat, y: nat)
    requires 0 < d
    ensures y <= Quot(n, d) <==> y * d <= n
  {
    var q := Quot(n, d);
    QuotBounds(n, d);
    if y <= q {
      MulMono(y, q, d);
    } else {
      MulMono(q + 1, y, d);
      assert (q + 1) * d == q * d + d;
    }
  }

  function Min(a: nat, b: nat): nat
  {
    if a <= b then a else b
  }

  function SaturatingSub(a: nat, b: nat): nat
  {
    if b <= a then a - b else 0
  }
}
