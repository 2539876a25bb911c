/**
 * Powers of two, division with remainder, and the little nonlinear arithmetic
 * that other modules need.
 */
module Arith {

  function Pow2(k: nat): (p: nat)
    ensures p >= 1
  {
    if k == 0 then 1 else 2 * Pow2(k - 1)
  }

  /** Quotient and remainder, with what the proofs need of them. */
  function Quot(x: nat, d: nat): (q: nat)
    requires d >= 1
    ensures q * d <= x < q * d + d
  {
    x / d
  }

  function Rem(x: nat, d: nat): (r: nat)
    requires d >= 1
    ensures r < d && r <= x && x == Quot(x, d) * d + r
  {
    x - Quot(x, d) * d
  }

  lemma {:induction false} Pow2Add(a: nat, b: nat)
    ensures Pow2(a + b) == Pow2(a) * Pow2(b)
  {
    if a > 0 {
      Pow2Add(a - 1, b);
      assert Pow2(a + b) == 2 * Pow2(a - 1 + b);
      assert 2 * (Pow2(a - 1) * Pow2(b)) == 2 * Pow2(a - 1) * Pow2(b);
    }
  }

  lemma Pow2Mono(a: nat, b: nat)
    requires a <= b
    ensures Pow2(a) <= Pow2(b)
  {
    Pow2Add(a, b - a);
    assert Pow2(a) * Pow2(b - a) >= Pow2(a) * 1;
  }

  lemma NextPow2(k: nat)
    ensures Pow2(k + 1) == 2 * Pow2(k)
  {
  }

  lemma MulMono(a: nat, b: nat, d: nat)
    requires a <= b
    ensures a * d <= b * d
  {
  }

  lemma Associate(a: nat, b: nat, c: nat)
    ensures a * (b * c) == a * b * c
  {
  }

  lemma Distribute(a: nat, b: nat, q: nat)
    ensures (a + b) * q == a * q + b * q
  {
  }

  lemma Swap(a: nat, b: nat)
    ensures a * b == b * a
  {
  }

  /** Quotient and remainder are determined by the usual equation. */
  lemma QuotRem(x: nat, d: nat, q: nat, r: nat)
    requires x == q * d + r && r < d
    ensures Quot(x, d) == q && Rem(x, d) == r
  {
    hide Quot;
    var q' := Quot(x, d);
    if q' < q {
      MulMono(q' + 1, q, d);
    } else if q' > q {
      MulMono(q + 1, q', d);
    }
  }

  /** A multiple of the modulus makes no difference. */
  lemma ModShift(a: nat, d: nat, x: nat)
    requires d >= 1
    ensures Rem(a * d + x, d) == Rem(x, d) && Quot(a * d + x, d) == a + Quot(x, d)
  {
    hide Quot, Rem;
    var q, r := Quot(x, d), Rem(x, d);
    assert a * d + x == (a + q) * d + r;
    QuotRem(a * d + x, d, a + q, r);
  }
}
