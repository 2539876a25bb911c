/**
 * floor, ceil, round and trunc on the bits of a floating-point number, for any
 * binary interchange format of IEEE 754-2008; float and double are two of
 * them. Section 5.9 of the standard, with ties away from zero for round.
 */
module Rounding {
  import opened Arith

  /** Bits of the fraction and of the exponent. */
  datatype Format = Format(m: nat, e: nat)

  const FLOAT: Format := Format(23, 8)
  const DOUBLE: Format := Format(52, 11)

  function Bias(f: Format): nat
    requires f.e >= 1
  {
    Pow2(f.e - 1) - 1
  }

  ghost predicate ValidFormat(f: Format) {
    f.m >= 1 && f.e >= 3 && f.m <= Bias(f)
  }

  function SignBit(f: Format): nat {
    Pow2(f.e + f.m)
  }

  ghost predicate IsPattern(f: Format, p: nat) {
    p < 2 * SignBit(f)
  }

  predicate Negative(f: Format, p: nat) {
    p >= SignBit(f)
  }

  function Body(f: Format, p: nat): nat {
    if Negative(f, p) then p - SignBit(f) else p
  }

  function ExpField(f: Format, p: nat): nat {
    Quot(Body(f, p), Pow2(f.m))
  }

  /** EXP_F32 and EXP_F64. */
  function Exp(f: Format, p: nat): int
    requires f.e >= 1
  {
    ExpField(f, p) - Bias(f)
  }

  ghost predicate Finite(f: Format, p: nat)
    requires f.e >= 1
  {
    ExpField(f, p) < 2 * Bias(f) + 1
  }

  // ----------------------------------------------------------------- values

  /** The magnitude of a finite number, in units of the smallest subnormal. */
  ghost function Mag(f: Format, u: nat): nat {
    var ef, frac := Quot(u, Pow2(f.m)), Rem(u, Pow2(f.m));
    if ef == 0 then frac else (Pow2(f.m) + frac) * Pow2(ef - 1)
  }

  ghost function Val(f: Format, p: nat): int {
    if Negative(f, p) then -(Mag(f, Body(f, p)) as int) else Mag(f, Body(f, p))
  }

  /** The number one, in the same units. */
  ghost function One(f: Format): (n: nat)
    requires f.e >= 2 && f.m >= 1
    ensures n >= 1
  {
    Pow2(Bias(f) + f.m - 1)
  }

  // -------------------------------------------------------------- the code

  /** x & ~msk, where msk has the low `k` bits. */
  function Clear(x: nat, k: nat): (y: nat)
    ensures y <= x
  {
    x - Rem(x, Pow2(k))
  }

  function OneBits(f: Format): nat
    requires f.e >= 1
  {
    Bias(f) * Pow2(f.m)
  }

  function Floor(f: Format, p: nat): nat
    requires f.e >= 1
  {
    var exp := Exp(f, p);
    if exp < 0 then
      if p == SignBit(f) then SignBit(f) else if Negative(f, p) then SignBit(f) + OneBits(f) else 0
    else if exp < f.m then
      var msk := Pow2(f.m - exp) - 1;
      Clear(p + (if Negative(f, p) then msk else 0), f.m - exp)
    else p
  }

  function Ceil(f: Format, p: nat): nat
    requires f.e >= 1
  {
    var exp := Exp(f, p);
    if exp < 0 then
      if Negative(f, p) then SignBit(f) else if p == 0 then 0 else OneBits(f)
    else if exp < f.m then
      var msk := Pow2(f.m - exp) - 1;
      Clear(p + (if Negative(f, p) then 0 else msk), f.m - exp)
    else p
  }

  function Round(f: Format, p: nat): nat
    requires f.e >= 1
  {
    var exp := Exp(f, p);
    if exp < -1 then
      if Negative(f, p) then SignBit(f) else 0
    else if exp == -1 then
      if Negative(f, p) then SignBit(f) + OneBits(f) else OneBits(f)
    else if exp < f.m then
      var msk := Pow2(f.m - exp) - 1;
      if Rem(p, Pow2(f.m - exp)) != 0 then Clear(p + (1 + msk / 2), f.m - exp) else p
    else p
  }

  function Trunc(f: Format, p: nat): nat
    requires f.e >= 1
  {
    var exp := Exp(f, p);
    if exp < 0 then
      if Negative(f, p) then SignBit(f) else 0
    else if exp < f.m then Clear(p, f.m - exp)
    else p
  }

  // ------------------------------------------------------------ arithmetic

  /** Clearing low bits leaves a multiple of a larger power of two alone. */
  lemma ClearShift(a: nat, big: nat, k: nat, x: nat)
    requires k <= big
    ensures Clear(a * Pow2(big) + x, k) == a * Pow2(big) + Clear(x, k)
  {
    hide *;
    Pow2Add(big - k, k);
    Associate(a, Pow2(big - k), Pow2(k));
    ModShift(a * Pow2(big - k), Pow2(k), x);
    ClearIs(a * Pow2(big) + x, k);
    ClearIs(x, k);
  }

  lemma ClearIs(x: nat, k: nat)
    ensures Clear(x, k) == x - Rem(x, Pow2(k))
  {
    hide Rem, Pow2;
  }

  // ------------------------------------------------------- inside a binade

  /** Adding to the fraction adds to the magnitude, up to and including the next power of two. */
  lemma MagLinear(f: Format, ef: nat, d: nat)
    requires ef >= 1 && d <= Pow2(f.m)
    ensures Mag(f, ef * Pow2(f.m) + d) == (Pow2(f.m) + d) * Pow2(ef - 1)
  {
    hide *;
    var b := Pow2(f.m);
    if d < b {
      QuotRem(ef * b + d, b, ef, d);
      MagIs(f, ef * b + d);
    } else {
      Distribute(ef, 1, b);
      QuotRem(ef * b + d, b, ef + 1, 0);
      MagIs(f, ef * b + d);
      NextPow2(ef - 1);
      DoubleUp(b, Pow2(ef - 1));
    }
  }

  lemma MagIs(f: Format, u: nat)
    requires Quot(u, Pow2(f.m)) >= 1
    ensures Mag(f, u) == (Pow2(f.m) + Rem(u, Pow2(f.m))) * Pow2(Quot(u, Pow2(f.m)) - 1)
  {
    hide Quot, Rem, Pow2;
  }

  lemma DoubleUp(b: nat, w: nat)
    ensures (b + b) * w == (b + 0) * (2 * w)
  {
  }

  /** One is 2^k units of the last place that carries weight here. */
  lemma OneSplit(f: Format, exp: nat)
    requires ValidFormat(f) && exp < f.m
    ensures One(f) == Pow2(f.m - exp) * Pow2(exp + Bias(f) - 1) && Bias(f) >= 1
  {
    Pow2Add(f.m - exp, exp + Bias(f) - 1);
  }

  /** The body of a number, taken apart. */
  lemma Parts(f: Format, p: nat)
    requires IsPattern(f, p)
    ensures Body(f, p) == ExpField(f, p) * Pow2(f.m) + Rem(Body(f, p), Pow2(f.m)) < SignBit(f)
    ensures p == (if Negative(f, p) then SignBit(f) else 0) + Body(f, p)
  {
    hide Quot, Rem, Pow2;
  }

  // ------------------------------------------------------- what is promised

  /** The integers around a magnitude, in units where one is `one`: below, above, and nearest with ties upwards. */
  ghost function Down(x: nat, one: nat): nat
    requires one >= 1
  {
    Quot(x, one) * one
  }

  ghost function Up(x: nat, one: nat): nat
    requires one >= 1
  {
    Quot(x + one - 1, one) * one
  }

  ghost function Near(x: nat, one: nat): nat
    requires one >= 1
  {
    Quot(2 * x + one, 2 * one) * one
  }

  /** They are what their names say. */
  lemma Bounds(x: nat, one: nat)
    requires one >= 1
    ensures Down(x, one) <= x < Down(x, one) + one
    ensures Up(x, one) - one < x <= Up(x, one)
    ensures 2 * Near(x, one) - one <= 2 * x < 2 * Near(x, one) + one
  {
    hide Quot;
    var t := Quot(2 * x + one, 2 * one);
    assert t * (2 * one) == 2 * (t * one);
  }

  lemma Cancel(n: nat, q: nat, w: nat)
    requires q >= 1 && w >= 1
    ensures q * w >= 1
    ensures Quot(n * w, q * w) == Quot(n, q)
    ensures Quot(n * w + q * w - 1, q * w) == Quot(n + q - 1, q)
  {
    CancelAt(n, q, w, 0);
    CancelAt(n + q - 1, q, w, w - 1);
    assert (n + q - 1) * w + (w - 1) == n * w + q * w - 1;
  }

  lemma CancelAt(n: nat, q: nat, w: nat, d: nat)
    requires q >= 1 && w >= 1 && d < w
    ensures q * w >= 1 && Quot(n * w + d, q * w) == Quot(n, q)
  {
    hide Quot, Rem;
    var t, r := Quot(n, q), Rem(n, q);
    MulMono(1, q, w);
    MulMono(r + 1, q, w);
    assert (r + 1) * w == r * w + w;
    assert n * w + d == t * (q * w) + (r * w + d) by {
      assert n * w == (t * q + r) * w == t * q * w + r * w;
      assert t * q * w == t * (q * w);
    }
    QuotRem(n * w + d, q * w, t, r * w + d);
  }

  /** A multiple of one stays. */
  lemma Multiple(a: nat, one: nat)
    requires one >= 1
    ensures Down(a * one, one) == Up(a * one, one) == Near(a * one, one) == a * one
  {
    QuotRem(a * one, one, a, 0);
    QuotRem(a * one + one - 1, one, a, one - 1);
    assert 2 * (a * one) + one == a * (2 * one) + one;
    QuotRem(2 * (a * one) + one, 2 * one, a, one);
    hide Quot;
  }

  /** Below one. */
  lemma Small(x: nat, one: nat)
    requires x < one
    ensures Down(x, one) == 0 && Up(x, one) == (if x == 0 then 0 else one) && Near(x, one) == if 2 * x < one then 0 else one
  {
    QuotRem(x, one, 0, x);
    if x == 0 { QuotRem(one - 1, one, 0, one - 1); } else { QuotRem(x + one - 1, one, 1, x - 1); }
    if 2 * x < one { QuotRem(2 * x + one, 2 * one, 0, 2 * x + one); } else { QuotRem(2 * x + one, 2 * one, 1, 2 * x - one); }
    hide Quot;
  }

  // -------------------------------------------------- the three ranges

  /** With exponent at least the number of fraction bits, every finite number is an integer. */
  lemma Integral(f: Format, p: nat) returns (a: nat)
    requires ValidFormat(f) && IsPattern(f, p) && Exp(f, p) >= f.m
    ensures Mag(f, Body(f, p)) == a * One(f)
  {
    var ef, b := ExpField(f, p), Pow2(f.m);
    hide Quot, Rem, Pow2;
    var n := b + Rem(Body(f, p), b);
    Pow2Add(ef - Bias(f) - f.m, Bias(f) + f.m - 1);
    var w := Pow2(ef - Bias(f) - f.m);
    Associate(n, w, One(f));
    a := n * w;
  }

  /** With negative exponent it is below one; below a half, if the exponent is below -1; otherwise at least a half. */
  lemma Fractional(f: Format, p: nat)
    requires ValidFormat(f) && IsPattern(f, p) && Exp(f, p) < 0
    ensures Mag(f, Body(f, p)) < One(f)
    ensures 2 * Mag(f, Body(f, p)) < One(f) <==> Exp(f, p) < -1
  {
    var ef, b := ExpField(f, p), Pow2(f.m);
    var frac := Rem(Body(f, p), b);
    BiasAtLeast3(f);
    hide Quot, Rem, Pow2, Bias;
    if ef == 0 {
      FractionalSubnormal(f, frac);
    } else {
      FractionalNormal(f, ef, frac);
    }
  }

  lemma BiasAtLeast3(f: Format)
    requires ValidFormat(f)
    ensures Bias(f) >= 3
  {
    assert Pow2(f.e - 1) == 2 * (2 * Pow2(f.e - 3));
  }

  lemma FractionalSubnormal(f: Format, frac: nat)
    requires ValidFormat(f) && frac < Pow2(f.m)
    ensures 2 * frac < One(f)
  {
    BiasAtLeast3(f);
    Pow2Add(f.m, Bias(f) - 1);
    Pow2Mono(1, Bias(f) - 1);
    assert Pow2(1) == 2;
    hide Pow2;
    MulMono(2, Pow2(Bias(f) - 1), Pow2(f.m));
    Swap(Pow2(f.m), Pow2(Bias(f) - 1));
  }

  lemma FractionalNormal(f: Format, ef: nat, frac: nat)
    requires ValidFormat(f) && 1 <= ef < Bias(f) && frac < Pow2(f.m)
    ensures (Pow2(f.m) + frac) * Pow2(ef - 1) < One(f)
    ensures 2 * ((Pow2(f.m) + frac) * Pow2(ef - 1)) < One(f) <==> ef < Bias(f) - 1
  {
    var b, w, rest := Pow2(f.m), Pow2(ef - 1), Bias(f) - ef;
    assert One(f) == b * (Pow2(rest) * w) by {
      Pow2Add(f.m, rest + (ef - 1));
      Pow2Add(rest, ef - 1);
      assert f.m + (rest + (ef - 1)) == Bias(f) + f.m - 1;
    }
    assert Pow2(1) == 2 && Pow2(2) == 4;
    if rest >= 2 { Pow2Mono(2, rest); }
    hide Pow2;
    BelowOne(b, w, frac, Pow2(rest));
  }

  lemma BelowOne(b: nat, w: nat, frac: nat, r: nat)
    requires frac < b && w >= 1 && (r == 2 || r >= 4)
    ensures (b + frac) * w < b * (r * w)
    ensures 2 * ((b + frac) * w) < b * (r * w) <==> r >= 4
  {
    var bw, x := b * w, (b + frac) * w;
    assert b * (r * w) == r * bw by { assert b * (r * w) == r * (b * w); }
    assert bw <= x < 2 * bw by {
      assert x == bw + frac * w;
      MulMono(frac + 1, b, w);
      assert (frac + 1) * w == frac * w + w;
    }
    if r >= 4 { MulMono(4, r, bw); }
  }

  /** Clearing the bits behind the point after adding `c`, on the fraction alone: the result may carry into the exponent. */
  lemma FractionCleared(m: nat, k: nat, frac: nat, c: nat)
    requires k <= m && frac < Pow2(m) && c < Pow2(k)
    ensures Clear(frac + c, k) <= Pow2(m)
    ensures Pow2(m) + Clear(frac + c, k) == Quot(Pow2(m) + frac + c, Pow2(k)) * Pow2(k)
  {
    hide *;
    var q, t := Pow2(k), Quot(frac + c, Pow2(k));
    Pow2Add(m - k, k);
    ClearCount(frac + c, k);
    AtMost(t, q, Pow2(m - k), frac + c);
    ModShift(Pow2(m - k), q, frac + c);
    Distribute(Pow2(m - k), t, q);
    assert Pow2(m - k) * q + (frac + c) == Pow2(m) + frac + c;
  }

  lemma AtMost(t: nat, q: nat, n: nat, x: nat)
    requires t * q <= x < n * q + q
    ensures t <= n && t * q <= n * q
  {
    Distribute(n, 1, q);
    if t > n { MulMono(n + 1, t, q); } else { MulMono(t, n, q); }
  }

  lemma ClearCount(x: nat, k: nat)
    ensures Clear(x, k) == Quot(x, Pow2(k)) * Pow2(k)
  {
    hide Quot, Pow2;
  }

  /** Clearing acts on the fraction only. */
  lemma BodyCleared(f: Format, p: nat, k: nat, c: nat)
    requires IsPattern(f, p) && k <= f.m
    ensures Clear(p + c, k) ==
      (if Negative(f, p) then SignBit(f) else 0) + (ExpField(f, p) * Pow2(f.m) + Clear(Rem(Body(f, p), Pow2(f.m)) + c, k))
  {
    hide Pow2, Quot, Rem, Clear;
    Parts(f, p);
    var ef, frac := ExpField(f, p), Rem(Body(f, p), Pow2(f.m));
    ClearShift(ef, f.m, k, frac + c);
    ClearShift(1, f.e + f.m, k, Body(f, p) + c);
    assert 1 * Pow2(f.e + f.m) == SignBit(f);
  }

  lemma BodyFits(f: Format, ef: nat, d: nat)
    requires ValidFormat(f) && ef <= 2 * Bias(f) - 1 && d <= Pow2(f.m)
    ensures ef * Pow2(f.m) + d < SignBit(f) && Quot(ef * Pow2(f.m) + d, Pow2(f.m)) < 2 * Bias(f) + 1
  {
    hide Pow2, Quot, Bias, SignBit;
    var b, x, n := Pow2(f.m), ef * Pow2(f.m) + d, 2 * Bias(f);
    SignBitIs(f);
    MulMono(ef + 1, n, b);
    Distribute(ef, 1, b);
    Distribute(n, 1, b);
    Distribute(n, 2, b);
    if Quot(x, b) >= n + 1 {
      MulMono(n + 1, Quot(x, b), b);
      assert false;
    }
  }

  lemma SignBitIs(f: Format)
    requires ValidFormat(f)
    ensures SignBit(f) == (2 * Bias(f) + 2) * Pow2(f.m)
  {
    Pow2Add(f.e, f.m);
    NextPow2(f.e - 1);
    hide Pow2;
  }

  /** A sign and a body make a pattern. */
  lemma Assembled(f: Format, negative: bool, body: nat)
    requires body < SignBit(f)
    ensures var r := (if negative then SignBit(f) else 0) + body; IsPattern(f, r) && Negative(f, r) == negative && Body(f, r) == body
  {
    hide Pow2;
  }

  ghost predicate Between(f: Format, p: nat) {
    ValidFormat(f) && IsPattern(f, p) && 0 <= Exp(f, p) < f.m
  }

  ghost function Fraction(f: Format, p: nat): nat
  {
    Pow2(f.m) + Rem(Body(f, p), Pow2(f.m))
  }

  lemma MiddleMag(f: Format, p: nat)
    requires Between(f, p)
    ensures ExpField(f, p) >= 1 && One(f) == Pow2(f.m - Exp(f, p)) * Pow2(ExpField(f, p) - 1)
    ensures Mag(f, Body(f, p)) == Fraction(f, p) * Pow2(ExpField(f, p) - 1)
  {
    hide Pow2, Quot, Rem;
    OneSplit(f, Exp(f, p));
    Parts(f, p);
    MagLinear(f, ExpField(f, p), Rem(Body(f, p), Pow2(f.m)));
  }

  /** In between: what clearing makes of a number. */
  lemma Middle(f: Format, p: nat, c: nat)
    requires Between(f, p) && c < Pow2(f.m - Exp(f, p))
    ensures var r := Clear(p + c, f.m - Exp(f, p));
      && IsPattern(f, r) && Negative(f, r) == Negative(f, p) && Finite(f, r)
      && Mag(f, Body(f, r)) == Quot(Fraction(f, p) + c, Pow2(f.m - Exp(f, p))) * One(f)
  {
    hide Pow2, Quot, Rem, Clear, Mag;
    var ef, b := ExpField(f, p), Pow2(f.m);
    var k, frac := f.m - Exp(f, p), Rem(Body(f, p), b);
    var d := Clear(frac + c, k);
    MiddleMag(f, p);
    BodyCleared(f, p, k, c);
    FractionCleared(f.m, k, frac, c);
    BodyFits(f, ef, d);
    Assembled(f, Negative(f, p), ef * b + d);
    MagLinear(f, ef, d);
    Regroup(Quot(Fraction(f, p) + c, Pow2(k)), Pow2(k), Pow2(ef - 1), b + d);
  }

  lemma Regroup(t: nat, q: nat, w: nat, x: nat)
    requires x == t * q
    ensures x * w == t * (q * w)
  {
  }

  // ----------------------------------------------------------- the results

  /** `r` has the sign of `p` and the given magnitude. */
  ghost predicate Rounded(f: Format, p: nat, r: nat, mag: nat)
    requires f.e >= 1
  {
    IsPattern(f, r) && Finite(f, r) && Negative(f, r) == Negative(f, p) && Mag(f, Body(f, r)) == mag
  }

  lemma MiddleDown(f: Format, p: nat)
    requires Between(f, p)
    ensures Rounded(f, p, Clear(p, f.m - Exp(f, p)), Down(Mag(f, Body(f, p)), One(f)))
  {
    hide Pow2, Quot, Rem, Clear, Mag;
    var q, w, n := Pow2(f.m - Exp(f, p)), Pow2(ExpField(f, p) - 1), Fraction(f, p);
    MiddleMag(f, p);
    Middle(f, p, 0);
    Cancel(n, q, w);
  }

  lemma MiddleUp(f: Format, p: nat)
    requires Between(f, p)
    ensures Rounded(f, p, Clear(p + (Pow2(f.m - Exp(f, p)) - 1), f.m - Exp(f, p)), Up(Mag(f, Body(f, p)), One(f)))
  {
    hide Pow2, Quot, Rem, Clear, Mag;
    var q, w, n := Pow2(f.m - Exp(f, p)), Pow2(ExpField(f, p) - 1), Fraction(f, p);
    MiddleMag(f, p);
    Middle(f, p, q - 1);
    Cancel(n, q, w);
  }

  lemma MiddleNear(f: Format, p: nat)
    requires Between(f, p)
    ensures Rounded(f, p, Clear(p + (1 + (Pow2(f.m - Exp(f, p)) - 1) / 2), f.m - Exp(f, p)), Near(Mag(f, Body(f, p)), One(f)))
  {
    hide Pow2, Quot, Rem, Clear, Mag;
    var q, w, n := Pow2(f.m - Exp(f, p)), Pow2(ExpField(f, p) - 1), Fraction(f, p);
    var h := Pow2(f.m - Exp(f, p) - 1);
    NextPow2(f.m - Exp(f, p) - 1);
    assert 1 + (q - 1) / 2 == h;
    MiddleMag(f, p);
    Middle(f, p, h);
    NearHalf(n, h, w);
  }

  lemma NearHalf(n: nat, h: nat, w: nat)
    requires h >= 1 && w >= 1
    ensures 2 * h * w >= 1 && Near(n * w, 2 * h * w) == Quot(n + h, 2 * h) * (2 * h * w)
  {
    hide Quot;
    CancelAt(n + h, 2 * h, 2 * w, 0);
    MulMono(1, 2 * h, w);
    assert (n + h) * (2 * w) + 0 == 2 * (n * w) + 2 * h * w;
    assert 2 * h * (2 * w) == 2 * (2 * h * w);
  }

  /** Already an integer behind the point: rounding to the nearest would not move it. */
  lemma MiddleExact(f: Format, p: nat)
    requires Between(f, p) && Rem(p, Pow2(f.m - Exp(f, p))) == 0
    ensures Rounded(f, p, p, Near(Mag(f, Body(f, p)), One(f)))
  {
    var one, k := One(f), f.m - Exp(f, p);
    MiddleDown(f, p);
    assert Clear(p, k) == p;
    hide Pow2, Quot, Rem, Clear, Mag;
    var a := Quot(Mag(f, Body(f, p)), one);
    Multiple(a, one);
  }

  lemma ZeroBits(f: Format, negative: bool, p: nat)
    requires ValidFormat(f) && IsPattern(f, p) && Negative(f, p) == negative
    ensures Rounded(f, p, if negative then SignBit(f) else 0, 0)
  {
    Assembled(f, negative, 0);
    QuotRem(0, Pow2(f.m), 0, 0);
    hide Pow2, Quot, Rem;
  }

  lemma OneIs(f: Format, negative: bool, p: nat)
    requires ValidFormat(f) && IsPattern(f, p) && Negative(f, p) == negative
    ensures Rounded(f, p, (if negative then SignBit(f) else 0) + OneBits(f), One(f))
  {
    assert Bias(f) >= 1 && 0 <= Pow2(f.m);
    BodyFits(f, Bias(f), 0);
    Assembled(f, negative, OneBits(f));
    MagLinear(f, Bias(f), 0);
    Pow2Add(f.m, Bias(f) - 1);
    hide Pow2, Quot, Rem, Mag;
  }

  /** Only zeros have magnitude zero. */
  lemma MagZero(f: Format, u: nat)
    ensures Mag(f, u) == 0 <==> u == 0
  {
    hide Pow2, Quot, Rem;
    var ef, frac, b := Quot(u, Pow2(f.m)), Rem(u, Pow2(f.m)), Pow2(f.m);
    assert u == ef * b + frac;
    if ef == 0 {
      assert u == frac;
    } else {
      MulMono(1, ef, b);
      MulMono(1, Pow2(ef - 1), b + frac);
      assert (b + frac) * Pow2(ef - 1) == Pow2(ef - 1) * (b + frac);
    }
  }

  lemma Whole(f: Format, p: nat)
    requires ValidFormat(f) && IsPattern(f, p) && Exp(f, p) >= f.m && Finite(f, p)
    ensures var x := Mag(f, Body(f, p)); Rounded(f, p, p, x) && Down(x, One(f)) == Up(x, One(f)) == Near(x, One(f)) == x
  {
    var a := Integral(f, p);
    Multiple(a, One(f));
  }

  /** Infinities and NaNs come out as they are. */
  lemma NotFinite(f: Format, p: nat)
    requires ValidFormat(f) && !Finite(f, p)
    ensures Floor(f, p) == Ceil(f, p) == Round(f, p) == Trunc(f, p) == p
  {
    hide Pow2, Quot;
  }

  lemma BelowOneIs(f: Format, p: nat)
    requires ValidFormat(f) && IsPattern(f, p) && Exp(f, p) < 0
    ensures var x := Mag(f, Body(f, p));
      && Down(x, One(f)) == 0 && Up(x, One(f)) == (if Body(f, p) == 0 then 0 else One(f))
      && Near(x, One(f)) == if Exp(f, p) < -1 then 0 else One(f)
  {
    hide Pow2, Quot, Rem, Mag;
    Fractional(f, p);
    MagZero(f, Body(f, p));
    Small(Mag(f, Body(f, p)), One(f));
  }

  lemma FloorExact(f: Format, p: nat)
    requires ValidFormat(f) && IsPattern(f, p) && Finite(f, p)
    ensures var x := Mag(f, Body(f, p)); Rounded(f, p, Floor(f, p), if Negative(f, p) then Up(x, One(f)) else Down(x, One(f)))
  {
    hide Pow2, Quot, Rem, Mag, Clear, Rounded, Up, Down;
    if Exp(f, p) < 0 {
      BelowOneIs(f, p);
      ZeroBits(f, Negative(f, p), p);
      OneIs(f, Negative(f, p), p);
    } else if Exp(f, p) < f.m {
      MiddleUp(f, p);
      MiddleDown(f, p);
    } else {
      Whole(f, p);
    }
  }

  lemma CeilExact(f: Format, p: nat)
    requires ValidFormat(f) && IsPattern(f, p) && Finite(f, p)
    ensures var x := Mag(f, Body(f, p)); Rounded(f, p, Ceil(f, p), if Negative(f, p) then Down(x, One(f)) else Up(x, One(f)))
  {
    hide Pow2, Quot, Rem, Mag, Clear, Rounded, Up, Down;
    if Exp(f, p) < 0 {
      BelowOneIs(f, p);
      ZeroBits(f, Negative(f, p), p);
      OneIs(f, Negative(f, p), p);
    } else if Exp(f, p) < f.m {
      MiddleUp(f, p);
      MiddleDown(f, p);
    } else {
      Whole(f, p);
    }
  }

  lemma TruncExact(f: Format, p: nat)
    requires ValidFormat(f) && IsPattern(f, p) && Finite(f, p)
    ensures Rounded(f, p, Trunc(f, p), Down(Mag(f, Body(f, p)), One(f)))
  {
    hide Pow2, Quot, Rem, Mag, Clear, Rounded, Down;
    if Exp(f, p) < 0 {
      BelowOneIs(f, p);
      ZeroBits(f, Negative(f, p), p);
    } else if Exp(f, p) < f.m {
      MiddleDown(f, p);
    } else {
      Whole(f, p);
    }
  }

  lemma RoundExact(f: Format, p: nat)
    requires ValidFormat(f) && IsPattern(f, p) && Finite(f, p)
    ensures Rounded(f, p, Round(f, p), Near(Mag(f, Body(f, p)), One(f)))
  {
    hide Pow2, Quot, Rem, Mag, Clear, Rounded, Near;
    if Exp(f, p) < 0 {
      BelowOneIs(f, p);
      ZeroBits(f, Negative(f, p), p);
      OneIs(f, Negative(f, p), p);
    } else if Exp(f, p) < f.m {
      if Rem(p, Pow2(f.m - Exp(f, p))) == 0 { MiddleExact(f, p); } else { MiddleNear(f, p); }
    } else {
      Whole(f, p);
    }
  }

  // ---------------------------------------------------------- in signed terms

  ghost predicate IsInteger(f: Format, p: nat)
    requires f.e >= 2 && f.m >= 1
  {
    Rem(Mag(f, Body(f, p)), One(f)) == 0
  }

  lemma RoundedInteger(f: Format, p: nat, r: nat, a: nat)
    requires ValidFormat(f) && Rounded(f, p, r, a * One(f))
    ensures IsInteger(f, r)
  {
    QuotRem(a * One(f), One(f), a, 0);
    hide Quot, Rem, Mag, Pow2;
  }

  /**
   * For every finite number of the format, zeros and subnormals included: the
   * results are finite integers of the same sign; floor is the greatest one
   * that is not above, ceil the least that is not below, trunc the greatest in
   * magnitude that is not beyond, and round is at most half away, and at
   * exactly half on the side away from zero.
   */
  lemma RoundingIsExact(f: Format, p: nat)
    requires ValidFormat(f) && IsPattern(f, p) && Finite(f, p)
    ensures var one, v := One(f) as int, Val(f, p);
      && Val(f, Floor(f, p)) <= v < Val(f, Floor(f, p)) + one
      && Val(f, Ceil(f, p)) - one < v <= Val(f, Ceil(f, p))
      && Val(f, Trunc(f, p)) == (if Negative(f, p) then Val(f, Ceil(f, p)) else Val(f, Floor(f, p)))
      && (if Negative(f, p) then 2 * Val(f, Round(f, p)) - one < 2 * v <= 2 * Val(f, Round(f, p)) + one
          else 2 * Val(f, Round(f, p)) - one <= 2 * v < 2 * Val(f, Round(f, p)) + one)
    ensures IsInteger(f, Floor(f, p)) && IsInteger(f, Ceil(f, p)) && IsInteger(f, Round(f, p)) && IsInteger(f, Trunc(f, p))
    ensures Negative(f, Floor(f, p)) == Negative(f, Ceil(f, p)) == Negative(f, Round(f, p)) == Negative(f, Trunc(f, p)) == Negative(f, p)
  {
    FloorExact(f, p);
    CeilExact(f, p);
    RoundExact(f, p);
    TruncExact(f, p);
    hide Pow2, Quot, Rem, Mag, Floor, Ceil, Round, Trunc, IsInteger;
    var x, one := Mag(f, Body(f, p)), One(f);
    Bounds(x, one);
    var down, up, near := Quot(x, one), Quot(x + one - 1, one), Quot(2 * x + one, 2 * one);
    RoundedInteger(f, p, Floor(f, p), if Negative(f, p) then up else down);
    RoundedInteger(f, p, Ceil(f, p), if Negative(f, p) then down else up);
    RoundedInteger(f, p, Round(f, p), near);
    RoundedInteger(f, p, Trunc(f, p), down);
  }

  /** The two formats of the C library. */
  lemma FloatAndDouble()
    ensures ValidFormat(FLOAT) && ValidFormat(DOUBLE)
    ensures SignBit(FLOAT) == 0x8000_0000 && SignBit(DOUBLE) == 0x8000_0000_0000_0000
  {
    SmallPowers();
    hide Pow2;
    Pow2Add(8, 7);
    Pow2Add(8, 8);
    Pow2Add(16, 15);
    Pow2Add(16, 16);
    Pow2Add(32, 31);
  }

  lemma SmallPowers()
    ensures Pow2(7) == 128 && Pow2(8) == 256 && Pow2(10) == 1024
  {
  }
}
