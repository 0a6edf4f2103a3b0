/**
 Binary interchange formats, and the exact widening of one format's finite
 values to another that can hold them all. CBOR floats are written in three of
 these: binary16, binary32 and binary64 (section 3.3 and Appendix D of RFC 8949).

 Every finite value of the three is a whole multiple of 2^-1074, the smallest
 binary64 subnormal, so a value is kept as a sign and a natural number of those
 units. No rounding and no real arithmetic is needed to say what a bit pattern
 means.
*/
module Floats {
  import opened Bytes

  /**
   `mantissaBits` is the stored precision, `exponentCodes` the number of exponent
   codes (the last one marks infinities and NaNs), and a normal number with
   exponent code `e` has its unit in the last place at 2^(e + scale) of the units
   of 2^-1074.
  */
  datatype Format = Format(mantissaBits: nat, exponentCodes: nat, scale: int) {
    predicate Valid() {
      exponentCodes >= 2 && scale >= -1
    }
  }

  const HALF := Format(10, 32, 1049)
  const SINGLE := Format(23, 256, 924)
  const DOUBLE := Format(52, 2048, -1)

  function Patterns(f: Format): nat {
    2 * f.exponentCodes * Pow2(f.mantissaBits)
  }

  function Mantissa(f: Format, bits: nat): nat {
    bits % Pow2(f.mantissaBits)
  }

  function Exponent(f: Format, bits: nat): nat
    requires f.Valid()
  {
    bits / Pow2(f.mantissaBits) % f.exponentCodes
  }

  predicate Negative(f: Format, bits: nat)
    requires f.Valid()
  {
    bits / Pow2(f.mantissaBits) / f.exponentCodes != 0
  }

  predicate Finite(f: Format, bits: nat)
    requires f.Valid()
  {
    Exponent(f, bits) != f.exponentCodes - 1
  }

  /** What an exponent code and a mantissa denote, in units of 2^-1074. */
  function Scaled(f: Format, exponent: nat, mantissa: nat): nat
    requires f.Valid()
  {
    if exponent == 0 then mantissa * Pow2(f.scale + 1)
    else (Pow2(f.mantissaBits) + mantissa) * Pow2(exponent + f.scale)
  }

  function Magnitude(f: Format, bits: nat): nat
    requires f.Valid()
  {
    Scaled(f, Exponent(f, bits), Mantissa(f, bits))
  }

  /** The bit pattern with the given fields. */
  function Compose(f: Format, negative: bool, exponent: nat, mantissa: nat): nat {
    ((if negative then f.exponentCodes else 0) + exponent) * Pow2(f.mantissaBits) + mantissa
  }

  /** The position of the highest set bit. */
  function Log2(n: nat): (k: nat)
    requires n > 0
    ensures Pow2(k) <= n < Pow2(k + 1)
  {
    if n == 1 then 0 else 1 + Log2(n / 2)
  }

  /** Format `d` has room for every finite value of `f`, subnormals as normal numbers. */
  predicate Embeds(f: Format, d: Format) {
    && f.Valid() && d.Valid()
    && f.mantissaBits <= d.mantissaBits
    && d.mantissaBits + d.scale <= f.scale
    && f.exponentCodes + f.scale + f.mantissaBits <= d.exponentCodes + d.mantissaBits + d.scale
  }

  /** The exponent code and mantissa `d` writes a finite value of `f` with. */
  function WideFields(f: Format, d: Format, exponent: nat, mantissa: nat): (r: (nat, nat))
    requires Embeds(f, d) && mantissa < Pow2(f.mantissaBits)
  {
    if exponent != 0 then
      var shift := d.mantissaBits - f.mantissaBits;
      (exponent + f.scale - shift - d.scale, mantissa * Pow2(shift))
    else if mantissa == 0 then
      (0, 0)
    else
      WideSubnormal(f, d, mantissa)
  }

  /** The same for a subnormal one, whose highest set bit becomes the implied one. */
  function WideSubnormal(f: Format, d: Format, mantissa: nat): (r: (nat, nat))
    requires Embeds(f, d) && 0 < mantissa < Pow2(f.mantissaBits)
  {
    var k := Log2(mantissa);
    LogBelow(mantissa, f.mantissaBits);
    var shift, rest: nat := d.mantissaBits - k, mantissa - Pow2(k);
    (f.scale + 1 - shift - d.scale, rest * Pow2(shift))
  }

  /** The pattern `d` has for a finite value of `f`. */
  function Widened(f: Format, d: Format, bits: nat): (wide: nat)
    requires Embeds(f, d)
  {
    var (exponent, mantissa) := WideFields(f, d, Exponent(f, bits), Mantissa(f, bits));
    Compose(d, Negative(f, bits), exponent, mantissa)
  }

  lemma LogBelow(n: nat, bits: nat)
    requires 0 < n < Pow2(bits)
    ensures Log2(n) < bits
  {
    if Log2(n) >= bits {
      Pow2Monotone(bits, Log2(n));
    }
  }

  lemma MulMonotone(a: nat, b: nat, d: nat)
    requires a <= b
    ensures a * d <= b * d
  {
  }

  lemma QuotientUnique(q: nat, m: nat, k: nat, r: nat, d: nat)
    requires m < d && r < d && q * d + m == k * d + r
    ensures q == k && m == r
  {
    if q < k {
      MulMonotone(q + 1, k, d);
    } else if k < q {
      MulMonotone(k + 1, q, d);
    }
  }

  lemma DivMod(q: nat, d: nat, m: nat)
    requires m < d
    ensures (q * d + m) / d == q && (q * d + m) % d == m
  {
    var n := q * d + m;
    QuotientUnique(q, m, n / d, n % d, d);
  }

  lemma ComposeFields(f: Format, negative: bool, exponent: nat, mantissa: nat)
    requires f.Valid() && exponent < f.exponentCodes && mantissa < Pow2(f.mantissaBits)
    ensures var bits := Compose(f, negative, exponent, mantissa);
            && bits < Patterns(f)
            && Negative(f, bits) == negative
            && Exponent(f, bits) == exponent
            && Mantissa(f, bits) == mantissa
  {
    var top := (if negative then f.exponentCodes else 0) + exponent;
    DivMod(top, Pow2(f.mantissaBits), mantissa);
    DivMod(if negative then 1 else 0, f.exponentCodes, exponent);
    MulMonotone(top + 1, 2 * f.exponentCodes, Pow2(f.mantissaBits));
  }

  lemma Quotient(n: nat, d: nat, bound: nat)
    requires d > 0 && n < bound * d
    ensures n == n / d * d + n % d && n / d < bound
  {
    TopBelow(n / d, d, n % d, bound);
  }

  /** The sign and the exponent code of a number that holds both. */
  lemma SignAndCode(top: nat, codes: nat)
    requires codes > 0 && top < 2 * codes
    ensures top == (if top / codes != 0 then codes else 0) + top % codes
  {
    Quotient(top, codes, 2);
    assert top / codes * codes == if top / codes != 0 then codes else 0;
  }

  lemma FieldsCompose(f: Format, bits: nat)
    requires f.Valid() && bits < Patterns(f)
    ensures bits == Compose(f, Negative(f, bits), Exponent(f, bits), Mantissa(f, bits))
  {
    var d := Pow2(f.mantissaBits);
    Quotient(bits, d, 2 * f.exponentCodes);
    SignAndCode(bits / d, f.exponentCodes);
  }

  lemma TopBelow(q: nat, d: nat, m: nat, bound: nat)
    requires q * d + m < bound * d
    ensures q < bound
  {
    if q >= bound {
      MulMonotone(bound, q, d);
    }
  }

  /** Rescaling a mantissa against its exponent leaves the product alone. */
  lemma Rescale(a: nat, shift: nat, e: nat)
    ensures (a * Pow2(shift)) * Pow2(e) == a * Pow2(shift + e)
  {
    Pow2Add(shift, e);
    assert (a * Pow2(shift)) * Pow2(e) == a * (Pow2(shift) * Pow2(e));
  }

  lemma ShiftBelow(a: nat, bits: nat, shift: nat)
    requires a < Pow2(bits)
    ensures a * Pow2(shift) < Pow2(bits + shift)
    ensures Pow2(bits + shift) + a * Pow2(shift) == (Pow2(bits) + a) * Pow2(shift)
  {
    Pow2Add(bits, shift);
    MulMonotone(a + 1, Pow2(bits), Pow2(shift));
  }

  lemma WideFieldsPreserve(f: Format, d: Format, exponent: nat, mantissa: nat)
    requires Embeds(f, d) && exponent < f.exponentCodes - 1 && mantissa < Pow2(f.mantissaBits)
    ensures var (e, m) := WideFields(f, d, exponent, mantissa);
            && e < d.exponentCodes - 1 && m < Pow2(d.mantissaBits)
            && Scaled(d, e, m) == Scaled(f, exponent, mantissa)
  {
    var (e, m) := WideFields(f, d, exponent, mantissa);
    if exponent != 0 {
      var shift := d.mantissaBits - f.mantissaBits;
      ShiftBelow(mantissa, f.mantissaBits, shift);
      Rescale(Pow2(f.mantissaBits) + mantissa, shift, e + d.scale);
    } else if mantissa != 0 {
      var k := Log2(mantissa);
      LogBelow(mantissa, f.mantissaBits);
      var shift := d.mantissaBits - k;
      ShiftBelow(mantissa - Pow2(k), k, shift);
      Rescale(mantissa, shift, e + d.scale);
    }
  }

  /** Widening keeps the sign and the exact value, and gives a finite pattern. */
  lemma WidenedPreserves(f: Format, d: Format, bits: nat)
    requires Embeds(f, d) && bits < Patterns(f) && Finite(f, bits)
    ensures var wide := Widened(f, d, bits);
            && wide < Patterns(d) && Finite(d, wide)
            && Negative(d, wide) == Negative(f, bits)
            && Magnitude(d, wide) == Magnitude(f, bits)
  {
    WideFieldsPreserve(f, d, Exponent(f, bits), Mantissa(f, bits));
    var (e, m) := WideFields(f, d, Exponent(f, bits), Mantissa(f, bits));
    ComposeFields(d, Negative(f, bits), e, m);
  }

  /** Each exponent code owns an interval of magnitudes of its own. */
  lemma ScaledInterval(f: Format, exponent: nat, mantissa: nat)
    requires f.Valid() && mantissa < Pow2(f.mantissaBits)
    ensures exponent == 0 ==> Scaled(f, exponent, mantissa) < Pow2(f.mantissaBits + f.scale + 1)
    ensures exponent > 0 ==>
              Pow2(f.mantissaBits + exponent + f.scale) <= Scaled(f, exponent, mantissa)
              < Pow2(f.mantissaBits + exponent + f.scale + 1)
  {
    if exponent == 0 {
      ShiftBelow(mantissa, f.mantissaBits, f.scale + 1);
    } else {
      ShiftBelow(mantissa, f.mantissaBits, exponent + f.scale);
    }
  }

  lemma ScaledUnique(f: Format, e1: nat, m1: nat, e2: nat, m2: nat)
    requires f.Valid() && m1 < Pow2(f.mantissaBits) && m2 < Pow2(f.mantissaBits)
    requires Scaled(f, e1, m1) == Scaled(f, e2, m2)
    ensures e1 == e2 && m1 == m2
  {
    ScaledInterval(f, e1, m1);
    ScaledInterval(f, e2, m2);
    if e1 < e2 {
      Pow2Monotone(f.mantissaBits + f.scale + (if e1 == 0 then 1 else e1 + 1), f.mantissaBits + e2 + f.scale);
    } else if e2 < e1 {
      Pow2Monotone(f.mantissaBits + f.scale + (if e2 == 0 then 1 else e2 + 1), f.mantissaBits + e1 + f.scale);
    } else {
      var base := if e1 == 0 then 0 else Pow2(f.mantissaBits);
      var unit := if e1 == 0 then Pow2(f.scale + 1) else Pow2(e1 + f.scale);
      CancelFactor(base + m1, base + m2, unit);
    }
  }

  lemma CancelFactor(a: nat, b: nat, unit: nat)
    requires unit > 0 && a * unit == b * unit
    ensures a == b
  {
  }

  /** A signed value has at most one pattern, so the widening has no choice. */
  lemma PatternUnique(f: Format, a: nat, b: nat)
    requires f.Valid() && a < Patterns(f) && b < Patterns(f)
    requires Negative(f, a) == Negative(f, b)
    requires Magnitude(f, a) == Magnitude(f, b)
    ensures a == b
  {
    FieldsCompose(f, a);
    FieldsCompose(f, b);
    ScaledUnique(f, Exponent(f, a), Mantissa(f, a), Exponent(f, b), Mantissa(f, b));
  }

  /** A format whose fields take `8 * width` bits has one pattern per `width` bytes. */
  lemma PatternsFillBytes(f: Format, exponentBits: nat, width: nat)
    requires f.exponentCodes == Pow2(exponentBits)
    requires 1 + exponentBits + f.mantissaBits == 8 * width
    ensures Patterns(f) == Limit(width)
  {
    Pow2Add(exponentBits + 1, f.mantissaBits);
    LimitIsPow2(width);
  }

  lemma {:induction false} LimitIsPow2(width: nat)
    ensures Limit(width) == Pow2(8 * width)
  {
    if width > 0 {
      LimitIsPow2(width - 1);
      Pow2Add(8, 8 * (width - 1));
    }
  }

}
