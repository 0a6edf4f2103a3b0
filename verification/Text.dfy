/**
 Rust strings as their bytes, and the two facts every key below leans on: a
 decimal number cannot run into the delimiter next to it, on either side.
*/
module Text {
  import opened Bytes

  type Str = seq<Byte>

  /** The bytes of an ASCII literal. */
  function Lit(s: string): (r: Str)
    ensures |r| == |s|
  {
    seq(|s|, i requires 0 <= i < |s| => s[i] as int % 256)
  }

  /** `n` in decimal, as `format!` writes it. */
  function Decimal(n: nat): (r: Str)
    ensures r != []
  {
    if n < 10 then [48 + n] else Decimal(n / 10) + [48 + n % 10]
  }

  predicate Digit(b: Byte) {
    48 <= b <= 57
  }

  predicate Digits(s: Str) {
    forall i :: 0 <= i < |s| ==> Digit(s[i])
  }

  lemma {:induction false} DecimalDigits(n: nat)
    ensures Digits(Decimal(n))
  {
    if n >= 10 {
      DecimalDigits(n / 10);
    }
  }

  function ReadDecimal(s: Str): int {
    if s == [] then 0 else 10 * ReadDecimal(s[..|s| - 1]) + s[|s| - 1] - 48
  }

  lemma {:induction false} DecimalRoundTrip(n: nat)
    ensures ReadDecimal(Decimal(n)) == n
  {
    var s := Decimal(n);
    if n >= 10 {
      DecimalRoundTrip(n / 10);
      assert s[..|s| - 1] == Decimal(n / 10);
    }
  }

  lemma DecimalInjective(n: nat, m: nat)
    requires Decimal(n) == Decimal(m)
    ensures n == m
  {
    DecimalRoundTrip(n);
    DecimalRoundTrip(m);
  }

  /** Digits followed by a non-digit end where they end, whatever comes after. */
  lemma DigitsPrefix(a: Str, b: Str, c: Byte, x: Str, y: Str)
    requires Digits(a) && Digits(b) && !Digit(c)
    requires a + [c] + x == b + [c] + y
    ensures a == b && x == y
  {
    var s, t := a + [c] + x, b + [c] + y;
    assert s[|a|] == c && t[|b|] == c;
    assert a == s[..|a|] && b == t[..|b|];
    assert x == s[|a| + 1..] && y == t[|b| + 1..];
  }

  /** Digits after a non-digit start where they start, whatever comes before. */
  lemma DigitsSuffix(x: Str, y: Str, c: Byte, a: Str, b: Str)
    requires Digits(a) && Digits(b) && !Digit(c)
    requires x + [c] + a == y + [c] + b
    ensures x == y && a == b
  {
    var s, t := x + [c] + a, y + [c] + b;
    assert s[|x|] == c && t[|y|] == c;
    assert x == s[..|x|] && y == t[..|y|];
    assert a == s[|x| + 1..] && b == t[|y| + 1..];
  }

}
