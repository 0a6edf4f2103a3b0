/** Bytes, powers of two and big-endian numbers: what every wire format below is written in. */
module Bytes {

  type Byte = b: int | 0 <= b < 256

  function Pow2(n: nat): (p: nat)
    ensures p >= 1
  {
    if n == 0 then 1 else 2 * Pow2(n - 1)
  }

  lemma {:induction false} Pow2Add(a: nat, b: nat)
    ensures Pow2(a + b) == Pow2(a) * Pow2(b)
  {
    if a > 0 {
      Pow2Add(a - 1, b);
      MulTwice(Pow2(a - 1), Pow2(b));
    }
  }

  lemma MulTwice(x: nat, y: nat)
    ensures 2 * (x * y) == (2 * x) * y
  {
  }

  lemma {:induction false} Pow2Monotone(a: nat, b: nat)
    requires a <= b
    ensures Pow2(a) <= Pow2(b)
    decreases b
  {
    if a < b {
      Pow2Monotone(a, b - 1);
    }
  }

  /** How many values `width` bytes can hold. */
  function Limit(width: nat): (l: nat)
    ensures l >= 1
  {
    if width == 0 then 1 else 256 * Limit(width - 1)
  }

  /** The byte of `n` that has `k` less significant ones below it. */
  function ByteOf(n: nat, k: nat): Byte {
    if k == 0 then n % 256 else ByteOf(n / 256, k - 1)
  }

  /** `n` in `width` bytes, most significant first. */
  function BigEndian(n: nat, width: nat): (s: seq<Byte>)
    ensures |s| == width
  {
    seq(width, i requires 0 <= i < width => ByteOf(n, width - 1 - i))
  }

  /** The number the first `k` bytes of `s` spell, most significant byte first. */
  function Leading(s: seq<Byte>, k: nat): (n: nat)
    requires k <= |s|
  {
    if k == 0 then 0 else 256 * Leading(s, k - 1) + s[k - 1]
  }

  function FromBigEndian(s: seq<Byte>): nat {
    Leading(s, |s|)
  }

  lemma {:induction false} LeadingBound(s: seq<Byte>, k: nat)
    requires k <= |s|
    ensures Leading(s, k) < Limit(k)
  {
    if k > 0 {
      LeadingBound(s, k - 1);
    }
  }

  lemma {:induction false} LeadingPrefix(s: seq<Byte>, t: seq<Byte>, k: nat)
    requires k <= |s| && k <= |t| && s[..k] == t[..k]
    ensures Leading(s, k) == Leading(t, k)
  {
    if k > 0 {
      assert s[..k - 1] == s[..k][..k - 1];
      assert t[..k - 1] == t[..k][..k - 1];
      LeadingPrefix(s, t, k - 1);
      assert s[k - 1] == s[..k][k - 1];
    }
  }

  /** Reading one byte more shifts what was read so far. */
  lemma FromBigEndianStep(s: seq<Byte>, start: nat, i: nat)
    requires start <= i < |s|
    ensures FromBigEndian(s[start..i + 1]) == 256 * FromBigEndian(s[start..i]) + s[i]
  {
    LeadingPrefix(s[start..i + 1], s[start..i], i - start);
  }

  /** Writing a number that fits and reading it back is the identity. */
  lemma {:induction false} BigEndianRoundTrip(n: nat, width: nat)
    requires n < Limit(width)
    ensures FromBigEndian(BigEndian(n, width)) == n
  {
    if width > 0 {
      BigEndianRoundTrip(n / 256, width - 1);
      var s, front := BigEndian(n, width), BigEndian(n / 256, width - 1);
      forall i | 0 <= i < width - 1 ensures s[i] == front[i] {
        assert ByteOf(n, width - 1 - i) == ByteOf(n / 256, width - 2 - i);
      }
      LeadingPrefix(s, front, width - 1);
      assert s[width - 1] == ByteOf(n, 0) == n % 256;
    }
  }

  /** Reading bytes and writing the number back in the same width is the identity. */
  lemma {:induction false} FromBigEndianRoundTrip(s: seq<Byte>)
    ensures BigEndian(FromBigEndian(s), |s|) == s
  {
    forall i | 0 <= i < |s| ensures ByteOf(FromBigEndian(s), |s| - 1 - i) == s[i] {
      LeadingByte(s, |s|, i);
    }
  }

  lemma {:induction false} LeadingByte(s: seq<Byte>, k: nat, i: nat)
    requires i < k <= |s|
    ensures ByteOf(Leading(s, k), k - 1 - i) == s[i]
  {
    if i < k - 1 {
      LeadingByte(s, k - 1, i);
      assert Leading(s, k) / 256 == Leading(s, k - 1);
    }
  }

}
