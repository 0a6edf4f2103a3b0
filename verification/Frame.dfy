/**
 The length-prefixed frame that carries a batch across the foreign-function
 boundary (crates/flexiq-java/src/ffi_c.rs): a count, then each element behind its
 length, all 32-bit little-endian.
*/
module Frame {
  import opened Bytes
  import opened Seqs

  const WORD := 0x1_0000_0000

  /** The low `width` bytes of a number, lowest first. */
  function Little(n: nat, width: nat): (s: seq<Byte>)
    ensures |s| == width
  {
    if width == 0 then [] else [n % 256] + Little(n / 256, width - 1)
  }

  function FromLittle(s: seq<Byte>): nat {
    if s == [] then 0 else s[0] + 256 * FromLittle(s[1..])
  }

  /** A length cast to 32 bits and written little-endian. */
  function Le32(n: nat): (s: seq<Byte>)
    ensures |s| == 4
  {
    Little(n, 4)
  }

  /** The word at `pos`. */
  function WordAt(buf: seq<Byte>, pos: nat): (n: nat)
    requires pos + 4 <= |buf|
    ensures n < WORD
  {
    FromLittleBound(buf[pos..pos + 4]);
    FourBytes();
    FromLittle(buf[pos..pos + 4])
  }

  lemma FourBytes()
    ensures Limit(4) == WORD
  {
    assert Limit(2) == 0x1_0000;
  }

  lemma {:induction false} FromLittleBound(s: seq<Byte>)
    ensures FromLittle(s) < Limit(|s|)
  {
    if s != [] {
      FromLittleBound(s[1..]);
    }
  }

  lemma {:induction false} LittleRoundTrip(n: nat, width: nat)
    requires n < Limit(width)
    ensures FromLittle(Little(n, width)) == n
  {
    if width > 0 {
      LittleRoundTrip(n / 256, width - 1);
      assert Little(n, width)[1..] == Little(n / 256, width - 1);
    }
  }

  lemma {:induction false} FromLittleRoundTrip(s: seq<Byte>)
    ensures Little(FromLittle(s), |s|) == s
  {
    if s != [] {
      FromLittleRoundTrip(s[1..]);
      assert s == [s[0]] + s[1..];
    }
  }

  lemma Le32RoundTrip(n: nat, buf: seq<Byte>, pos: nat)
    requires pos + 4 <= |buf|
    ensures n < WORD && buf[pos..pos + 4] == Le32(n) ==> WordAt(buf, pos) == n
    ensures WordAt(buf, pos) == n ==> buf[pos..pos + 4] == Le32(n)
  {
    FourBytes();
    if n < WORD {
      LittleRoundTrip(n, 4);
    }
    FromLittleRoundTrip(buf[pos..pos + 4]);
  }

  function Body(items: seq<seq<Byte>>): seq<Byte> {
    if items == [] then [] else Le32(|items[0]|) + (items[0] + Body(items[1..]))
  }

  function Framed(items: seq<seq<Byte>>): seq<Byte> {
    Le32(|items|) + Body(items)
  }

  /** The count and every length are 32-bit numbers. */
  predicate Fits(items: seq<seq<Byte>>) {
    |items| < WORD && AllShort(items)
  }

  datatype Error = TruncatedHeader | TruncatedElement
  datatype Result = Ok(items: seq<seq<Byte>>) | Err(error: Error)

  method FrameItems(items: seq<seq<Byte>>) returns (out: seq<Byte>)
    ensures out == Framed(items)
  {
    out := Le32(|items|);
    assert items[0..] == items;
    for i := 0 to |items|
      invariant out + Body(items[i..]) == Framed(items)
    {
      assert items[i..][1..] == items[i + 1..];
      RegroupFour(out, Le32(|items[i]|), items[i], Body(items[i + 1..]));
      out := out + Le32(|items[i]|);
      out := out + items[i];
    }
    assert out + [] == out;
  }

  // ------------------------------------------------------------------- reading

  /** `count` elements from `pos` on. */
  function ReadFrom(buf: seq<Byte>, pos: nat, count: nat): Result
    requires pos <= |buf|
    decreases count
  {
    if count == 0 then Ok([])
    else if |buf| - pos < 4 then Err(TruncatedHeader)
    else
      var length := WordAt(buf, pos);
      if |buf| - pos - 4 < length then Err(TruncatedElement)
      else Prepend([buf[pos + 4..pos + 4 + length]], ReadFrom(buf, pos + 4 + length, count - 1))
  }

  function Prepend(items: seq<seq<Byte>>, r: Result): Result {
    match r
    case Ok(rest) => Ok(items + rest)
    case Err(_) => r
  }

  function Reading(buf: seq<Byte>): Result {
    if |buf| < 4 then Err(TruncatedHeader) else ReadFrom(buf, 4, WordAt(buf, 0))
  }

  method Unframe(buf: seq<Byte>) returns (r: Result)
    ensures r == Reading(buf)
  {
    if |buf| < 4 {
      return Err(TruncatedHeader);
    }
    var pos: nat, count := 4, WordAt(buf, 0);
    var items: seq<seq<Byte>> := [];
    for i := 0 to count
      invariant pos <= |buf| && Prepend(items, ReadFrom(buf, pos, count - i)) == Reading(buf)
    {
      if |buf| - pos < 4 {
        return Err(TruncatedHeader);
      }
      var length := WordAt(buf, pos);
      if |buf| - pos - 4 < length {
        return Err(TruncatedElement);
      }
      PrependTwice(items, [buf[pos + 4..pos + 4 + length]], ReadFrom(buf, pos + 4 + length, count - i - 1));
      items := items + [buf[pos + 4..pos + 4 + length]];
      pos := pos + 4 + length;
    }
    r := Ok(items);
  }

  lemma PrependTwice(a: seq<seq<Byte>>, b: seq<seq<Byte>>, r: Result)
    ensures Prepend(a, Prepend(b, r)) == Prepend(a + b, r)
  {
    if r.Ok? {
      assert a + (b + r.items) == a + b + r.items;
    }
  }

  /** The element `item` stands at `pos`, behind its length. */
  predicate StandsAt(buf: seq<Byte>, pos: nat, item: seq<Byte>) {
    pos + 4 + |item| <= |buf| && WordAt(buf, pos) == |item| && buf[pos + 4..pos + 4 + |item|] == item
  }

  /** One element and a body stand at `pos` exactly when the element does, and the body after it. */
  lemma ElementAt(buf: seq<Byte>, pos: nat, item: seq<Byte>, body: seq<Byte>)
    requires pos <= |buf| && |item| < WORD
    ensures Le32(|item|) + (item + body) <= buf[pos..] <==>
            StandsAt(buf, pos, item) && body <= buf[pos + 4 + |item|..]
  {
    if pos + 4 + |item| <= |buf| {
      var word, mine, rest := buf[pos..pos + 4], buf[pos + 4..pos + 4 + |item|], buf[pos + 4 + |item|..];
      Le32RoundTrip(|item|, buf, pos);
      assert buf[pos..] == word + (mine + rest);
      PrefixParts(Le32(|item|), item, body, word, mine, rest);
    }
  }

  lemma PrefixParts(a: seq<Byte>, b: seq<Byte>, c: seq<Byte>, x: seq<Byte>, y: seq<Byte>, z: seq<Byte>)
    requires |a| == |x| && |b| == |y|
    ensures a + (b + c) <= x + (y + z) <==> a == x && b == y && c <= z
  {
    var s, t := a + (b + c), x + (y + z);
    if s <= t {
      assert a == s[..|a|] == t[..|a|] == x;
      assert b == s[|a|..|a| + |b|] == t[|a|..|a| + |b|] == y;
      assert c == s[|a| + |b|..] && z == t[|a| + |b|..];
    }
  }

  /** What reading one more element comes to, and when it is `a`. */
  lemma ReadStep(buf: seq<Byte>, pos: nat, count: nat, a: seq<seq<Byte>>)
    requires pos <= |buf| && count > 0 && a != []
    ensures ReadFrom(buf, pos, count) == Ok(a) <==>
            StandsAt(buf, pos, a[0]) && ReadFrom(buf, pos + 4 + |a[0]|, count - 1) == Ok(a[1..])
  {
    assert a == [a[0]] + a[1..];
    if |buf| - pos >= 4 && |buf| - pos - 4 >= WordAt(buf, pos) {
      var length := WordAt(buf, pos);
      var rest := ReadFrom(buf, pos + 4 + length, count - 1);
      if rest.Ok? {
        var all := [buf[pos + 4..pos + 4 + length]] + rest.items;
        assert all[0] == buf[pos + 4..pos + 4 + length] && all[1..] == rest.items;
      }
    }
  }

  /** Every length fits its word. */
  predicate AllShort(a: seq<seq<Byte>>) {
    forall i :: 0 <= i < |a| ==> |a[i]| < WORD
  }

  /** The elements stand one after the other from `pos` on. */
  predicate AllStandAt(buf: seq<Byte>, pos: nat, a: seq<seq<Byte>>)
    decreases |a|
  {
    a == [] || (StandsAt(buf, pos, a[0]) && AllStandAt(buf, pos + 4 + |a[0]|, a[1..]))
  }

  lemma {:induction false} ReadFromExact(buf: seq<Byte>, pos: nat, count: nat, a: seq<seq<Byte>>)
    requires pos <= |buf|
    ensures ReadFrom(buf, pos, count) == Ok(a) <==> |a| == count && AllStandAt(buf, pos, a)
    decreases count
  {
    if count > 0 && a != [] {
      ReadStep(buf, pos, count, a);
      if StandsAt(buf, pos, a[0]) {
        ReadFromExact(buf, pos + 4 + |a[0]|, count - 1, a[1..]);
      }
    }
  }

  lemma {:induction false} BodyExact(buf: seq<Byte>, pos: nat, a: seq<seq<Byte>>)
    requires pos <= |buf| && AllShort(a)
    ensures Body(a) <= buf[pos..] <==> AllStandAt(buf, pos, a)
    decreases |a|
  {
    if a != [] {
      ElementAt(buf, pos, a[0], Body(a[1..]));
      if StandsAt(buf, pos, a[0]) {
        BodyExact(buf, pos + 4 + |a[0]|, a[1..]);
      }
    }
  }

  lemma {:induction false} ReadFromFits(buf: seq<Byte>, pos: nat, count: nat)
    requires pos <= |buf| && ReadFrom(buf, pos, count).Ok?
    ensures var a := ReadFrom(buf, pos, count).items; |a| == count && AllShort(a)
    decreases count
  {
    if count > 0 {
      ReadFromFits(buf, pos + 4 + WordAt(buf, pos), count - 1);
    }
  }

  lemma WordThenBody(word: seq<Byte>, body: seq<Byte>, buf: seq<Byte>)
    requires |word| == 4 <= |buf|
    ensures word + body <= buf <==> buf[0..4] == word && body <= buf[4..]
  {
    assert buf == buf[0..4] + ([] + buf[4..]);
    assert word + body == word + ([] + body);
    PrefixParts(word, [], body, buf[0..4], [], buf[4..]);
  }

  /**
   A buffer reads as `a` exactly when `a` fits its words and the buffer starts with
   its framing. So it has one reading at most, re-framing a reading gives a prefix of
   the buffer, and an error means that no framing starts it.
  */
  lemma ReadingExact(buf: seq<Byte>, a: seq<seq<Byte>>)
    ensures Reading(buf) == Ok(a) <==> Fits(a) && Framed(a) <= buf
  {
    if |buf| >= 4 {
      var count := WordAt(buf, 0);
      Le32RoundTrip(|a|, buf, 0);
      WordThenBody(Le32(|a|), Body(a), buf);
      if Reading(buf) == Ok(a) {
        ReadFromFits(buf, 4, count);
      }
      ReadFromExact(buf, 4, count, a);
      if AllShort(a) {
        BodyExact(buf, 4, a);
      }
    }
  }

  lemma OneElementFramed(item: seq<Byte>)
    ensures Framed([item]) == Le32(1) + Le32(|item|) + item
  {
    var one := [item];
    assert one[1..] == [];
    assert item + Body(one[1..]) == item;
    assert Body(one) == Le32(|item|) + item;
    Regroup(Le32(1), Le32(|item|), item);
  }

  lemma ByteOfSum(q: nat, r: nat)
    ensures (256 * q + r) % 256 == r % 256 && (256 * q + r) / 256 == q + r / 256
  {
  }

  /** Whole multiples of what the bytes can hold do not show in them. */
  lemma {:induction false} LittleWraps(a: nat, n: nat, width: nat)
    ensures Little(a * Limit(width) + n, width) == Little(n, width)
  {
    if width > 0 {
      var rest := a * Limit(width - 1);
      MulShift(a, Limit(width - 1));
      ByteOfSum(rest, n);
      LittleWraps(a, n / 256, width - 1);
    }
  }

  lemma MulShift(a: nat, l: nat)
    ensures a * (256 * l) == 256 * (a * l)
  {
  }

  lemma Le32Wraps(n: nat)
    ensures Le32(n) == Le32(n % WORD)
  {
    FourBytes();
    LittleWraps(n / WORD, n % WORD, 4);
    assert n / WORD * WORD + n % WORD == n;
  }

  /** One element's framing starts with that of its first bytes, as many as its length modulo 2^32. */
  lemma CutFramesFirst(item: seq<Byte>)
    ensures var short := item[..|item| % WORD]; Fits([short]) && Framed([short]) <= Framed([item])
  {
    var short := item[..|item| % WORD];
    OneElementFramed(item);
    OneElementFramed(short);
    Le32Wraps(|item|);
  }

  /** So that is what it reads back as: one of 2^32 bytes comes back empty. */
  lemma LongElementIsCut(item: seq<Byte>)
    ensures Reading(Framed([item])) == Ok([item[..|item| % WORD]])
  {
    var short := item[..|item| % WORD];
    CutFramesFirst(item);
    ReadingExact(Framed([item]), [short]);
  }

  /** Framing and unframing give the items back exactly when the count and every length fit. */
  lemma RoundTrip(items: seq<seq<Byte>>)
    ensures Reading(Framed(items)) == Ok(items) <==> Fits(items)
  {
    ReadingExact(Framed(items), items);
  }
}
