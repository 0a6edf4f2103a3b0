/** Well-formed UTF-8 byte sequences, as the table in section 4 of RFC 3629 lists them. */
module Utf8 {
  import opened Bytes

  predicate Tail(b: Byte) {
    0x80 <= b <= 0xbf
  }

  /** How many bytes the character at the front of `s` takes, or 0 when there is none. */
  function FrontLength(s: seq<Byte>): (n: nat)
    ensures n <= |s|
  {
    if s == [] then 0
    else if s[0] < 0x80 then 1
    else if |s| >= 2 && 0xc2 <= s[0] <= 0xdf && Tail(s[1]) then 2
    else if |s| >= 3 && 0xe0 <= s[0] <= 0xef && Tail(s[1]) && Tail(s[2])
            && (s[0] == 0xe0 ==> s[1] >= 0xa0) && (s[0] == 0xed ==> s[1] < 0xa0) then 3
    else if |s| >= 4 && 0xf0 <= s[0] <= 0xf4 && Tail(s[1]) && Tail(s[2]) && Tail(s[3])
            && (s[0] == 0xf0 ==> s[1] >= 0x90) && (s[0] == 0xf4 ==> s[1] < 0x90) then 4
    else 0
  }

  predicate WellFormed(s: seq<Byte>) {
    s == [] || (FrontLength(s) > 0 && WellFormed(s[FrontLength(s)..]))
  }

  lemma {:induction false} AsciiIsWellFormed(s: seq<Byte>)
    requires forall i :: 0 <= i < |s| ==> s[i] < 0x80
    ensures WellFormed(s)
  {
    if s != [] {
      AsciiIsWellFormed(s[1..]);
    }
  }

  // ---------------------------------------------------------- texts and their bytes

  /** One Unicode scalar value in UTF-8, as the table in section 3 of RFC 3629 lays its bits out. */
  function EncodeScalar(c: char): (s: seq<Byte>)
    ensures 1 <= |s| <= 4
  {
    var n := c as int;
    if n < 0x80 then [n]
    else if n < 0x800 then [0xc0 + n / 0x40, 0x80 + n % 0x40]
    else if n < 0x1_0000 then [0xe0 + n / 0x1000, 0x80 + n / 0x40 % 0x40, 0x80 + n % 0x40]
    else [0xf0 + n / 0x4_0000, 0x80 + n / 0x1000 % 0x40, 0x80 + n / 0x40 % 0x40, 0x80 + n % 0x40]
  }

  function EncodeText(text: string): seq<Byte> {
    if text == [] then [] else EncodeScalar(text[0]) + EncodeText(text[1..])
  }

  /** The scalar value at the front of well-formed bytes. */
  function DecodeFront(s: seq<Byte>): char
    requires FrontLength(s) > 0
  {
    var a: int := s[0];
    if FrontLength(s) == 1 then a as char
    else
      var b: int := s[1];
      if FrontLength(s) == 2 then ((a - 0xc0) * 0x40 + (b - 0x80)) as char
      else
        var c: int := s[2];
        if FrontLength(s) == 3 then ((a - 0xe0) * 0x1000 + (b - 0x80) * 0x40 + (c - 0x80)) as char
        else
          var d: int := s[3];
          ((a - 0xf0) * 0x4_0000 + (b - 0x80) * 0x1000 + (c - 0x80) * 0x40 + (d - 0x80)) as char
  }

  lemma LowBits(high: nat, low: nat)
    requires low < 0x40
    ensures (high * 0x40 + low) / 0x40 == high && (high * 0x40 + low) % 0x40 == low
  {
  }

  lemma HighBits(n: nat)
    ensures n / 0x1000 == n / 0x40 / 0x40 && n / 0x4_0000 == n / 0x1000 / 0x40
  {
  }

  lemma TwoBytes(a: nat, b: nat)
    requires 2 <= a < 0x20 && b < 0x40
    ensures EncodeScalar((a * 0x40 + b) as char) == [0xc0 + a, 0x80 + b]
  {
    LowBits(a, b);
  }

  lemma ThreeBytes(a: nat, b: nat, c: nat)
    requires a < 0x10 && b < 0x40 && c < 0x40 && (a == 0 ==> b >= 0x20) && (a == 0xd ==> b < 0x20)
    ensures EncodeScalar((a * 0x1000 + b * 0x40 + c) as char) == [0xe0 + a, 0x80 + b, 0x80 + c]
  {
    LowBits(a * 0x40 + b, c);
    LowBits(a, b);
    HighBits(a * 0x1000 + b * 0x40 + c);
  }

  lemma FourBytes(a: nat, b: nat, c: nat, d: nat)
    requires a <= 4 && b < 0x40 && c < 0x40 && d < 0x40 && (a == 0 ==> b >= 0x10) && (a == 4 ==> b < 0x10)
    ensures EncodeScalar((a * 0x4_0000 + b * 0x1000 + c * 0x40 + d) as char) == [0xf0 + a, 0x80 + b, 0x80 + c, 0x80 + d]
  {
    LowBits(a * 0x1000 + b * 0x40 + c, d);
    LowBits(a * 0x40 + b, c);
    LowBits(a, b);
    HighBits(a * 0x4_0000 + b * 0x1000 + c * 0x40 + d);
  }

  /** Decoding the front and encoding it again gives the same bytes. */
  lemma FrontRoundTrip(s: seq<Byte>)
    requires FrontLength(s) > 0
    ensures EncodeScalar(DecodeFront(s)) == s[..FrontLength(s)]
  {
    if FrontLength(s) == 2 {
      TwoBytes(s[0] - 0xc0, s[1] - 0x80);
    } else if FrontLength(s) == 3 {
      ThreeBytes(s[0] - 0xe0, s[1] - 0x80, s[2] - 0x80);
    } else if FrontLength(s) == 4 {
      FourBytes(s[0] - 0xf0, s[1] - 0x80, s[2] - 0x80, s[3] - 0x80);
    }
  }

  /** A scalar value's encoding is a front of exactly its own length, whatever follows. */
  lemma ScalarIsFront(c: char, more: seq<Byte>)
    ensures FrontLength(EncodeScalar(c) + more) == |EncodeScalar(c)|
    ensures (EncodeScalar(c) + more)[|EncodeScalar(c)|..] == more
  {
  }

  lemma {:induction false} TextIsWellFormed(text: string)
    ensures WellFormed(EncodeText(text))
  {
    if text != [] {
      TextIsWellFormed(text[1..]);
      ScalarIsFront(text[0], EncodeText(text[1..]));
    }
  }

  lemma {:induction false} WellFormedIsText(s: seq<Byte>) returns (text: string)
    requires WellFormed(s)
    ensures EncodeText(text) == s
  {
    if s == [] {
      text := [];
    } else {
      var rest := WellFormedIsText(s[FrontLength(s)..]);
      FrontRoundTrip(s);
      text := [DecodeFront(s)] + rest;
      assert text[1..] == rest;
    }
  }

  /** Bytes are well-formed exactly when they are some text's encoding. */
  lemma WellFormedIffText(s: seq<Byte>)
    ensures WellFormed(s) <==> exists text :: EncodeText(text) == s
  {
    if WellFormed(s) {
      var text := WellFormedIsText(s);
    }
    if text :| EncodeText(text) == s {
      TextIsWellFormed(text);
    }
  }

}
