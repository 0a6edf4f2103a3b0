/**
 The URL-safe base64 of section 5 of RFC 4648 without padding, decoded strictly:
 no padding characters, and the unused bits of the last symbol must be zero
 (section 3.5).
*/
module Base64 {
  import opened Bytes
  import opened Text
  import opened Wrappers

  type Sextet = v: int | 0 <= v < 64

  /** The symbol that stands for six bits. */
  function Symbol(v: Sextet): Byte {
    if v < 26 then 65 + v
    else if v < 52 then 97 + (v - 26)
    else if v < 62 then 48 + (v - 52)
    else if v == 62 then 45
    else 95
  }

  function SextetOf(b: Byte): Option<Sextet> {
    if 65 <= b <= 90 then Some(b - 65)
    else if 97 <= b <= 122 then Some(b - 97 + 26)
    else if 48 <= b <= 57 then Some(b - 48 + 52)
    else if b == 45 then Some(62)
    else if b == 95 then Some(63)
    else None
  }

  lemma SymbolExact(b: Byte, v: Sextet)
    ensures SextetOf(b) == Some(v) <==> b == Symbol(v)
  {
  }

  function Encode(b: seq<Byte>): Str {
    if |b| == 0 then []
    else if |b| == 1 then [Symbol(b[0] / 4), Symbol(b[0] % 4 * 16)]
    else if |b| == 2 then [Symbol(b[0] / 4), Symbol(b[0] % 4 * 16 + b[1] / 16), Symbol(b[1] % 16 * 4)]
    else Quad(b[0], b[1], b[2]) + Encode(b[3..])
  }

  /** Three bytes as four symbols. */
  function Quad(x: Byte, y: Byte, z: Byte): (q: Str)
    ensures |q| == 4
  {
    [Symbol(x / 4), Symbol(x % 4 * 16 + y / 16), Symbol(y % 16 * 4 + z / 64), Symbol(z % 64)]
  }

  function Sextets(s: Str): Option<seq<Sextet>> {
    if s == [] then Some([])
    else
      match (SextetOf(s[0]), Sextets(s[1..]))
      case (Some(v), Some(rest)) => Some([v] + rest)
      case _ => None
  }

  /** The three bytes four sextets spell. */
  function High(v: int, w: int): Byte
    requires 0 <= v < 64 && 0 <= w < 64
  {
    v * 4 + w / 16
  }

  function Middle(v: int, w: int): Byte
    requires 0 <= v < 64 && 0 <= w < 64
  {
    v % 16 * 16 + w / 4
  }

  function Low(v: int, w: int): Byte
    requires 0 <= v < 64 && 0 <= w < 64
  {
    v % 4 * 64 + w
  }

  /** The bytes a run of sextets spells, when it has a possible length and no stray bits. */
  function Join(v: seq<Sextet>): Option<seq<Byte>> {
    if |v| == 0 then Some([])
    else if |v| == 1 then None
    else if |v| == 2 then if v[1] % 16 == 0 then Some([High(v[0], v[1])]) else None
    else if |v| == 3 then if v[2] % 4 == 0 then Some([High(v[0], v[1]), Middle(v[1], v[2])]) else None
    else
      match Join(v[4..])
      case None => None
      case Some(rest) => Some([High(v[0], v[1]), Middle(v[1], v[2]), Low(v[2], v[3])] + rest)
  }

  function Decode(s: Str): Option<seq<Byte>> {
    match Sextets(s)
    case None => None
    case Some(v) => Join(v)
  }

  /** The sextets of a run of bytes: what `Encode` writes before looking symbols up. */
  function Split(b: seq<Byte>): seq<Sextet> {
    if |b| == 0 then []
    else if |b| == 1 then [b[0] / 4, b[0] % 4 * 16]
    else if |b| == 2 then [b[0] / 4, b[0] % 4 * 16 + b[1] / 16, b[1] % 16 * 4]
    else [b[0] / 4, b[0] % 4 * 16 + b[1] / 16, b[1] % 16 * 4 + b[2] / 64, b[2] % 64] + Split(b[3..])
  }

  function Symbols(v: seq<Sextet>): (s: Str)
    ensures |s| == |v|
  {
    seq(|v|, i requires 0 <= i < |v| => Symbol(v[i]))
  }

  lemma {:induction false} EncodeSplits(b: seq<Byte>)
    ensures Encode(b) == Symbols(Split(b))
  {
    if |b| >= 3 {
      EncodeSplits(b[3..]);
    }
  }

  lemma {:induction false} SextetsExact(s: Str, v: seq<Sextet>)
    ensures Sextets(s) == Some(v) <==> s == Symbols(v)
    decreases |s|
  {
    if s == [] {
    } else if v == [] {
    } else {
      SextetsExact(s[1..], v[1..]);
      SymbolExact(s[0], v[0]);
      assert v == [v[0]] + v[1..];
      assert Symbols(v) == [Symbol(v[0])] + Symbols(v[1..]);
    }
  }

  /** Bytes taken apart into sextets and put together again, whichever neighbours they have. */
  lemma JoinedBytes(x: Byte, y: Byte, z: Byte)
    ensures High(x / 4, x % 4 * 16 + y / 16) == x && High(x / 4, x % 4 * 16) == x
    ensures Middle(x % 4 * 16 + y / 16, y % 16 * 4 + z / 64) == y && Middle(x % 4 * 16 + y / 16, y % 16 * 4) == y
    ensures Low(y % 16 * 4 + z / 64, z % 64) == z
  {
  }

  /** Sextets put together into bytes and taken apart again. */
  lemma SplitBytes(u: Sextet, v: Sextet, w: Sextet, t: Sextet)
    ensures High(u, v) / 4 == u && High(u, v) % 4 * 16 + Middle(v, w) / 16 == v
    ensures Middle(v, w) % 16 * 4 + Low(w, t) / 64 == w && Low(w, t) % 64 == t
    ensures v % 16 == 0 ==> High(u, v) % 4 * 16 == v
    ensures w % 4 == 0 ==> Middle(v, w) % 16 * 4 == w
  {
  }

  lemma {:induction false} JoinSplit(b: seq<Byte>)
    ensures Join(Split(b)) == Some(b)
  {
    if |b| >= 3 {
      JoinSplit(b[3..]);
      JoinedBytes(b[0], b[1], b[2]);
      QuadThenRest(b);
      assert b == [b[0], b[1], b[2]] + b[3..];
    } else if |b| == 2 {
      JoinedBytes(b[0], b[1], 0);
      assert b == [b[0], b[1]];
    } else if |b| == 1 {
      JoinedBytes(b[0], 0, 0);
      assert b == [b[0]];
    }
  }

  lemma QuadThenRest(b: seq<Byte>)
    requires |b| >= 3
    ensures var v := Split(b);
            && |v| >= 4 && v[4..] == Split(b[3..]) && v[0] == b[0] / 4 && v[1] == b[0] % 4 * 16 + b[1] / 16
            && v[2] == b[1] % 16 * 4 + b[2] / 64 && v[3] == b[2] % 64
  {
  }

  lemma {:induction false} SplitJoin(v: seq<Sextet>)
    requires Join(v).Some?
    ensures Split(Join(v).value) == v
  {
    if |v| >= 4 {
      SplitJoin(v[4..]);
      SplitBytes(v[0], v[1], v[2], v[3]);
      assert Join(v).value[3..] == Join(v[4..]).value;
      assert v == [v[0], v[1], v[2], v[3]] + v[4..];
    } else if |v| == 3 {
      SplitBytes(v[0], v[1], v[2], 0);
      assert v == [v[0], v[1], v[2]];
    } else if |v| == 2 {
      SplitBytes(v[0], v[1], 0, 0);
      assert v == [v[0], v[1]];
    }
  }

  /** Decoding accepts exactly the encodings, and undoes them. */
  lemma DecodeExact(s: Str, b: seq<Byte>)
    ensures Decode(s) == Some(b) <==> s == Encode(b)
  {
    EncodeSplits(b);
    SextetsExact(s, Split(b));
    JoinSplit(b);
    if Decode(s) == Some(b) {
      SplitJoin(Sextets(s).value);
    }
  }

  lemma {:induction false} EncodeAscii(b: seq<Byte>)
    ensures forall i :: 0 <= i < |Encode(b)| ==> Encode(b)[i] < 0x80
  {
    if |b| >= 3 {
      EncodeAscii(b[3..]);
    }
  }
}
