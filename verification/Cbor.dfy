/**
 Definite-length CBOR items (section 3 of RFC 8949) as trees that keep how each
 head was written, so that encoding a tree gives back its exact bytes.

 The trees cover what the float widener accepts, which is a little more than the
 standard calls well-formed: major type 7 with additional information 28 to 30,
 and a two-byte simple value below 32, are copied through. `WellFormed` is the
 standard's own line.
*/
module Cbor {
  import opened Bytes
  import opened Floats

  /** A head's argument: `width` bytes after the initial byte, or none when it rides in it. */
  datatype Arg = Arg(width: nat, value: nat) {
    predicate Valid() {
      value < Capacity(width)
    }
  }

  /** How many arguments a head can spell with `width` bytes; no other width exists. */
  function Capacity(width: nat): nat {
    if width == 0 then 24
    else if width == 1 then 0x100
    else if width == 2 then 0x1_0000
    else if width == 4 then 0x1_0000_0000
    else if width == 8 then 0x1_0000_0000_0000_0000
    else 0
  }

  lemma CapacityIsLimit(width: nat)
    requires width == 1 || width == 2 || width == 4 || width == 8
    ensures Capacity(width) == Limit(width)
  {
    assert Limit(1) == 0x100;
    assert Limit(2) == 0x1_0000;
    assert Limit(4) == 0x1_0000 * Limit(2);
    assert Limit(6) == 0x1_0000 * Limit(4);
    assert Limit(8) == 0x1_0000 * Limit(6);
  }

  datatype Item =
    | Int(major: nat, arg: Arg)
    | Str(major: nat, arg: Arg, body: seq<Byte>)
    | Coll(major: nat, arg: Arg, items: Items)
    | Tag(arg: Arg, item: Item)
    | Simple(code: nat)
    | SimpleByte(value: Byte)
    | Float(width: nat, bits: nat)
  {
    /** One of the encodings the widener walks over. */
    predicate Valid()
    {
      match this
      case Int(major, arg) => major <= 1 && arg.Valid()
      case Str(major, arg, body) => 2 <= major <= 3 && arg.Valid() && |body| == arg.value
      case Coll(major, arg, items) =>
        && 4 <= major <= 5 && arg.Valid()
        && items.Length() == Total(major, arg.value)
        && items.Valid()
      case Tag(arg, item) => arg.Valid() && item.Valid()
      case Simple(code) => code < 24 || 28 <= code <= 30
      case SimpleByte(_) => true
      case Float(width, bits) => width > 1 && bits < Capacity(width)
    }

    /** Well-formed in the sense of section 3 of RFC 8949, with no reserved head. */
    predicate WellFormed()
    {
      match this
      case Coll(_, _, items) => Valid() && items.WellFormed()
      case Tag(arg, item) => Valid() && item.WellFormed()
      case Simple(code) => code < 24
      case SimpleByte(value) => value >= 32
      case _ => Valid()
    }
  }

  datatype Items = Nil | Cons(first: Item, rest: Items) {
    function Length(): nat {
      if Nil? then 0 else 1 + rest.Length()
    }

    predicate Valid() {
      Nil? || (first.Valid() && rest.Valid())
    }

    predicate WellFormed() {
      Nil? || (first.WellFormed() && rest.WellFormed())
    }
  }

  /** How many items a container's count stands for: a map entry is a key and a value. */
  function Total(major: nat, count: nat): nat {
    if major == 5 then count + count else count
  }

  function FormatOf(width: nat): (f: Format)
    ensures f.Valid() && (width == 2 || width == 4 ==> Embeds(f, DOUBLE))
  {
    if width == 2 then HALF else if width == 4 then SINGLE else DOUBLE
  }

  lemma FormatFillsBytes(width: nat)
    requires width == 2 || width == 4 || width == 8
    ensures Patterns(FormatOf(width)) == Capacity(width)
  {
    CapacityIsLimit(width);
    var f := FormatOf(width);
    var exponentBits := if width == 2 then 5 else if width == 4 then 8 else 11;
    assert f.exponentCodes == Pow2(exponentBits) by {
      assert Pow2(5) == 32;
      Pow2Add(3, 5);
      Pow2Add(3, 8);
    }
    PatternsFillBytes(f, exponentBits, width);
  }

  /** The low five bits of an initial byte. */
  function Info(arg: Arg): nat {
    if arg.width == 0 then arg.value
    else if arg.width == 1 then 24
    else if arg.width == 2 then 25
    else if arg.width == 4 then 26
    else 27
  }

  function EncodeHead(major: nat, arg: Arg): (s: seq<Byte>)
    requires major < 8 && arg.Valid()
    ensures |s| == 1 + arg.width
  {
    [major * 32 + Info(arg)] + ArgBytes(arg)
  }

  function ArgBytes(arg: Arg): (s: seq<Byte>)
    ensures |s| == arg.width
  {
    if arg.width == 0 then [] else BigEndian(arg.value, arg.width)
  }

  function FloatHead(width: nat): Byte {
    if width == 2 then 0xf9 else if width == 4 then 0xfa else 0xfb
  }

  /** Every item but major type 7 is a head, with an argument, and what follows it. */
  predicate Headed(t: Item) {
    t.Int? || t.Str? || t.Coll? || t.Tag?
  }

  function Major(t: Item): nat
    requires Headed(t)
  {
    if t.Tag? then 6 else t.major
  }

  function Encode(t: Item): (s: seq<Byte>)
    requires t.Valid()
    ensures |s| >= 1
    decreases t, 1
  {
    match t
    case Simple(code) => [0xe0 + code]
    case SimpleByte(value) => [0xf8, value]
    case Float(width, bits) => [FloatHead(width)] + BigEndian(bits, width)
    case _ => EncodeHead(Major(t), t.arg) + EncodeBody(t)
  }

  function EncodeBody(t: Item): (s: seq<Byte>)
    requires t.Valid() && Headed(t)
    decreases t, 0
  {
    match t
    case Int(_, _) => []
    case Str(_, _, body) => body
    case Coll(_, _, items) => EncodeAll(items)
    case Tag(_, item) => Encode(item)
  }

  function EncodeAll(items: Items): (s: seq<Byte>)
    requires items.Valid()
  {
    match items
    case Nil => []
    case Cons(first, rest) => Encode(first) + EncodeAll(rest)
  }

  // ------------------------------------------------------------------ reading

  datatype Error =
    | Truncated
    | Indefinite
    | Reserved(info: nat)
    | StrayBreak

  datatype Parsed<T> = Bad(error: Error) | Good(value: T, next: nat)

  lemma ReadBound(s: seq<Byte>)
    requires |s| == 1 || |s| == 2 || |s| == 4 || |s| == 8
    ensures FromBigEndian(s) < Capacity(|s|)
  {
    LeadingBound(s, |s|);
    CapacityIsLimit(|s|);
  }

  lemma ReadBack(n: nat, width: nat)
    requires width > 0 && n < Capacity(width)
    ensures FromBigEndian(BigEndian(n, width)) == n
  {
    CapacityIsLimit(width);
    BigEndianRoundTrip(n, width);
  }

  /** The argument that follows an initial byte whose low five bits are `info`. */
  function ParseArg(s: seq<Byte>, pos: nat, info: nat): (r: Parsed<Arg>)
    requires pos <= |s| && info < 32
    ensures r.Good? ==> pos <= r.next <= |s| && r.value.Valid() && Info(r.value) == info
    ensures r.Good? ==> r.next == pos + r.value.width
  {
    if info < 24 then Good(Arg(0, info), pos)
    else if info == 31 then Bad(Indefinite)
    else if info > 27 then Bad(Reserved(info))
    else
      var width := if info == 24 then 1 else if info == 25 then 2 else if info == 26 then 4 else 8;
      if |s| - pos < width then Bad(Truncated)
      else
        ReadBound(s[pos..pos + width]);
        Good(Arg(width, FromBigEndian(s[pos..pos + width])), pos + width)
  }

  /** The item that starts at `pos`, and where it ends. */
  function ParseItem(s: seq<Byte>, pos: nat): (r: Parsed<Item>)
    requires pos <= |s|
    ensures r.Good? ==> pos < r.next <= |s| && r.value.Valid()
    decreases |s| - pos, 0
  {
    if pos == |s| then Bad(Truncated)
    else
      var major, info := s[pos] / 32, s[pos] % 32;
      if major == 7 then ParsePrimitive(s, pos + 1, info)
      else
        match ParseArg(s, pos + 1, info)
        case Bad(e) => Bad(e)
        case Good(arg, next) => ParseBody(s, next, major, arg)
  }

  /** What follows the head of an item whose major type is below 7. */
  function ParseBody(s: seq<Byte>, pos: nat, major: nat, arg: Arg): (r: Parsed<Item>)
    requires pos <= |s| && major < 7 && arg.Valid()
    ensures r.Good? ==> pos <= r.next <= |s| && r.value.Valid()
    ensures r.Good? ==> Headed(r.value) && Major(r.value) == major && r.value.arg == arg
    decreases |s| - pos, arg.value * 2 + 1
  {
    if major <= 1 then Good(Int(major, arg), pos)
    else if major <= 3 then
      if |s| - pos < arg.value then Bad(Truncated)
      else Good(Str(major, arg, s[pos..pos + arg.value]), pos + arg.value)
    else if major <= 5 then
      match ParseItems(s, pos, Total(major, arg.value))
      case Bad(e) => Bad(e)
      case Good(items, end) => Good(Coll(major, arg, items), end)
    else
      match ParseItem(s, pos)
      case Bad(e) => Bad(e)
      case Good(item, end) => Good(Tag(arg, item), end)
  }

  /** Major type 7, with `pos` just past the initial byte. */
  function ParsePrimitive(s: seq<Byte>, pos: nat, info: nat): (r: Parsed<Item>)
    requires pos <= |s| && info < 32
    ensures r.Good? ==> pos <= r.next <= |s| && r.value.Valid()
  {
    if 25 <= info <= 27 then
      var width := if info == 25 then 2 else if info == 26 then 4 else 8;
      if |s| - pos < width then Bad(Truncated)
      else
        ReadBound(s[pos..pos + width]);
        Good(Float(width, FromBigEndian(s[pos..pos + width])), pos + width)
    else if info == 24 then
      if |s| - pos < 1 then Bad(Truncated) else Good(SimpleByte(s[pos]), pos + 1)
    else if info == 31 then Bad(StrayBreak)
    else Good(Simple(info), pos)
  }

  /** `count` items in a row, starting at `pos`. */
  function ParseItems(s: seq<Byte>, pos: nat, count: nat): (r: Parsed<Items>)
    requires pos <= |s|
    ensures r.Good? ==> pos <= r.next <= |s| && r.value.Length() == count && r.value.Valid()
    decreases |s| - pos, count
  {
    if count == 0 then Good(Nil, pos)
    else
      match ParseItem(s, pos)
      case Bad(e) => Bad(e)
      case Good(item, next) =>
        match ParseItems(s, next, count - 1)
        case Bad(e) => Bad(e)
        case Good(items, end) => Good(Cons(item, items), end)
  }

  /** `part` is what `s` holds from `pos` on. */
  predicate At(s: seq<Byte>, pos: nat, part: seq<Byte>) {
    pos + |part| <= |s| && s[pos..pos + |part|] == part
  }

  lemma AtSplit(s: seq<Byte>, pos: nat, a: seq<Byte>, b: seq<Byte>)
    ensures At(s, pos, a + b) <==> At(s, pos, a) && At(s, pos + |a|, b)
  {
    if At(s, pos, a + b) {
      assert a == (a + b)[..|a|];
      assert b == (a + b)[|a|..];
    }
    if At(s, pos, a) && At(s, pos + |a|, b) {
      assert s[pos..pos + |a + b|] == s[pos..pos + |a|] + s[pos + |a|..pos + |a| + |b|];
    }
  }

  /** An argument is read where, and only where, it is written. */
  lemma ArgExact(s: seq<Byte>, pos: nat, arg: Arg)
    requires pos <= |s| && arg.Valid()
    ensures At(s, pos, ArgBytes(arg)) <==> ParseArg(s, pos, Info(arg)) == Good(arg, pos + arg.width)
  {
    if arg.width > 0 && pos + arg.width <= |s| {
      ReadBack(arg.value, arg.width);
      FromBigEndianRoundTrip(s[pos..pos + arg.width]);
    }
  }

  /** Reading an item under a major type below 7 starts by reading its head. */
  lemma HeadExact(s: seq<Byte>, pos: nat, major: nat, arg: Arg)
    requires major < 7 && arg.Valid()
    ensures At(s, pos, EncodeHead(major, arg)) <==>
            && pos < |s| && s[pos] / 32 == major
            && ParseArg(s, pos + 1, s[pos] % 32) == Good(arg, pos + 1 + arg.width)
  {
    if pos < |s| {
      AtSplit(s, pos, [major * 32 + Info(arg)], ArgBytes(arg));
      ArgExact(s, pos + 1, arg);
    }
  }

  /** Whatever parses is written exactly there. */
  lemma {:induction false} ParseSound(s: seq<Byte>, pos: nat)
    requires pos <= |s| && ParseItem(s, pos).Good?
    ensures var r := ParseItem(s, pos);
            At(s, pos, Encode(r.value)) && r.next == pos + |Encode(r.value)|
    decreases |s| - pos, 0
  {
    var major := s[pos] / 32;
    if major == 7 {
      PrimitiveSound(s, pos);
    } else {
      var a := ParseArg(s, pos + 1, s[pos] % 32);
      HeadExact(s, pos, major, a.value);
      BodySound(s, a.next, major, a.value);
      var t := ParseBody(s, a.next, major, a.value).value;
      AtSplit(s, pos, EncodeHead(major, a.value), EncodeBody(t));
    }
  }

  lemma {:induction false} BodySound(s: seq<Byte>, pos: nat, major: nat, arg: Arg)
    requires pos <= |s| && major < 7 && arg.Valid() && ParseBody(s, pos, major, arg).Good?
    ensures var r := ParseBody(s, pos, major, arg);
            && At(s, pos, EncodeBody(r.value)) && r.next == pos + |EncodeBody(r.value)|
    decreases |s| - pos, arg.value * 2 + 1
  {
    if 4 <= major <= 5 {
      ParseAllSound(s, pos, Total(major, arg.value));
    } else if major == 6 {
      ParseSound(s, pos);
    }
  }

  lemma PrimitiveSound(s: seq<Byte>, pos: nat)
    requires pos < |s| && s[pos] / 32 == 7 && ParsePrimitive(s, pos + 1, s[pos] % 32).Good?
    ensures var r := ParsePrimitive(s, pos + 1, s[pos] % 32);
            At(s, pos, Encode(r.value)) && r.next == pos + |Encode(r.value)|
  {
    var t := ParsePrimitive(s, pos + 1, s[pos] % 32).value;
    if t.Float? {
      var body := s[pos + 1..pos + 1 + t.width];
      AtByte(s, pos, body);
      FromBigEndianRoundTrip(body);
      assert Encode(t) == [s[pos]] + body;
    } else if t.SimpleByte? {
      AtByte(s, pos, [s[pos + 1]]);
    } else {
      assert s[pos] == 0xe0 + t.code;
    }
  }

  lemma AtByte(s: seq<Byte>, pos: nat, tail: seq<Byte>)
    requires pos < |s| && At(s, pos + 1, tail)
    ensures At(s, pos, [s[pos]] + tail)
  {
    AtSplit(s, pos, [s[pos]], tail);
  }

  lemma {:induction false} ParseAllSound(s: seq<Byte>, pos: nat, count: nat)
    requires pos <= |s| && ParseItems(s, pos, count).Good?
    ensures var r := ParseItems(s, pos, count);
            r.next == pos + |EncodeAll(r.value)| && At(s, pos, EncodeAll(r.value))
    decreases |s| - pos, count
  {
    if count > 0 {
      var first := ParseItem(s, pos);
      var rest := ParseItems(s, first.next, count - 1);
      FirstThenRest(s, pos, first.next, rest.next, Cons(first.value, rest.value), count - 1);
      ParseSound(s, pos);
      ParseAllSound(s, first.next, count - 1);
      AllJoin(s, pos, Cons(first.value, rest.value));
    }
  }

  lemma AllJoin(s: seq<Byte>, pos: nat, items: Items)
    requires items.Cons? && items.Valid() && At(s, pos, Encode(items.first))
    requires At(s, pos + |Encode(items.first)|, EncodeAll(items.rest))
    ensures At(s, pos, EncodeAll(items))
    ensures |EncodeAll(items)| == |Encode(items.first)| + |EncodeAll(items.rest)|
  {
    AtSplit(s, pos, Encode(items.first), EncodeAll(items.rest));
  }

  /** Whatever is written parses back to the tree it was written from. */
  lemma {:induction false} ParseComplete(s: seq<Byte>, pos: nat, t: Item)
    requires t.Valid() && At(s, pos, Encode(t))
    ensures ParseItem(s, pos) == Good(t, pos + |Encode(t)|)
    decreases t, 1
  {
    if Headed(t) {
      HeadComplete(s, pos, t);
      BodyComplete(s, pos + 1 + t.arg.width, t);
    } else {
      PrimitiveComplete(s, pos, t);
    }
  }

  /** A head is read, and reading goes on with its body. */
  lemma HeadComplete(s: seq<Byte>, pos: nat, t: Item)
    requires t.Valid() && Headed(t) && At(s, pos, Encode(t))
    ensures var next := pos + 1 + t.arg.width;
            && next <= |s| && At(s, next, EncodeBody(t)) && |Encode(t)| == 1 + t.arg.width + |EncodeBody(t)|
            && ParseItem(s, pos) == ParseBody(s, next, Major(t), t.arg)
  {
    AtSplit(s, pos, EncodeHead(Major(t), t.arg), EncodeBody(t));
    HeadExact(s, pos, Major(t), t.arg);
  }

  lemma {:induction false} BodyComplete(s: seq<Byte>, pos: nat, t: Item)
    requires t.Valid() && Headed(t) && At(s, pos, EncodeBody(t))
    ensures ParseBody(s, pos, Major(t), t.arg) == Good(t, pos + |EncodeBody(t)|)
    decreases t, 0
  {
    match t
    case Int(_, _) =>
    case Str(_, _, _) =>
    case Coll(_, _, items) => ParseAllComplete(s, pos, items);
    case Tag(_, item) => ParseComplete(s, pos, item);
  }

  lemma PrimitiveComplete(s: seq<Byte>, pos: nat, t: Item)
    requires t.Valid() && At(s, pos, Encode(t)) && (t.Simple? || t.SimpleByte? || t.Float?)
    ensures ParseItem(s, pos) == Good(t, pos + |Encode(t)|)
  {
    assert s[pos] == Encode(t)[0];
    if t.Float? {
      AtSplit(s, pos, [FloatHead(t.width)], BigEndian(t.bits, t.width));
      ReadBack(t.bits, t.width);
    } else if t.SimpleByte? {
      assert s[pos + 1] == Encode(t)[1];
    }
  }

  lemma {:induction false} ParseAllComplete(s: seq<Byte>, pos: nat, items: Items)
    requires items.Valid() && At(s, pos, EncodeAll(items))
    ensures ParseItems(s, pos, items.Length()) == Good(items, pos + |EncodeAll(items)|)
    decreases items
  {
    match items
    case Nil =>
    case Cons(first, rest) =>
      var mid := pos + |Encode(first)|;
      AllSplit(s, pos, items);
      ParseComplete(s, pos, first);
      ParseAllComplete(s, mid, rest);
      AllRead(s, pos, mid, pos + |EncodeAll(items)|, items);
  }

  lemma AllSplit(s: seq<Byte>, pos: nat, items: Items)
    requires items.Valid() && items.Cons? && At(s, pos, EncodeAll(items))
    ensures At(s, pos, Encode(items.first))
    ensures At(s, pos + |Encode(items.first)|, EncodeAll(items.rest))
    ensures |EncodeAll(items)| == |Encode(items.first)| + |EncodeAll(items.rest)|
  {
    AtSplit(s, pos, Encode(items.first), EncodeAll(items.rest));
  }

  lemma FirstThenRest(s: seq<Byte>, pos: nat, mid: nat, end: nat, items: Items, count: nat)
    requires pos <= |s| && mid <= |s| && items.Cons?
    requires ParseItem(s, pos) == Good(items.first, mid)
    requires ParseItems(s, mid, count) == Good(items.rest, end)
    ensures ParseItems(s, pos, count + 1) == Good(items, end)
  {
  }

  lemma AllRead(s: seq<Byte>, pos: nat, mid: nat, end: nat, items: Items)
    requires pos <= |s| && mid <= |s| && items.Cons?
    requires ParseItem(s, pos) == Good(items.first, mid)
    requires ParseItems(s, mid, items.rest.Length()) == Good(items.rest, end)
    ensures ParseItems(s, pos, items.Length()) == Good(items, end)
  {
    FirstThenRest(s, pos, mid, end, items, items.rest.Length());
    assert items.Length() == items.rest.Length() + 1;
  }

  /** A byte string is the encoding of at most one tree. */
  lemma EncodeInjective(a: Item, b: Item)
    requires a.Valid() && b.Valid() && Encode(a) == Encode(b)
    ensures a == b
  {
    ParseComplete(Encode(a), 0, a);
    ParseComplete(Encode(b), 0, b);
  }

}
