/**
 Widening every finite narrow float of one encoded CBOR item
 (sdks/go/floatwidth.go). The wire contract pins a finite float to its 64-bit
 head, because the automatic idempotency key is a hash over these bytes.
*/
module FloatWidth {
  import opened Bytes
  import opened Floats
  import opened Cbor
  import opened Seqs

  // ------------------------------------------------- what widening does to a tree

  predicate NarrowFinite(width: nat, bits: nat) {
    (width == 2 || width == 4) && Finite(FormatOf(width), bits)
  }

  function WideBits(width: nat, bits: nat): (wide: nat)
    requires (width == 2 || width == 4) && bits < Capacity(width) && NarrowFinite(width, bits)
    ensures wide < Capacity(8)
  {
    FormatFillsBytes(width);
    FormatFillsBytes(8);
    WidenedPreserves(FormatOf(width), FormatOf(8), bits);
    Widened(FormatOf(width), FormatOf(8), bits)
  }

  function WidenItem(t: Item): (w: Item)
    requires t.Valid()
    ensures w.Valid()
  {
    match t
    case Float(width, bits) => if NarrowFinite(width, bits) then Float(8, WideBits(width, bits)) else t
    case Coll(major, arg, items) => Coll(major, arg, WidenAll(items))
    case Tag(arg, item) => Tag(arg, WidenItem(item))
    case _ => t
  }

  function WidenAll(items: Items): (w: Items)
    requires items.Valid()
    ensures w.Valid() && w.Length() == items.Length()
  {
    match items
    case Nil => Nil
    case Cons(first, rest) => Cons(WidenItem(first), WidenAll(rest))
  }

  // ------------------------------------------------------------ what a tree means

  /** The data item a tree encodes: head widths are gone, a finite float is a signed number. */
  datatype Value =
    | IntValue(negative: bool, n: nat)
    | StrValue(text: bool, body: seq<Byte>)
    | CollValue(isMap: bool, items: Values)
    | TagValue(number: nat, content: Value)
    | SimpleValue(code: nat)
    | FloatValue(negative: bool, magnitude: nat)
    | NonFinite(width: nat, bits: nat)

  datatype Values = NoValue | MoreValues(first: Value, rest: Values)

  function Meaning(t: Item): Value
    requires t.Valid()
  {
    match t
    case Int(major, arg) => IntValue(major == 1, arg.value)
    case Str(major, _, body) => StrValue(major == 3, body)
    case Coll(major, _, items) => CollValue(major == 5, Meanings(items))
    case Tag(arg, item) => TagValue(arg.value, Meaning(item))
    case Simple(code) => SimpleValue(code)
    case SimpleByte(value) => SimpleValue(value)
    case Float(width, bits) =>
      if Finite(FormatOf(width), bits)
      then FloatValue(Negative(FormatOf(width), bits), Magnitude(FormatOf(width), bits))
      else NonFinite(width, bits)
  }

  function Meanings(items: Items): Values
    requires items.Valid()
  {
    match items
    case Nil => NoValue
    case Cons(first, rest) => MoreValues(Meaning(first), Meanings(rest))
  }

  lemma WideBitsMeaning(width: nat, bits: nat)
    requires bits < Capacity(width) && NarrowFinite(width, bits)
    ensures Meaning(Float(8, WideBits(width, bits))) == Meaning(Float(width, bits))
  {
    FormatFillsBytes(width);
    FormatFillsBytes(8);
    WidenedPreserves(FormatOf(width), FormatOf(8), bits);
  }

  /** Widening never changes the data item. */
  lemma {:induction false} WidenKeepsMeaning(t: Item)
    requires t.Valid()
    ensures Meaning(WidenItem(t)) == Meaning(t)
  {
    match t
    case Float(width, bits) =>
      if NarrowFinite(width, bits) {
        WideBitsMeaning(width, bits);
      }
    case Coll(_, _, items) => WidenAllKeepsMeaning(items);
    case Tag(_, item) => WidenKeepsMeaning(item);
    case _ =>
  }

  lemma {:induction false} WidenAllKeepsMeaning(items: Items)
    requires items.Valid()
    ensures Meanings(WidenAll(items)) == Meanings(items)
  {
    match items
    case Nil =>
    case Cons(first, rest) =>
      WidenKeepsMeaning(first);
      WidenAllKeepsMeaning(rest);
  }

  // ------------------------------------------------------------- the normal form

  /** No finite 16- or 32-bit float head anywhere. */
  predicate Normal(t: Item) {
    match t
    case Float(width, bits) => !NarrowFinite(width, bits)
    case Coll(_, _, items) => AllNormal(items)
    case Tag(_, item) => Normal(item)
    case _ => true
  }

  predicate AllNormal(items: Items) {
    match items
    case Nil => true
    case Cons(first, rest) => Normal(first) && AllNormal(rest)
  }

  /** Widening reaches the normal form, and leaves alone exactly what is already there. */
  lemma {:induction false} WidenNormalizes(t: Item)
    requires t.Valid()
    ensures Normal(WidenItem(t))
    ensures WidenItem(t) == t <==> Normal(t)
  {
    match t
    case Coll(_, _, items) => WidenAllNormalizes(items);
    case Tag(_, item) => WidenNormalizes(item);
    case _ =>
  }

  lemma {:induction false} WidenAllNormalizes(items: Items)
    requires items.Valid()
    ensures AllNormal(WidenAll(items))
    ensures WidenAll(items) == items <==> AllNormal(items)
  {
    match items
    case Nil =>
    case Cons(first, rest) =>
      WidenNormalizes(first);
      WidenAllNormalizes(rest);
  }

  /** Two trees that differ, if at all, only in the width a finite float was written with. */
  predicate SameButFloatWidths(a: Item, b: Item)
    requires a.Valid() && b.Valid()
  {
    match (a, b)
    case (Float(_, _), Float(_, _)) => Meaning(a) == Meaning(b)
    case (Coll(m, n, xs), Coll(m', n', ys)) => m == m' && n == n' && AllSameButFloatWidths(xs, ys)
    case (Tag(n, x), Tag(n', y)) => n == n' && SameButFloatWidths(x, y)
    case _ => a == b
  }

  predicate AllSameButFloatWidths(xs: Items, ys: Items)
    requires xs.Valid() && ys.Valid()
  {
    match (xs, ys)
    case (Nil, Nil) => true
    case (Cons(x, xs'), Cons(y, ys')) => SameButFloatWidths(x, y) && AllSameButFloatWidths(xs', ys')
    case _ => false
  }

  lemma FloatsWidenEqually(a: Item, b: Item)
    requires a.Valid() && b.Valid() && a.Float? && b.Float?
    ensures WidenItem(a) == WidenItem(b) <==> Meaning(a) == Meaning(b)
  {
    WidenKeepsMeaning(a);
    WidenKeepsMeaning(b);
    var v, w := WidenItem(a), WidenItem(b);
    if Meaning(a) == Meaning(b) && Meaning(v).FloatValue? {
      FormatFillsBytes(8);
      assert v.width == 8 && w.width == 8;
      PatternUnique(FormatOf(8), v.bits, w.bits);
    }
  }

  /** Widening identifies exactly the trees that differ only in float widths. */
  lemma {:induction false} WidenCanonical(a: Item, b: Item)
    requires a.Valid() && b.Valid()
    ensures WidenItem(a) == WidenItem(b) <==> SameButFloatWidths(a, b)
  {
    match (a, b)
    case (Float(_, _), Float(_, _)) => FloatsWidenEqually(a, b);
    case (Coll(_, _, xs), Coll(_, _, ys)) => WidenAllCanonical(xs, ys);
    case (Tag(_, x), Tag(_, y)) => WidenCanonical(x, y);
    case _ =>
  }

  lemma {:induction false} WidenAllCanonical(xs: Items, ys: Items)
    requires xs.Valid() && ys.Valid()
    ensures WidenAll(xs) == WidenAll(ys) <==> AllSameButFloatWidths(xs, ys)
  {
    match (xs, ys)
    case (Cons(x, xs'), Cons(y, ys')) =>
      WidenCanonical(x, y);
      WidenAllCanonical(xs', ys');
    case _ =>
  }

  // ------------------------------------------------------------------- on bytes

  datatype Outcome =
    | Accepted(bytes: seq<Byte>)
    | Refused(error: Error)
    | Trailing(count: nat)

  /** The structural walk over a whole input, without the shortcut. */
  function FullWalk(s: seq<Byte>): Outcome {
    match ParseItem(s, 0)
    case Bad(e) => Refused(e)
    case Good(t, next) => if next == |s| then Accepted(Encode(WidenItem(t))) else Trailing(|s| - next)
  }

  predicate MayHoldNarrowFloat(s: seq<Byte>) {
    0xf9 in s || 0xfa in s
  }

  function WidenBytes(s: seq<Byte>): Outcome {
    if MayHoldNarrowFloat(s) then FullWalk(s) else Accepted(s)
  }

  lemma WalkRewrites(t: Item)
    requires t.Valid()
    ensures FullWalk(Encode(t)) == Accepted(Encode(WidenItem(t)))
  {
    ParseComplete(Encode(t), 0, t);
  }

  /** The walk accepts exactly the encodings of valid trees. */
  lemma WalkAcceptsExactly(s: seq<Byte>)
    ensures FullWalk(s).Accepted? <==> exists t: Item :: t.Valid() && Encode(t) == s
  {
    if FullWalk(s).Accepted? {
      ParseSound(s, 0);
      assert ParseItem(s, 0).value.Valid();
    }
    if t: Item :| t.Valid() && Encode(t) == s {
      WalkRewrites(t);
    }
  }

  lemma {:induction false} NarrowFloatShows(t: Item)
    requires t.Valid() && !Normal(t)
    ensures MayHoldNarrowFloat(Encode(t))
    decreases t, 1
  {
    match t
    case Float(width, bits) => assert Encode(t)[0] == FloatHead(width);
    case Coll(_, _, items) => NarrowFloatsShow(items);
    case Tag(_, item) => NarrowFloatShows(item);
  }

  lemma {:induction false} NarrowFloatsShow(items: Items)
    requires items.Valid() && !AllNormal(items)
    ensures MayHoldNarrowFloat(EncodeAll(items))
    decreases items, 1
  {
    if Normal(items.first) {
      NarrowFloatsShow(items.rest);
    } else {
      NarrowFloatShows(items.first);
    }
  }

  /** Whenever the walk succeeds on an input the shortcut takes, the two agree. */
  lemma ShortcutAgrees(s: seq<Byte>)
    requires !MayHoldNarrowFloat(s) && FullWalk(s).Accepted?
    ensures FullWalk(s) == WidenBytes(s)
  {
    var t := ParseItem(s, 0).value;
    ParseSound(s, 0);
    if !Normal(t) {
      NarrowFloatShows(t);
    } else {
      WidenNormalizes(t);
    }
  }

  /**
   Every valid item is accepted, its bytes become those of a normal tree, and
   that tree encodes the same data item.
  */
  lemma WidenBytesCorrect(t: Item)
    requires t.Valid()
    ensures WidenBytes(Encode(t)) == Accepted(Encode(WidenItem(t)))
    ensures Normal(WidenItem(t)) && Meaning(WidenItem(t)) == Meaning(t)
  {
    WalkRewrites(t);
    if !MayHoldNarrowFloat(Encode(t)) {
      ShortcutAgrees(Encode(t));
    }
    WidenNormalizes(t);
    WidenKeepsMeaning(t);
  }

  /** In particular every well-formed definite-length item is, and stays well-formed. */
  lemma {:induction false} WidenKeepsWellFormed(t: Item)
    requires t.WellFormed()
    ensures t.Valid() && WidenItem(t).WellFormed()
  {
    match t
    case Coll(_, _, items) => WidenAllKeepsWellFormed(items);
    case Tag(_, item) => WidenKeepsWellFormed(item);
    case _ =>
  }

  lemma {:induction false} WidenAllKeepsWellFormed(items: Items)
    requires items.WellFormed()
    ensures items.Valid() && WidenAll(items).WellFormed()
  {
    match items
    case Nil =>
    case Cons(first, rest) =>
      WidenKeepsWellFormed(first);
      WidenAllKeepsWellFormed(rest);
  }

  /** Widening what was widened changes nothing, whatever the first input was. */
  lemma WidenBytesIdempotent(s: seq<Byte>)
    requires WidenBytes(s).Accepted?
    ensures WidenBytes(WidenBytes(s).bytes) == WidenBytes(s)
  {
    if MayHoldNarrowFloat(s) {
      var t := ParseItem(s, 0).value;
      WidenNormalizes(t);
      WidenNormalizes(WidenItem(t));
      WidenBytesCorrect(WidenItem(t));
    }
  }

  /** The widened bytes of two items agree exactly when only float widths set them apart. */
  lemma WidenBytesCanonical(a: Item, b: Item)
    requires a.Valid() && b.Valid()
    ensures WidenBytes(Encode(a)) == WidenBytes(Encode(b)) <==> SameButFloatWidths(a, b)
  {
    WidenBytesCorrect(a);
    WidenBytesCorrect(b);
    WidenCanonical(a, b);
    if Encode(WidenItem(a)) == Encode(WidenItem(b)) {
      EncodeInjective(WidenItem(a), WidenItem(b));
    }
  }

  /** A reserved one-byte head, or a two-byte head for a simple value that has a one-byte one, somewhere. */
  predicate HasReserved(t: Item) {
    match t
    case Simple(code) => code >= 28
    case SimpleByte(value) => value < 32
    case Coll(_, _, items) => AnyReserved(items)
    case Tag(_, item) => HasReserved(item)
    case _ => false
  }

  predicate AnyReserved(items: Items) {
    items.Cons? && (HasReserved(items.first) || AnyReserved(items.rest))
  }

  lemma {:induction false} WellFormedUnlessReserved(t: Item)
    requires t.Valid()
    ensures t.WellFormed() <==> !HasReserved(t)
  {
    match t
    case Coll(_, _, items) => AllWellFormedUnlessReserved(items);
    case Tag(_, item) => WellFormedUnlessReserved(item);
    case _ =>
  }

  lemma {:induction false} AllWellFormedUnlessReserved(items: Items)
    requires items.Valid()
    ensures items.WellFormed() <==> !AnyReserved(items)
  {
    match items
    case Nil =>
    case Cons(first, rest) =>
      WellFormedUnlessReserved(first);
      AllWellFormedUnlessReserved(rest);
  }

  /** What the walk accepts is well-formed exactly when it holds no reserved simple head. */
  lemma AcceptedIsWellFormedIff(s: seq<Byte>)
    requires FullWalk(s).Accepted?
    ensures (exists t: Item :: t.WellFormed() && t.Valid() && Encode(t) == s) <==> !HasReserved(ParseItem(s, 0).value)
  {
    ParseSound(s, 0);
    var u := ParseItem(s, 0).value;
    WellFormedUnlessReserved(u);
    if t: Item :| t.WellFormed() && t.Valid() && Encode(t) == s {
      EncodeInjective(t, u);
    }
  }

  /** Acceptance is wider than well-formedness: reserved heads of either kind are copied through. */
  lemma ReservedHeadAccepted()
    ensures HasReserved(Simple(28)) && FullWalk([0xfc]) == Accepted([0xfc]) == Accepted(Encode(Simple(28)))
    ensures HasReserved(SimpleByte(0)) && FullWalk([0xf8, 0]) == Accepted([0xf8, 0]) == Accepted(Encode(SimpleByte(0)))
  {
    WalkRewrites(Simple(28));
    WalkRewrites(SimpleByte(0));
  }

  // ------------------------------------------------------------- the walk itself

  /** A Go error return. */
  datatype Result<+T> = Ok(value: T) | Err(error: Error) {
    predicate IsFailure() {
      Err?
    }

    function PropagateFailure<U>(): Result<U>
      requires Err?
    {
      Err(error)
    }

    function Extract(): T
      requires Ok?
    {
      value
    }
  }

  /**
   `n` of the `total` items that start at `start` have been walked, up to `pos`,
   and `emitted` is what they became.
  */
  ghost predicate Progress(s: seq<Byte>, start: nat, total: nat, pos: nat, n: nat, emitted: seq<Byte>) {
    && start <= pos <= |s| && n <= total
    && var whole, rest := ParseItems(s, start, total), ParseItems(s, pos, total - n);
       match rest
       case Bad(e) => whole == Bad(e)
       case Good(items, next) =>
         && whole.Good? && whole.next == next
         && EncodeAll(WidenAll(whole.value)) == emitted + EncodeAll(WidenAll(items))
  }

  lemma ProgressStarts(s: seq<Byte>, start: nat, total: nat)
    requires start <= |s|
    ensures Progress(s, start, total, start, 0, [])
  {
  }

  lemma ProgressEnds(s: seq<Byte>, start: nat, total: nat, pos: nat, emitted: seq<Byte>)
    requires Progress(s, start, total, pos, total, emitted)
    ensures var whole := ParseItems(s, start, total);
            whole.Good? && whole.next == pos && EncodeAll(WidenAll(whole.value)) == emitted
  {
  }

  lemma ProgressStep(s: seq<Byte>, start: nat, total: nat, pos: nat, n: nat, emitted: seq<Byte>, t: Item, next: nat)
    requires Progress(s, start, total, pos, n, emitted) && n < total
    requires ParseItem(s, pos) == Good(t, next)
    ensures Progress(s, start, total, next, n + 1, emitted + Encode(WidenItem(t)))
  {
    var rest := ParseItems(s, next, total - n - 1);
    if rest.Good? {
      FirstThenRest(s, pos, next, rest.next, Cons(t, rest.value), total - n - 1);
      Regroup(emitted, Encode(WidenItem(t)), EncodeAll(WidenAll(rest.value)));
    }
  }

  lemma ProgressStops(s: seq<Byte>, start: nat, total: nat, pos: nat, n: nat, emitted: seq<Byte>)
    requires Progress(s, start, total, pos, n, emitted) && n < total
    requires ParseItem(s, pos).Bad?
    ensures ParseItems(s, start, total) == Bad(ParseItem(s, pos).error)
  {
  }

  /** What walking the item at `pos` did: the error, or where it ended and what it appended. */
  ghost predicate Walked(s: seq<Byte>, pos: nat, out: seq<Byte>, r: Result<()>, pos': nat, out': seq<Byte>)
    requires pos <= |s|
  {
    match ParseItem(s, pos)
    case Bad(e) => r == Err(e)
    case Good(t, next) => r.Ok? && pos' == next && out' == out + Encode(WidenItem(t))
  }

  lemma ProgressFailed(s: seq<Byte>, start: nat, total: nat, pos: nat, n: nat, emitted: seq<Byte>,
                       before: seq<Byte>, r: Result<()>, pos': nat, out': seq<Byte>)
    requires Progress(s, start, total, pos, n, emitted) && n < total
    requires Walked(s, pos, before, r, pos', out') && r.Err?
    ensures ParseItems(s, start, total) == Bad(r.error)
  {
    assert ParseItem(s, pos) == Bad(r.error);
    ProgressStops(s, start, total, pos, n, emitted);
  }

  lemma ProgressWalked(s: seq<Byte>, start: nat, total: nat, pos: nat, n: nat, emitted: seq<Byte>,
                       before: seq<Byte>, r: Result<()>, pos': nat, out': seq<Byte>)
    returns (item: seq<Byte>)
    requires Progress(s, start, total, pos, n, emitted) && n < total
    requires Walked(s, pos, before + emitted, r, pos', out') && r.Ok?
    ensures Progress(s, start, total, pos', n + 1, emitted + item) && out' == before + (emitted + item)
  {
    var t := ParseItem(s, pos).value;
    item := Encode(WidenItem(t));
    Regroup(before, emitted, item);
    ProgressStep(s, start, total, pos, n, emitted, t, pos');
  }

  /** A narrow float's bytes, and the item they are. */
  lemma FloatAt(s: seq<Byte>, pos: nat, width: nat)
    requires 0 < pos && pos + width <= |s| && (width == 2 || width == 4)
    requires s[pos - 1] == 0xe0 + if width == 4 then 26 else 25
    ensures var encoded := s[pos - 1..pos + width];
            var bits := FromBigEndian(encoded[1..]);
            var t := Cbor.Float(width, bits);
            && t.Valid() && Encode(t) == encoded
            && ParsePrimitive(s, pos, if width == 4 then 26 else 25) == Good(t, pos + width)
  {
    var body := s[pos..pos + width];
    assert s[pos - 1..pos + width] == [s[pos - 1]] + body && s[pos - 1..pos + width][1..] == body;
    ReadBound(body);
    FromBigEndianRoundTrip(body);
  }

  /** Copies one CBOR item from `input` to `out`, head by head. */
  class FloatWidener {
    const input: seq<Byte>
    var pos: nat
    var out: seq<Byte>

    ghost predicate Valid()
      reads this
    {
      pos <= |input|
    }

    constructor (item: seq<Byte>)
      ensures Valid() && input == item && pos == 0 && out == []
    {
      input, pos, out := item, 0, [];
    }

    method Next() returns (r: Result<Byte>)
      requires Valid()
      modifies `pos
      ensures Valid()
      ensures old(pos) == |input| ==> r == Err(Truncated)
      ensures old(pos) < |input| ==> r == Ok(input[old(pos)]) && pos == old(pos) + 1
    {
      if pos >= |input| {
        return Err(Truncated);
      }
      r := Ok(input[pos]);
      pos := pos + 1;
    }

    method Copy(n: nat) returns (r: Result<()>)
      requires Valid()
      modifies `pos, `out
      ensures Valid()
      ensures |input| - old(pos) < n ==> r == Err(Truncated)
      ensures n <= |input| - old(pos) ==>
                r.Ok? && pos == old(pos) + n && out == old(out) + input[old(pos)..pos]
    {
      if n > |input| - pos {
        return Err(Truncated);
      }
      out := out + input[pos..pos + n];
      pos := pos + n;
      r := Ok(());
    }

    method Skip(n: nat) returns (r: Result<()>)
      requires Valid()
      modifies `pos
      ensures Valid()
      ensures |input| - old(pos) < n ==> r == Err(Truncated)
      ensures n <= |input| - old(pos) ==> r.Ok? && pos == old(pos) + n
    {
      if n > |input| - pos {
        return Err(Truncated);
      }
      pos := pos + n;
      r := Ok(());
    }

    /** The accumulator is a 64-bit word; eight bytes cannot overflow it. */
    method Argument(width: nat) returns (r: Result<nat>)
      requires Valid() && (width == 1 || width == 2 || width == 4 || width == 8)
      modifies `pos, `out
      ensures Valid()
      ensures |input| - old(pos) < width ==> r == Err(Truncated)
      ensures width <= |input| - old(pos) ==>
                && pos == old(pos) + width
                && r == Ok(FromBigEndian(input[old(pos)..pos]))
                && out == old(out) + input[old(pos)..pos]
    {
      var start := pos;
      var _ :- Copy(width);
      var argument: nat := 0;
      var end := pos;
      for i := start to end
        invariant argument == FromBigEndian(input[start..i])
        modifies {}
      {
        argument := (argument * 256 + input[i]) % 0x1_0000_0000_0000_0000;
        FromBigEndianStep(input, start, i);
        ShortNumber(input[start..i + 1]);
      }
      r := Ok(argument);
    }

    /** Copies the initial byte and the argument behind it, and reports the argument. */
    method Head(initial: Byte, info: nat) returns (r: Result<nat>)
      requires Valid() && info < 32
      modifies `pos, `out
      ensures Valid()
      ensures match ParseArg(input, old(pos), info)
              case Bad(e) => r == Err(e)
              case Good(arg, next) =>
                r == Ok(arg.value) && pos == next && out == old(out) + ([initial] + ArgBytes(arg))
    {
      out := out + [initial];
      if info < 24 {
        r := Ok(info);
      } else if info == 24 {
        r := Argument(1);
      } else if info == 25 {
        r := Argument(2);
      } else if info == 26 {
        r := Argument(4);
      } else if info == 27 {
        r := Argument(8);
      } else if info == 31 {
        r := Err(Indefinite);
      } else {
        r := Err(Reserved(info));
      }
      ghost var a := ParseArg(input, old(pos), info);
      if a.Good? && a.value.width > 0 {
        FromBigEndianRoundTrip(input[old(pos)..a.next]);
      }
    }

    /** One item of major type 7, of which only narrow floats change. */
    method Primitive(initial: Byte, info: nat) returns (r: Result<()>)
      requires Valid() && info < 32 && initial == 0xe0 + info
      requires 0 < pos && input[pos - 1] == initial
      modifies `pos, `out
      ensures Valid()
      ensures match ParsePrimitive(input, old(pos), info)
              case Bad(e) => r == Err(e)
              case Good(t, next) => r.Ok? && pos == next && out == old(out) + Encode(WidenItem(t))
    {
      if info == 25 || info == 26 {
        r := Float(info);
      } else if info == 27 {
        out := out + [initial];
        r := Copy(8);
        if r.Ok? {
          FromBigEndianRoundTrip(input[old(pos)..pos]);
        }
      } else if info == 24 {
        out := out + [initial];
        r := Copy(1);
      } else if info == 31 {
        r := Err(StrayBreak);
      } else {
        out := out + [initial];
        r := Ok(());
      }
    }

    /** Rewrites a 16- or 32-bit float as a 64-bit one, unless it is not finite. */
    method Float(info: nat) returns (r: Result<()>)
      requires Valid() && 25 <= info <= 26
      requires 0 < pos && input[pos - 1] == 0xe0 + info
      modifies `pos, `out
      ensures Valid()
      ensures match ParsePrimitive(input, old(pos), info)
              case Bad(e) => r == Err(e)
              case Good(t, next) => r.Ok? && pos == next && out == old(out) + Encode(WidenItem(t))
    {
      var width := if info == 26 then 4 else 2;
      var head := pos - 1;
      var _ :- Skip(width);
      var encoded := input[head..pos];
      FloatAt(input, old(pos), width);
      var bits := FromBigEndian(encoded[1..]);
      if !Finite(FormatOf(width), bits) {
        out := out + encoded;
        return Ok(());
      }
      assert WidenItem(Cbor.Float(width, bits)) == Cbor.Float(8, WideBits(width, bits));
      out := out + ([0xfb] + BigEndian(WideBits(width, bits), 8));
      r := Ok(());
    }

    method Item() returns (r: Result<()>)
      requires Valid()
      modifies `pos, `out
      ensures Valid()
      ensures Walked(input, old(pos), old(out), r, pos, out)
      decreases |input| - pos, 0
    {
      var initial :- Next();
      var major, info := initial / 32, initial % 32;
      if major == 7 {
        r := Primitive(initial, info);
        return;
      }
      r := Headed(initial);
    }

    /** A head of major type below 7 and all that belongs to it. */
    method Headed(initial: Byte) returns (r: Result<()>)
      requires Valid() && 0 < pos && input[pos - 1] == initial && initial / 32 < 7
      modifies `pos, `out
      ensures Valid()
      ensures Walked(input, old(pos) - 1, old(out), r, pos, out)
      decreases |input| - pos, 4
    {
      var major, info := initial / 32, initial % 32;
      ghost var a := ParseArg(input, pos, info);
      var count :- Head(initial, info);
      assert out == old(out) + EncodeHead(major, a.value);
      ghost var b := ParseBody(input, pos, major, a.value);
      assert ParseItem(input, old(pos) - 1) == b;
      r := Body(major, count, a.value);
      if r.Err? {
        return;
      }
      WidenKeepsHead(b.value, old(out));
    }

    /** What follows a head: nothing, a string, the items of a container, or a tagged item. */
    method Body(major: nat, count: nat, ghost arg: Arg) returns (r: Result<()>)
      requires Valid() && major < 7 && arg.Valid() && count == arg.value
      modifies `pos, `out
      ensures Valid()
      ensures match ParseBody(input, old(pos), major, arg)
              case Bad(e) => r == Err(e)
              case Good(t, next) => r.Ok? && pos == next && out == old(out) + EncodeBody(WidenItem(t))
      decreases |input| - pos, 3
    {
      if major <= 1 {
        r := Ok(());
      } else if major <= 3 {
        r := Copy(count);
      } else if major <= 5 {
        r := Items(count, if major == 5 then 2 else 1, major);
      } else {
        r := Item();
      }
    }

    /** The two counting loops of a container, so that no product of counts is ever formed. */
    method Items(count: nat, entries: nat, ghost major: nat) returns (r: Result<()>)
      requires Valid() && entries == (if major == 5 then 2 else 1)
      modifies `pos, `out
      ensures Valid()
      ensures match ParseItems(input, old(pos), Total(major, count))
              case Bad(e) => r == Err(e)
              case Good(items, next) => r.Ok? && pos == next && out == old(out) + EncodeAll(WidenAll(items))
      decreases |input| - pos, 2
    {
      ghost var start, total, n := pos, Total(major, count), 0;
      ghost var emitted: seq<Byte> := [];
      ProgressStarts(input, start, total);
      var i := 0;
      while i < count
        invariant 0 <= i <= count && n == Total(major, i)
        invariant Progress(input, start, total, pos, n, emitted)
        invariant out == old(out) + emitted
      {
        var entry := 0;
        while entry < entries
          invariant 0 <= entry <= entries && n == Total(major, i) + entry
          invariant Progress(input, start, total, pos, n, emitted)
          invariant out == old(out) + emitted
        {
          r, emitted := NextItem(start, total, n, emitted, old(out));
          if r.Err? {
            return;
          }
          n := n + 1;
          entry := entry + 1;
        }
        i := i + 1;
      }
      ProgressEnds(input, start, total, pos, emitted);
      r := Ok(());
    }

    /** One more item of a container. */
    method NextItem(ghost start: nat, ghost total: nat, ghost n: nat, ghost emitted: seq<Byte>, ghost before: seq<Byte>)
      returns (r: Result<()>, ghost emitted': seq<Byte>)
      requires Valid() && n < total && Progress(input, start, total, pos, n, emitted)
      requires out == before + emitted
      modifies `pos, `out
      ensures Valid()
      ensures r.Err? ==> ParseItems(input, start, total) == Bad(r.error)
      ensures r.Ok? ==> Progress(input, start, total, pos, n + 1, emitted') && out == before + emitted'
      decreases |input| - pos, 1
    {
      r := Item();
      if r.Err? {
        ProgressFailed(input, start, total, old(pos), n, emitted, old(out), r, pos, out);
        emitted' := emitted;
      } else {
        ghost var item := ProgressWalked(input, start, total, old(pos), n, emitted, before, r, pos, out);
        emitted' := emitted + item;
      }
    }
  }

  lemma WidenKeepsHead(t: Item, before: seq<Byte>)
    requires t.Valid() && Cbor.Headed(t)
    ensures Cbor.Headed(WidenItem(t))
    ensures before + EncodeHead(Major(t), t.arg) + EncodeBody(WidenItem(t)) == before + Encode(WidenItem(t))
  {
    var w := WidenItem(t);
    assert Encode(w) == EncodeHead(Major(t), t.arg) + EncodeBody(w);
  }

  lemma ShortNumber(s: seq<Byte>)
    requires |s| <= 8
    ensures FromBigEndian(s) < 0x1_0000_0000_0000_0000
  {
    LeadingBound(s, |s|);
    CapacityIsLimit(8);
    LimitMonotone(|s|, 8);
  }

  lemma {:induction false} LimitMonotone(a: nat, b: nat)
    requires a <= b
    ensures Limit(a) <= Limit(b)
    decreases b
  {
    if a < b {
      LimitMonotone(a, b - 1);
    }
  }

  /** The whole pass: the shortcut, the walk, and the check that nothing trails the item. */
  method WidenNarrowFloats(item: seq<Byte>) returns (r: Outcome)
    ensures r == WidenBytes(item)
  {
    if 0xf9 !in item && 0xfa !in item {
      return Accepted(item);
    }
    var w := new FloatWidener(item);
    var walked := w.Item();
    if walked.Err? {
      return Refused(walked.error);
    }
    if w.pos != |w.input| {
      return Trailing(|w.input| - w.pos);
    }
    r := Accepted(w.out);
  }

}
