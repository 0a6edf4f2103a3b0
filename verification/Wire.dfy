/**
 The call envelope (sdks/go/wire.go): a tag byte, then a two-element CBOR array
 of the positional and the keyword arguments.

 A Go value enters as what `encMode.Marshal` makes of it, a definite-length item
 or a failure, because how that library reflects over a value is not modelled.
*/
module Wire {
  import opened Bytes
  import opened Cbor
  import opened FloatWidth
  import opened Ordering
  import opened Seqs
  import Utf8

  const TAG_CBOR: Byte := 0x02
  const WORD := 0x1_0000_0000_0000_0000

  type Key = k: seq<Byte> | |k| < WORD

  datatype GoValue = Encodable(item: Item) | Unencodable {
    predicate Valid() {
      Encodable? ==> item.Valid()
    }
  }

  /** Shortest-form head arguments (section 4.2.1 of RFC 8949). */
  function Shortest(n: nat): (a: Arg)
    requires n < WORD
    ensures a.Valid() && a.value == n
  {
    if n < 24 then Arg(0, n)
    else if n < 0x100 then Arg(1, n)
    else if n < 0x1_0000 then Arg(2, n)
    else if n < 0x1_0000_0000 then Arg(4, n)
    else Arg(8, n)
  }

  function Text(k: Key): (t: Item)
    ensures t.Valid() && WidenItem(t) == t
  {
    Str(3, Shortest(|k|), k)
  }

  // ------------------------------------------------------------ the key order

  /** Bytewise lexical order: the first difference decides, and a proper prefix comes first. */
  predicate LexLess(a: seq<Byte>, b: seq<Byte>) {
    b != [] && (a == [] || a[0] < b[0] || (a[0] == b[0] && LexLess(a[1..], b[1..])))
  }

  /** The core-deterministic order of map keys: by encoded bytes. */
  predicate KeyLess(a: Key, b: Key) {
    LexLess(Encode(Text(a)), Encode(Text(b)))
  }

  lemma {:induction false} LexTotal(a: seq<Byte>, b: seq<Byte>)
    ensures a == b || LexLess(a, b) || LexLess(b, a)
    ensures !(LexLess(a, b) && LexLess(b, a)) && !LexLess(a, a)
    decreases |a|
  {
    if a != [] {
      LexTotal(a[1..], a[1..]);
      if b != [] {
        LexTotal(a[1..], b[1..]);
        assert a == [a[0]] + a[1..] && b == [b[0]] + b[1..];
      }
    }
  }

  lemma {:induction false} LexTransitive(a: seq<Byte>, b: seq<Byte>, c: seq<Byte>)
    requires LexLess(a, b) && LexLess(b, c)
    ensures LexLess(a, c)
    decreases |a|
  {
    if a != [] && a[0] == b[0] == c[0] {
      LexTransitive(a[1..], b[1..], c[1..]);
    }
  }

  lemma {:induction false} LexPrefix(p: seq<Byte>, a: seq<Byte>, b: seq<Byte>)
    ensures LexLess(p + a, p + b) <==> LexLess(a, b)
    decreases |p|
  {
    if p == [] {
      assert p + a == a && p + b == b;
    } else {
      assert (p + a)[1..] == p[1..] + a && (p + b)[1..] == p[1..] + b;
      LexPrefix(p[1..], a, b);
    }
  }

  /** A difference inside equally long prefixes decides, whatever follows. */
  lemma {:induction false} LexDecided(p: seq<Byte>, q: seq<Byte>, a: seq<Byte>, b: seq<Byte>)
    requires |p| == |q| && LexLess(p, q)
    ensures LexLess(p + a, q + b)
    decreases |p|
  {
    if p[0] == q[0] {
      assert (p + a)[1..] == p[1..] + a && (q + b)[1..] == q[1..] + b;
      LexDecided(p[1..], q[1..], a, b);
    }
  }

  lemma BigEndianSplit(n: nat, width: nat)
    requires width > 0
    ensures BigEndian(n, width) == BigEndian(n / 256, width - 1) + [n % 256]
  {
    var s, t := BigEndian(n, width), BigEndian(n / 256, width - 1) + [n % 256];
    forall i | 0 <= i < width ensures s[i] == t[i] {
      if i < width - 1 {
        assert ByteOf(n, width - 1 - i) == ByteOf(n / 256, width - 2 - i);
      }
    }
  }

  lemma {:induction false} BigEndianOrder(n: nat, m: nat, width: nat)
    requires n < m < Limit(width)
    ensures LexLess(BigEndian(n, width), BigEndian(m, width))
  {
    if width > 0 {
      BigEndianSplit(n, width);
      BigEndianSplit(m, width);
      var p, q := BigEndian(n / 256, width - 1), BigEndian(m / 256, width - 1);
      if n / 256 < m / 256 {
        BigEndianOrder(n / 256, m / 256, width - 1);
        LexDecided(p, q, [n % 256], [m % 256]);
      } else {
        LexPrefix(p, [n % 256], [m % 256]);
      }
    }
  }

  /** Shortest-form heads sort by the length they spell. */
  lemma HeadOrder(n: nat, m: nat, a: seq<Byte>, b: seq<Byte>)
    requires n < m < WORD
    ensures LexLess(EncodeHead(3, Shortest(n)) + a, EncodeHead(3, Shortest(m)) + b)
  {
    var x, y := Shortest(n), Shortest(m);
    var p, q := EncodeHead(3, x) + a, EncodeHead(3, y) + b;
    assert p[0] == 0x60 + Info(x) && q[0] == 0x60 + Info(y);
    if Info(x) == Info(y) {
      CapacityIsLimit(x.width);
      BigEndianOrder(n, m, x.width);
      LexDecided(ArgBytes(x), ArgBytes(y), a, b);
      assert p[1..] == ArgBytes(x) + a && q[1..] == ArgBytes(y) + b;
    }
  }

  lemma KeyShorter(a: Key, b: Key)
    requires |a| < |b|
    ensures KeyLess(a, b)
  {
    HeadOrder(|a|, |b|, a, b);
    assert Encode(Text(a)) == EncodeHead(3, Shortest(|a|)) + a;
    assert Encode(Text(b)) == EncodeHead(3, Shortest(|b|)) + b;
  }

  lemma KeySameLength(a: Key, b: Key)
    requires |a| == |b|
    ensures KeyLess(a, b) <==> LexLess(a, b)
  {
    var head := EncodeHead(3, Shortest(|a|));
    LexPrefix(head, a, b);
    assert Encode(Text(a)) == head + a;
    assert Encode(Text(b)) == head + b;
  }

  lemma KeyTotal(a: Key, b: Key)
    ensures a == b || KeyLess(a, b) || KeyLess(b, a)
    ensures !(KeyLess(a, b) && KeyLess(b, a)) && !KeyLess(a, a)
  {
    LexTotal(Encode(Text(a)), Encode(Text(b)));
    LexTotal(Encode(Text(a)), Encode(Text(a)));
    if Encode(Text(a)) == Encode(Text(b)) {
      EncodeInjective(Text(a), Text(b));
    }
  }

  /** Shorter keys come first; keys of one length are in bytewise order. */
  lemma KeyOrder(a: Key, b: Key)
    ensures KeyLess(a, b) <==> |a| < |b| || (|a| == |b| && LexLess(a, b))
  {
    if |a| < |b| {
      KeyShorter(a, b);
    } else if |b| < |a| {
      KeyShorter(b, a);
      KeyTotal(a, b);
    } else {
      KeySameLength(a, b);
    }
  }

  lemma KeyLessIsTotal()
    ensures StrictTotal(KeyLess)
  {
    forall a: Key, b: Key
      ensures !KeyLess(a, a) && (a == b || KeyLess(a, b) || KeyLess(b, a))
    {
      KeyTotal(a, b);
    }
    forall a: Key, b: Key, c: Key | KeyLess(a, b) && KeyLess(b, c)
      ensures KeyLess(a, c)
    {
      LexTransitive(Encode(Text(a)), Encode(Text(b)), Encode(Text(c)));
    }
  }

  // ----------------------------------------------------------------- encoding

  datatype EncodeError = ArgsNotEncodable | KwargsNotEncodable | NotWidened(outcome: Outcome)

  datatype Encoded = EncodeOk(bytes: seq<Byte>) | EncodeErr(error: EncodeError)

  predicate ArgsValid(args: seq<GoValue>) {
    |args| < WORD && forall i :: 0 <= i < |args| ==> args[i].Valid()
  }

  predicate KwargsValid(kwargs: map<Key, GoValue>) {
    |kwargs| < WORD && forall k :: k in kwargs ==> kwargs[k].Valid()
  }

  predicate AllEncodable(args: seq<GoValue>) {
    forall i :: 0 <= i < |args| ==> args[i].Encodable?
  }

  function ItemsOf(args: seq<GoValue>): (items: Items)
    requires AllEncodable(args) && forall i :: 0 <= i < |args| ==> args[i].Valid()
    ensures items.Valid() && items.Length() == |args|
  {
    if args == [] then Nil
    else
      assert args[0].Valid();
      Cons(args[0].item, ItemsOf(args[1..]))
  }

  function ArgsItem(args: seq<GoValue>): (t: Item)
    requires ArgsValid(args) && AllEncodable(args)
    ensures t.Valid()
  {
    Coll(4, Shortest(|args|), ItemsOf(args))
  }

  /** A value as it appears in a payload: floats already widened. */
  function Payload(v: GoValue): (t: Item)
    requires v.Encodable? && v.Valid()
    ensures t.Valid() && WidenItem(t) == t
  {
    WidenNormalizes(v.item);
    WidenNormalizes(WidenItem(v.item));
    WidenItem(v.item)
  }

  predicate Has(kwargs: map<Key, GoValue>, key: Key) {
    key in kwargs && kwargs[key].Encodable? && kwargs[key].Valid()
  }

  predicate HasAll(kwargs: map<Key, GoValue>, keys: seq<Key>) {
    forall i :: 0 <= i < |keys| ==> Has(kwargs, keys[i])
  }

  /** The keyword map's items, key and value in turn, for the keys in the given order. */
  function Pairs(kwargs: map<Key, GoValue>, keys: seq<Key>): (items: Items)
    requires HasAll(kwargs, keys)
    ensures items.Valid() && items.Length() == 2 * |keys|
  {
    if keys == [] then Nil
    else Cons(Text(keys[0]), Cons(Payload(kwargs[keys[0]]), Pairs(kwargs, keys[1..])))
  }

  function KwargsItem(kwargs: map<Key, GoValue>, keys: seq<Key>): (t: Item)
    requires HasAll(kwargs, keys) && |keys| < WORD
    ensures t.Valid()
  {
    Coll(5, Shortest(|keys|), Pairs(kwargs, keys))
  }

  /** The body of a call: a two-element array of the arguments and the sorted keyword map. */
  function CallItem(args: seq<GoValue>, kwargs: map<Key, GoValue>, keys: seq<Key>): (t: Item)
    requires ArgsValid(args) && AllEncodable(args) && HasAll(kwargs, keys) && |keys| < WORD
    ensures t.Valid()
  {
    var last := Cons(KwargsItem(kwargs, keys), Nil);
    assert last.Valid() && last.rest.Length() == 0;
    Coll(4, Arg(0, 2), Cons(WidenItem(ArgsItem(args)), last))
  }

  /** The payload a call becomes, given its keyword keys in order. */
  predicate IsPayload(r: Encoded, args: seq<GoValue>, kwargs: map<Key, GoValue>, keys: seq<Key>)
    requires ArgsValid(args) && KwargsValid(kwargs)
  {
    if !AllEncodable(args) then r == EncodeErr(ArgsNotEncodable)
    else if exists k :: k in kwargs && kwargs[k].Unencodable? then r == EncodeErr(KwargsNotEncodable)
    else
      && Lists(keys, kwargs.Keys, KeyLess) && HasAll(kwargs, keys) && |keys| < WORD
      && r == EncodeOk([TAG_CBOR] + Encode(CallItem(args, kwargs, keys)))
  }

  /** One call has one payload, however its keyword map is walked. */
  lemma PayloadUnique(r: Encoded, s: Encoded, args: seq<GoValue>, kwargs: map<Key, GoValue>, xs: seq<Key>, ys: seq<Key>)
    requires ArgsValid(args) && KwargsValid(kwargs)
    requires IsPayload(r, args, kwargs, xs) && IsPayload(s, args, kwargs, ys)
    ensures r == s
  {
    if AllEncodable(args) && forall k :: k in kwargs ==> kwargs[k].Encodable? {
      KeyLessIsTotal();
      ListingUnique(xs, ys, kwargs.Keys, KeyLess);
    }
  }

  /** Widening one marshalled value, which never fails. */
  method WidenMarshalled(t: Item) returns (r: Outcome)
    requires t.Valid()
    ensures r == Accepted(Encode(WidenItem(t)))
  {
    r := WidenNarrowFloats(Encode(t));
    WidenBytesCorrect(t);
  }

  predicate Agrees(encoded: map<Key, seq<Byte>>, kwargs: map<Key, GoValue>) {
    forall k :: k in encoded ==> Has(kwargs, k) && encoded[k] == Encode(Payload(kwargs[k]))
  }

  /** Marshals and widens every value, walking the map in whatever order the runtime picks. */
  method WidenValues(kwargs: map<Key, GoValue>) returns (ok: bool, encoded: map<Key, seq<Byte>>)
    requires KwargsValid(kwargs)
    ensures !ok ==> exists k :: k in kwargs && kwargs[k].Unencodable?
    ensures ok ==> encoded.Keys == kwargs.Keys && Agrees(encoded, kwargs)
  {
    var rest := kwargs.Keys;
    encoded := map[];
    while rest != {}
      invariant rest <= kwargs.Keys && encoded.Keys == kwargs.Keys - rest
      invariant Agrees(encoded, kwargs)
      decreases rest
    {
      var key :| key in rest;
      if kwargs[key].Unencodable? {
        return false, encoded;
      }
      var widened := WidenMarshalled(kwargs[key].item);
      encoded := encoded[key := widened.bytes];
      rest := rest - {key};
    }
    ok := true;
  }

  /** One byte string for the keyword arguments, in whatever order their map is walked. */
  method EncodeKwargs(kwargs: map<Key, GoValue>) returns (r: Encoded, ghost keys: seq<Key>)
    requires KwargsValid(kwargs)
    ensures r.EncodeErr? ==>
              r.error == KwargsNotEncodable && exists k :: k in kwargs && kwargs[k].Unencodable?
    ensures r.EncodeOk? ==>
              && (forall k :: k in kwargs ==> Has(kwargs, k))
              && Lists(keys, kwargs.Keys, KeyLess) && HasAll(kwargs, keys) && |keys| == |kwargs|
              && r.bytes == Encode(KwargsItem(kwargs, keys))
  {
    var ok, encoded := WidenValues(kwargs);
    if !ok {
      return EncodeErr(KwargsNotEncodable), [];
    }
    assert |encoded| == |encoded.Keys| == |kwargs|;
    forall k | k in kwargs ensures Has(kwargs, k) {
      assert k in encoded;
    }
    var body;
    body, keys := MarshalSorted(encoded, kwargs);
    r := EncodeOk(body);
  }

  /** `kwargsMode.Marshal`: the entries of a map in the core-deterministic order of their keys. */
  method MarshalSorted(encoded: map<Key, seq<Byte>>, ghost kwargs: map<Key, GoValue>)
    returns (body: seq<Byte>, ghost keys: seq<Key>)
    requires Agrees(encoded, kwargs) && |encoded| < WORD
    ensures Lists(keys, encoded.Keys, KeyLess) && HasAll(kwargs, keys) && |keys| == |encoded|
    ensures body == Encode(KwargsItem(kwargs, keys))
  {
    KeyLessIsTotal();
    var sorted := Sort(encoded.Keys, KeyLess);
    keys := sorted;
    ListedKeys(encoded, keys);
    var entries := MarshalEntries(encoded, sorted);
    EntriesArePairs(encoded, kwargs, keys);
    MapEncodes(kwargs, keys, entries);
    body := EncodeHead(5, Shortest(|encoded|)) + entries;
  }

  lemma ListedKeys(encoded: map<Key, seq<Byte>>, keys: seq<Key>)
    requires ElementsOf(keys) == encoded.Keys
    ensures AllIn(keys, encoded)
  {
    forall i | 0 <= i < |keys| ensures keys[i] in encoded {
      assert keys[i] in ElementsOf(keys);
    }
  }

  lemma MapEncodes(kwargs: map<Key, GoValue>, keys: seq<Key>, entries: seq<Byte>)
    requires HasAll(kwargs, keys) && |keys| < WORD && entries == EncodeAll(Pairs(kwargs, keys))
    ensures Encode(KwargsItem(kwargs, keys)) == EncodeHead(5, Shortest(|keys|)) + entries
  {
  }

  predicate AllIn(keys: seq<Key>, encoded: map<Key, seq<Byte>>) {
    forall i :: 0 <= i < |keys| ==> keys[i] in encoded
  }

  function Entries(encoded: map<Key, seq<Byte>>, keys: seq<Key>): seq<Byte>
    requires AllIn(keys, encoded)
  {
    if keys == [] then []
    else
      var last := keys[|keys| - 1];
      Entries(encoded, keys[..|keys| - 1]) + (Encode(Text(last)) + encoded[last])
  }

  method MarshalEntries(encoded: map<Key, seq<Byte>>, keys: seq<Key>) returns (entries: seq<Byte>)
    requires AllIn(keys, encoded)
    ensures entries == Entries(encoded, keys)
  {
    entries := [];
    for n := 0 to |keys|
      invariant entries == Entries(encoded, keys[..n])
    {
      entries := entries + (Encode(Text(keys[n])) + encoded[keys[n]]);
      assert keys[..n + 1][..n] == keys[..n];
    }
    assert keys[..|keys|] == keys;
  }

  lemma {:induction false} EntriesArePairs(encoded: map<Key, seq<Byte>>, kwargs: map<Key, GoValue>, keys: seq<Key>)
    requires AllIn(keys, encoded) && Agrees(encoded, kwargs)
    ensures HasAll(kwargs, keys) && Entries(encoded, keys) == EncodeAll(Pairs(kwargs, keys))
    decreases |keys|
  {
    if keys != [] {
      var front, last := keys[..|keys| - 1], keys[|keys| - 1];
      EntriesArePairs(encoded, kwargs, front);
      assert Encode(Text(last)) + encoded[last] == Entry(kwargs, last);
      PairsSnoc(kwargs, front, last);
      assert keys == front + [last];
    }
  }

  /** One entry of the keyword map: the key and the widened value. */
  function Entry(kwargs: map<Key, GoValue>, key: Key): seq<Byte>
    requires Has(kwargs, key)
  {
    Encode(Text(key)) + Encode(Payload(kwargs[key]))
  }

  lemma {:induction false} PairsSnoc(kwargs: map<Key, GoValue>, keys: seq<Key>, key: Key)
    requires HasAll(kwargs, keys) && Has(kwargs, key)
    ensures HasAll(kwargs, keys + [key])
    ensures EncodeAll(Pairs(kwargs, keys + [key])) == EncodeAll(Pairs(kwargs, keys)) + Entry(kwargs, key)
    decreases |keys|
  {
    var all := keys + [key];
    PairsFront(kwargs, all);
    if keys != [] {
      PairsSnoc(kwargs, keys[1..], key);
      assert all[1..] == keys[1..] + [key];
      PairsFront(kwargs, keys);
      Regroup(Entry(kwargs, keys[0]), EncodeAll(Pairs(kwargs, keys[1..])), Entry(kwargs, key));
    }
  }

  lemma PairsFront(kwargs: map<Key, GoValue>, keys: seq<Key>)
    requires HasAll(kwargs, keys) && keys != []
    ensures EncodeAll(Pairs(kwargs, keys)) == Entry(kwargs, keys[0]) + EncodeAll(Pairs(kwargs, keys[1..]))
  {
    var rest := Pairs(kwargs, keys[1..]);
    var tail := Cons(Payload(kwargs[keys[0]]), rest);
    assert EncodeAll(tail) == Encode(tail.first) + EncodeAll(rest);
    Regroup(Encode(Text(keys[0])), Encode(tail.first), EncodeAll(rest));
  }

  /** The payload of a call; by `PayloadUnique` there is only one. */
  method EncodeCall(args: seq<GoValue>, kwargs: map<Key, GoValue>) returns (r: Encoded)
    requires ArgsValid(args) && KwargsValid(kwargs)
    ensures exists keys :: IsPayload(r, args, kwargs, keys)
  {
    if i :| 0 <= i < |args| && args[i].Unencodable? {
      assert IsPayload(EncodeErr(ArgsNotEncodable), args, kwargs, []);
      return EncodeErr(ArgsNotEncodable);
    }
    var encodedArgs := WidenMarshalled(ArgsItem(args));
    if !encodedArgs.Accepted? {
      return EncodeErr(NotWidened(encodedArgs));
    }
    var encodedKwargs, keys := EncodeKwargs(kwargs);
    if encodedKwargs.EncodeErr? {
      assert IsPayload(encodedKwargs, args, kwargs, []);
      return encodedKwargs;
    }
    var body := [0x82] + (encodedArgs.bytes + encodedKwargs.bytes);
    TwoHalves(WidenItem(ArgsItem(args)), KwargsItem(kwargs, keys));
    r := EncodeOk([TAG_CBOR] + body);
    assert IsPayload(r, args, kwargs, keys);
  }

  lemma TwoHalves(a: Item, b: Item)
    requires a.Valid() && b.Valid()
    ensures var t := Coll(4, Arg(0, 2), Cons(a, Cons(b, Nil)));
            t.Valid() && Encode(t) == [0x82] + (Encode(a) + Encode(b))
  {
    var last := Cons(b, Nil);
    assert EncodeAll(last) == Encode(b) + EncodeAll(Nil) == Encode(b);
    assert last.Length() == 1;
    assert EncodeAll(Cons(a, last)) == Encode(a) + EncodeAll(last);
    assert EncodeHead(4, Arg(0, 2)) == [0x82];
  }

  // ----------------------------------------------------------------- decoding

  datatype DecodeError =
    | EmptyPayload
    | UnsupportedTag(tag: Byte)
    | BadBody
    | NotTwoElements(count: nat)
    | BadArgs
    | BadKwargs

  datatype Decoded<T> = DecodeOk(value: T) | DecodeErr(error: DecodeError) {
    predicate IsFailure() {
      DecodeErr?
    }

    function PropagateFailure<U>(): Decoded<U>
      requires DecodeErr?
    {
      DecodeErr(error)
    }

    function Extract(): T
      requires DecodeOk?
    {
      value
    }
  }

  datatype Call = Call(args: Values, kwargs: map<Key, Value>)

  /** The body behind the tag, which must be the one for CBOR. */
  function Unwrap(payload: seq<Byte>): Decoded<seq<Byte>> {
    if payload == [] then DecodeErr(EmptyPayload)
    else if payload[0] != TAG_CBOR then DecodeErr(UnsupportedTag(payload[0]))
    else DecodeOk(payload[1..])
  }

  /** A nil slice or map, which decodes as an empty one. */
  predicate Absent(t: Item) {
    t == Simple(22) || t == Simple(23)
  }

  /** The two raw halves of a call body. */
  function Halves(payload: seq<Byte>): (r: Decoded<(Item, Item)>)
    ensures r.DecodeOk? ==> r.value.0.Valid() && r.value.1.Valid()
  {
    var body :- Unwrap(payload);
    match ParseItem(body, 0)
    case Bad(_) => DecodeErr(BadBody)
    case Good(t, next) =>
      if next != |body| || !t.WellFormed() then DecodeErr(BadBody)
      else if Absent(t) then DecodeErr(NotTwoElements(0))
      else if !t.Coll? || t.major != 4 then DecodeErr(BadBody)
      else
        match t.items
        case Cons(first, Cons(second, Nil)) =>
          assert t.items.Valid() && t.items.rest.Valid();
          DecodeOk((first, second))
        case _ => DecodeErr(NotTwoElements(t.items.Length()))
  }

  /** What the decoder can turn into a Go value: text is UTF-8, and a map is keyed by text. */
  predicate Decodable(t: Item) {
    match t
    case Str(major, _, body) => major == 3 ==> Utf8.WellFormed(body)
    case Coll(major, _, items) => AllDecodable(items) && (major == 5 ==> KeyedByText(items))
    case Tag(_, item) => Decodable(item)
    case _ => true
  }

  predicate AllDecodable(items: Items) {
    match items
    case Nil => true
    case Cons(first, rest) => Decodable(first) && AllDecodable(rest)
  }

  predicate KeyedByText(items: Items) {
    items.Nil? || (items.first.Str? && items.first.major == 3 && items.rest.Cons? && KeyedByText(items.rest.rest))
  }

  /** The entries of a map, a repeated key keeping its last value. */
  function DecodeEntries(items: Items, seen: map<Key, Value>): map<Key, Value>
    requires items.Valid() && KeyedByText(items)
  {
    if items.Nil? then seen
    else
      var key, value := items.first, items.rest.first;
      assert key.Valid() && items.rest.Valid() && value.Valid();
      DecodeEntries(items.rest.rest, seen[key.body := Meaning(value)])
  }

  function DecodeArgs(t: Item): Decoded<Values>
    requires t.Valid()
  {
    if Absent(t) then DecodeOk(NoValue)
    else if t.Coll? && t.major == 4 && Decodable(t) then DecodeOk(Meanings(t.items))
    else DecodeErr(BadArgs)
  }

  function DecodeKwargs(t: Item): Decoded<map<Key, Value>>
    requires t.Valid()
  {
    if Absent(t) then DecodeOk(map[])
    else if t.Coll? && t.major == 5 && Decodable(t) then DecodeOk(DecodeEntries(t.items, map[]))
    else DecodeErr(BadKwargs)
  }

  function DecodeCall(payload: seq<Byte>): Decoded<Call> {
    var (first, second) :- Halves(payload);
    var args :- DecodeArgs(first);
    var kwargs :- DecodeKwargs(second);
    DecodeOk(Call(args, kwargs))
  }

  // ------------------------------------------------------------- the round trip

  /** What a marshaller is trusted for: the items it writes are well-formed. */
  predicate WellFormedCall(args: seq<GoValue>, kwargs: map<Key, GoValue>) {
    && ArgsValid(args) && KwargsValid(kwargs) && AllEncodable(args)
    && (forall i :: 0 <= i < |args| ==> args[i].item.WellFormed())
    && (forall k :: k in kwargs ==> kwargs[k].Encodable? && kwargs[k].item.WellFormed())
  }

  lemma {:induction false} WidenKeepsDecodable(t: Item)
    requires t.Valid()
    ensures Decodable(WidenItem(t)) <==> Decodable(t)
  {
    match t
    case Coll(_, _, items) => WidenAllKeepsDecodable(items);
    case Tag(_, item) => WidenKeepsDecodable(item);
    case _ =>
  }

  lemma {:induction false} WidenAllKeepsDecodable(items: Items)
    requires items.Valid()
    ensures AllDecodable(WidenAll(items)) <==> AllDecodable(items)
    ensures KeyedByText(WidenAll(items)) <==> KeyedByText(items)
  {
    if items.Cons? {
      WidenKeepsDecodable(items.first);
      WidenAllKeepsDecodable(items.rest);
      if items.rest.Cons? {
        WidenAllKeepsDecodable(items.rest.rest);
      }
    }
  }

  lemma {:induction false} ItemsOfWellFormed(args: seq<GoValue>)
    requires AllEncodable(args) && forall i :: 0 <= i < |args| ==> args[i].Valid() && args[i].item.WellFormed()
    ensures ItemsOf(args).WellFormed()
    ensures AllDecodable(ItemsOf(args)) <==> forall i :: 0 <= i < |args| ==> Decodable(args[i].item)
  {
    if args != [] {
      ItemsOfWellFormed(args[1..]);
      assert args[0].item.WellFormed();
      assert forall i :: 0 < i < |args| ==> args[i] == args[1..][i - 1];
    }
  }

  lemma {:induction false} PairsWellFormed(kwargs: map<Key, GoValue>, keys: seq<Key>)
    requires HasAll(kwargs, keys) && forall i :: 0 <= i < |keys| ==> kwargs[keys[i]].item.WellFormed()
    ensures Pairs(kwargs, keys).WellFormed() && KeyedByText(Pairs(kwargs, keys))
    decreases |keys|
  {
    if keys != [] {
      WidenKeepsWellFormed(kwargs[keys[0]].item);
      PairsWellFormed(kwargs, keys[1..]);
      var tail := Cons(Payload(kwargs[keys[0]]), Pairs(kwargs, keys[1..]));
      assert tail.WellFormed();
      assert KeyedByText(Cons(Text(keys[0]), tail));
    }
  }

  /** Every key is UTF-8 and every value can be decoded. */
  predicate PairsDecode(kwargs: map<Key, GoValue>, keys: seq<Key>)
    requires HasAll(kwargs, keys)
  {
    forall i :: 0 <= i < |keys| ==> Utf8.WellFormed(keys[i]) && Decodable(kwargs[keys[i]].item)
  }

  lemma {:induction false} PairsDecodable(kwargs: map<Key, GoValue>, keys: seq<Key>)
    requires HasAll(kwargs, keys)
    ensures AllDecodable(Pairs(kwargs, keys)) <==> PairsDecode(kwargs, keys)
    decreases |keys|
  {
    if keys != [] {
      var rest := keys[1..];
      WidenKeepsDecodable(kwargs[keys[0]].item);
      PairsDecodable(kwargs, rest);
      assert forall i :: 0 < i < |keys| ==> keys[i] == rest[i - 1];
      assert PairsDecode(kwargs, keys) <==>
             Utf8.WellFormed(keys[0]) && Decodable(kwargs[keys[0]].item) && PairsDecode(kwargs, rest);
      var tail := Cons(Payload(kwargs[keys[0]]), Pairs(kwargs, rest));
      assert AllDecodable(tail) <==> Decodable(tail.first) && AllDecodable(tail.rest);
    }
  }

  function KwargMeaning(kwargs: map<Key, GoValue>, key: Key): Value
    requires Has(kwargs, key)
  {
    Meaning(kwargs[key].item)
  }

  function KwargMeanings(kwargs: map<Key, GoValue>, keys: set<Key>): map<Key, Value>
    requires forall k :: k in keys ==> Has(kwargs, k)
  {
    map k | k in keys :: KwargMeaning(kwargs, k)
  }

  lemma FirstEntry(kwargs: map<Key, GoValue>, keys: seq<Key>, seen: map<Key, Value>)
    requires HasAll(kwargs, keys) && keys != [] && KeyedByText(Pairs(kwargs, keys))
    ensures KeyedByText(Pairs(kwargs, keys[1..]))
    ensures DecodeEntries(Pairs(kwargs, keys), seen)
            == DecodeEntries(Pairs(kwargs, keys[1..]), seen[keys[0] := KwargMeaning(kwargs, keys[0])])
  {
    WidenKeepsMeaning(kwargs[keys[0]].item);
  }

  lemma {:induction false} EntriesRoundTrip(kwargs: map<Key, GoValue>, keys: seq<Key>, seen: map<Key, Value>)
    requires HasAll(kwargs, keys) && KeyedByText(Pairs(kwargs, keys))
    ensures DecodeEntries(Pairs(kwargs, keys), seen) == seen + KwargMeanings(kwargs, ElementsOf(keys))
    decreases |keys|
  {
    if keys != [] {
      var key, rest := keys[0], keys[1..];
      FirstEntry(kwargs, keys, seen);
      EntriesRoundTrip(kwargs, rest, seen[key := KwargMeaning(kwargs, key)]);
      ElementsFront(keys);
      MeaningsStep(kwargs, key, ElementsOf(rest), seen);
    }
  }

  lemma ElementsFront(keys: seq<Key>)
    requires keys != []
    ensures ElementsOf(keys) == {keys[0]} + ElementsOf(keys[1..])
  {
    assert keys == [keys[0]] + keys[1..];
  }

  lemma MeaningsStep(kwargs: map<Key, GoValue>, key: Key, rest: set<Key>, seen: map<Key, Value>)
    requires Has(kwargs, key) && forall k :: k in rest ==> Has(kwargs, k)
    ensures seen[key := KwargMeaning(kwargs, key)] + KwargMeanings(kwargs, rest)
            == seen + KwargMeanings(kwargs, {key} + rest)
  {
  }

  lemma KwargsItemWellFormed(kwargs: map<Key, GoValue>, keys: seq<Key>)
    requires HasAll(kwargs, keys) && |keys| < WORD
    requires forall k :: k in kwargs ==> kwargs[k].Encodable? && kwargs[k].item.WellFormed()
    ensures KwargsItem(kwargs, keys).WellFormed()
  {
    forall i | 0 <= i < |keys| ensures kwargs[keys[i]].item.WellFormed() {
      assert Has(kwargs, keys[i]);
    }
    PairsWellFormed(kwargs, keys);
  }

  lemma PairWellFormed(t: Item, a: Item, b: Item)
    requires t.Valid() && t.Coll? && t.items == Cons(a, Cons(b, Nil)) && a.WellFormed() && b.WellFormed()
    ensures t.WellFormed()
  {
    assert Cons(b, Nil).WellFormed();
  }

  lemma CallItemWellFormed(args: seq<GoValue>, kwargs: map<Key, GoValue>, keys: seq<Key>)
    requires WellFormedCall(args, kwargs) && HasAll(kwargs, keys) && |keys| < WORD
    ensures CallItem(args, kwargs, keys).WellFormed()
  {
    ItemsOfWellFormed(args);
    WidenKeepsWellFormed(ArgsItem(args));
    KwargsItemWellFormed(kwargs, keys);
    PairWellFormed(CallItem(args, kwargs, keys), WidenItem(ArgsItem(args)), KwargsItem(kwargs, keys));
  }

  lemma HalvesOfCall(args: seq<GoValue>, kwargs: map<Key, GoValue>, keys: seq<Key>)
    requires WellFormedCall(args, kwargs) && HasAll(kwargs, keys) && |keys| < WORD
    ensures Halves([TAG_CBOR] + Encode(CallItem(args, kwargs, keys)))
            == DecodeOk((WidenItem(ArgsItem(args)), KwargsItem(kwargs, keys)))
  {
    var t := CallItem(args, kwargs, keys);
    CallItemWellFormed(args, kwargs, keys);
    ParseComplete(Encode(t), 0, t);
    assert ([TAG_CBOR] + Encode(t))[1..] == Encode(t);
  }

  predicate ArgsDecodable(args: seq<GoValue>)
    requires AllEncodable(args)
  {
    forall i :: 0 <= i < |args| ==> Decodable(args[i].item)
  }

  predicate KwargsDecodable(kwargs: map<Key, GoValue>) {
    forall k :: k in kwargs ==> Utf8.WellFormed(k) && kwargs[k].Encodable? && Decodable(kwargs[k].item)
  }

  lemma ArgsRoundTrip(args: seq<GoValue>)
    requires ArgsValid(args) && AllEncodable(args)
    requires forall i :: 0 <= i < |args| ==> args[i].item.WellFormed()
    ensures DecodeArgs(WidenItem(ArgsItem(args)))
            == if ArgsDecodable(args) then DecodeOk(Meanings(ItemsOf(args))) else DecodeErr(BadArgs)
  {
    ItemsOfWellFormed(args);
    WidenAllKeepsDecodable(ItemsOf(args));
    WidenAllKeepsMeaning(ItemsOf(args));
  }

  lemma KwargsRoundTrip(kwargs: map<Key, GoValue>, keys: seq<Key>)
    requires HasAll(kwargs, keys) && ElementsOf(keys) == kwargs.Keys && |keys| < WORD
    requires forall k :: k in kwargs ==> Has(kwargs, k) && kwargs[k].item.WellFormed()
    ensures DecodeKwargs(KwargsItem(kwargs, keys))
            == if KwargsDecodable(kwargs) then DecodeOk(KwargMeanings(kwargs, kwargs.Keys)) else DecodeErr(BadKwargs)
  {
    forall i | 0 <= i < |keys| ensures kwargs[keys[i]].item.WellFormed() {
      assert Has(kwargs, keys[i]);
    }
    PairsWellFormed(kwargs, keys);
    PairsDecodable(kwargs, keys);
    KeysCovered(kwargs, keys);
    EntriesRoundTrip(kwargs, keys, map[]);
    assert map[] + KwargMeanings(kwargs, kwargs.Keys) == KwargMeanings(kwargs, kwargs.Keys);
  }

  /**
   A payload this client wrote decodes to the call it was written from, the same
   values with their floats widened, exactly when every key and every text in it
   is UTF-8 and every nested map is keyed by text.
  */
  lemma CallRoundTrip(r: Encoded, args: seq<GoValue>, kwargs: map<Key, GoValue>, keys: seq<Key>)
    requires WellFormedCall(args, kwargs) && IsPayload(r, args, kwargs, keys)
    ensures r.EncodeOk?
    ensures DecodeCall(r.bytes)
            == if !ArgsDecodable(args) then DecodeErr(BadArgs)
               else if !KwargsDecodable(kwargs) then DecodeErr(BadKwargs)
               else DecodeOk(Call(Meanings(ItemsOf(args)), KwargMeanings(kwargs, kwargs.Keys)))
  {
    HalvesOfCall(args, kwargs, keys);
    ArgsRoundTrip(args);
    KwargsRoundTrip(kwargs, keys);
  }

  lemma KeysCovered(kwargs: map<Key, GoValue>, keys: seq<Key>)
    requires HasAll(kwargs, keys) && ElementsOf(keys) == kwargs.Keys
    ensures PairsDecode(kwargs, keys) <==> KwargsDecodable(kwargs)
  {
    if PairsDecode(kwargs, keys) {
      forall k | k in kwargs
        ensures Utf8.WellFormed(k) && kwargs[k].Encodable? && Decodable(kwargs[k].item)
      {
        assert k in ElementsOf(keys);
      }
    } else {
      var i :| 0 <= i < |keys| && !(Utf8.WellFormed(keys[i]) && Decodable(kwargs[keys[i]].item));
      assert keys[i] in kwargs;
    }
  }

  lemma EmptyListing()
    ensures Lists<Key>([], {}, KeyLess) && ElementsOf<Key>([]) == {}
  {
  }

  /** The payload of a call with one argument and no keywords. */
  lemma OneArgumentPayload(t: Item) returns (r: Encoded)
    requires t.Valid()
    ensures IsPayload(r, [Encodable(t)], map[], []) && r.EncodeOk?
  {
    EmptyListing();
    var args := [Encodable(t)];
    assert ArgsValid(args) && AllEncodable(args);
    r := EncodeOk([TAG_CBOR] + Encode(CallItem(args, map[], [])));
  }

  /** A call with an argument that is well-formed and cannot be decoded is written and then refused. */
  lemma UndecodableIsWritten(t: Item) returns (r: Encoded)
    requires t.WellFormed() && t.Valid() && !Decodable(t)
    ensures IsPayload(r, [Encodable(t)], map[], []) && r.EncodeOk? && DecodeCall(r.bytes) == DecodeErr(BadArgs)
  {
    r := OneArgumentPayload(t);
    var args := [Encodable(t)];
    assert args[0].item == t;
    CallRoundTrip(r, args, map[], []);
  }

  /** Text that is not UTF-8: the byte 0xff. */
  lemma BadTextIsRefused() returns (r: Encoded)
    ensures IsPayload(r, [Encodable(Str(3, Arg(0, 1), [0xff]))], map[], []) && r.EncodeOk?
    ensures DecodeCall(r.bytes) == DecodeErr(BadArgs)
  {
    r := UndecodableIsWritten(Str(3, Arg(0, 1), [0xff]));
  }

  /** A map whose one key is the integer 1. */
  lemma IntegerKeyIsRefused() returns (r: Encoded)
    ensures var entry := Cons(Int(0, Arg(0, 1)), Cons(Int(0, Arg(0, 2)), Nil));
            IsPayload(r, [Encodable(Coll(5, Arg(0, 1), entry))], map[], []) && r.EncodeOk?
    ensures DecodeCall(r.bytes) == DecodeErr(BadArgs)
  {
    var value := Cons(Int(0, Arg(0, 2)), Nil);
    assert value.Valid() && value.WellFormed() && value.Length() == 1 + value.rest.Length();
    var entry := Cons(Int(0, Arg(0, 1)), value);
    assert entry.Length() == 1 + value.Length() && value.rest.Length() == 0;
    r := UndecodableIsWritten(Coll(5, Arg(0, 1), entry));
  }

  // ------------------------------------------------- the halves, still encoded

  /** Each item's own bytes. */
  function RawItems(items: Items): seq<seq<Byte>>
    requires items.Valid()
  {
    match items
    case Nil => []
    case Cons(first, rest) => [Encode(first)] + RawItems(rest)
  }

  /** Keyed by UTF-8 text; what the values hold is not looked at. */
  predicate TextKeys(items: Items) {
    items.Nil? ||
    (&& items.first.Str? && items.first.major == 3 && Utf8.WellFormed(items.first.body)
     && items.rest.Cons? && TextKeys(items.rest.rest))
  }

  function RawEntries(items: Items, seen: map<Key, seq<Byte>>): map<Key, seq<Byte>>
    requires items.Valid() && TextKeys(items)
  {
    if items.Nil? then seen
    else
      var key, value := items.first, items.rest.first;
      assert key.Valid() && items.rest.Valid() && value.Valid();
      RawEntries(items.rest.rest, seen[key.body := Encode(value)])
  }

  function SplitArgs(t: Item): Decoded<seq<seq<Byte>>>
    requires t.Valid()
  {
    if Absent(t) then DecodeOk([])
    else if t.Coll? && t.major == 4 then DecodeOk(RawItems(t.items))
    else DecodeErr(BadArgs)
  }

  function SplitKwargs(t: Item): Decoded<map<Key, seq<Byte>>>
    requires t.Valid()
  {
    if Absent(t) then DecodeOk(map[])
    else if t.Coll? && t.major == 5 && TextKeys(t.items) then DecodeOk(RawEntries(t.items, map[]))
    else DecodeErr(BadKwargs)
  }

  function SplitCall(payload: seq<Byte>): Decoded<(seq<seq<Byte>>, map<Key, seq<Byte>>)> {
    var (first, second) :- Halves(payload);
    var args :- SplitArgs(first);
    var kwargs :- SplitKwargs(second);
    DecodeOk((args, kwargs))
  }

  function RawKwarg(kwargs: map<Key, GoValue>, key: Key): seq<Byte>
    requires Has(kwargs, key)
  {
    Encode(Payload(kwargs[key]))
  }

  function RawKwargs(kwargs: map<Key, GoValue>, keys: set<Key>): map<Key, seq<Byte>>
    requires forall k :: k in keys ==> Has(kwargs, k)
  {
    map k | k in keys :: RawKwarg(kwargs, k)
  }

  predicate KeysAreUtf8(keys: seq<Key>) {
    forall i :: 0 <= i < |keys| ==> Utf8.WellFormed(keys[i])
  }

  lemma {:induction false} PairsTextKeys(kwargs: map<Key, GoValue>, keys: seq<Key>)
    requires HasAll(kwargs, keys)
    ensures TextKeys(Pairs(kwargs, keys)) <==> KeysAreUtf8(keys)
    decreases |keys|
  {
    if keys != [] {
      var rest := keys[1..];
      PairsTextKeys(kwargs, rest);
      assert forall i :: 0 < i < |keys| ==> keys[i] == rest[i - 1];
      assert KeysAreUtf8(keys) <==> Utf8.WellFormed(keys[0]) && KeysAreUtf8(rest);
    }
  }

  lemma FirstRawEntry(kwargs: map<Key, GoValue>, keys: seq<Key>, seen: map<Key, seq<Byte>>)
    requires HasAll(kwargs, keys) && keys != [] && TextKeys(Pairs(kwargs, keys))
    ensures TextKeys(Pairs(kwargs, keys[1..]))
    ensures RawEntries(Pairs(kwargs, keys), seen)
            == RawEntries(Pairs(kwargs, keys[1..]), seen[keys[0] := RawKwarg(kwargs, keys[0])])
  {
  }

  lemma RawStep(kwargs: map<Key, GoValue>, key: Key, rest: set<Key>, seen: map<Key, seq<Byte>>)
    requires Has(kwargs, key) && forall k :: k in rest ==> Has(kwargs, k)
    ensures seen[key := RawKwarg(kwargs, key)] + RawKwargs(kwargs, rest) == seen + RawKwargs(kwargs, {key} + rest)
  {
  }

  lemma {:induction false} RawRoundTrip(kwargs: map<Key, GoValue>, keys: seq<Key>, seen: map<Key, seq<Byte>>)
    requires HasAll(kwargs, keys) && TextKeys(Pairs(kwargs, keys))
    ensures RawEntries(Pairs(kwargs, keys), seen) == seen + RawKwargs(kwargs, ElementsOf(keys))
    decreases |keys|
  {
    if keys != [] {
      var key, rest := keys[0], keys[1..];
      FirstRawEntry(kwargs, keys, seen);
      RawRoundTrip(kwargs, rest, seen[key := RawKwarg(kwargs, key)]);
      ElementsFront(keys);
      RawStep(kwargs, key, ElementsOf(rest), seen);
    }
  }

  lemma SplitKwargsRoundTrip(kwargs: map<Key, GoValue>, keys: seq<Key>)
    requires HasAll(kwargs, keys) && ElementsOf(keys) == kwargs.Keys && |keys| < WORD
    requires forall k :: k in kwargs ==> Has(kwargs, k)
    ensures SplitKwargs(KwargsItem(kwargs, keys))
            == if KeysAreUtf8(keys) then DecodeOk(RawKwargs(kwargs, kwargs.Keys)) else DecodeErr(BadKwargs)
  {
    PairsTextKeys(kwargs, keys);
    if KeysAreUtf8(keys) {
      RawRoundTrip(kwargs, keys, map[]);
      assert map[] + RawKwargs(kwargs, kwargs.Keys) == RawKwargs(kwargs, kwargs.Keys);
    }
  }

  /**
   Splitting a payload this client wrote hands back every argument's own bytes,
   already widened, exactly when every keyword is UTF-8; what the arguments hold does
   not matter.
  */
  lemma SplitRoundTrip(r: Encoded, args: seq<GoValue>, kwargs: map<Key, GoValue>, keys: seq<Key>)
    requires WellFormedCall(args, kwargs) && IsPayload(r, args, kwargs, keys)
    ensures r.EncodeOk?
    ensures SplitCall(r.bytes)
            == if !KeysAreUtf8(keys) then DecodeErr(BadKwargs)
               else DecodeOk((RawItems(WidenAll(ItemsOf(args))), RawKwargs(kwargs, kwargs.Keys)))
  {
    HalvesOfCall(args, kwargs, keys);
    SplitKwargsRoundTrip(kwargs, keys);
  }

}
