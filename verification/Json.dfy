/**
 JSON texts as RFC 8259 defines them, read the way serde_json reads them: strict
 numbers and escapes, and containers nested at most 127 deep. A text is a sequence
 of Unicode scalar values, which is what both Rust's `str` and Dafny's `char` hold.
*/
module Json {
  datatype Json =
    | Null
    | Bool(value: bool)
    | Number(lexeme: string)
    | String(text: string)
    | Array(items: Items)
    | Object(members: Members)

  datatype Items = NoItems | Item(head: Json, tail: Items)

  /** Members in the order they are written. */
  datatype Members = NoMembers | Member(name: string, value: Json, tail: Members)

  /** What was read, and the text after it. */
  datatype Parsed<T> = Ok(value: T, rest: string) | Bad

  function Names(m: Members): set<string> {
    match m
    case NoMembers => {}
    case Member(name, _, tail) => {name} + Names(tail)
  }

  function Append(a: Members, b: Members): Members {
    match a
    case NoMembers => b
    case Member(name, value, tail) => Member(name, value, Append(tail, b))
  }

  lemma {:induction false} NamesAppend(a: Members, b: Members)
    ensures Names(Append(a, b)) == Names(a) + Names(b)
  {
    if a.Member? {
      NamesAppend(a.tail, b);
    }
  }

  // -------------------------------------------------------------------- reading

  predicate IsSpace(c: char) {
    c == ' ' || c == '\t' || c == '\n' || c == '\r'
  }

  function SkipSpace(s: string): (t: string)
    ensures |t| <= |s|
    ensures t != [] ==> !IsSpace(t[0])
  {
    if s != [] && IsSpace(s[0]) then SkipSpace(s[1..]) else s
  }

  predicate IsDigit(c: char) {
    '0' <= c <= '9'
  }

  function CountDigits(s: string): (n: nat)
    ensures n <= |s|
  {
    if s != [] && IsDigit(s[0]) then 1 + CountDigits(s[1..]) else 0
  }

  /** The length of the fraction at the front of `s`, or -1 when it has a point and no digits. */
  function FractionLength(s: string): (n: int)
    ensures n <= |s|
  {
    if s == [] || s[0] != '.' then 0
    else
      var digits := CountDigits(s[1..]);
      if digits == 0 then -1 else 1 + digits
  }

  /** The same for an exponent. */
  function ExponentLength(s: string): (n: int)
    ensures n <= |s|
  {
    if s == [] || (s[0] != 'e' && s[0] != 'E') then 0
    else
      var sign := if |s| > 1 && (s[1] == '+' || s[1] == '-') then 1 else 0;
      var digits := CountDigits(s[1 + sign..]);
      if digits == 0 then -1 else 1 + sign + digits
  }

  /** The length of the sign and whole digits at the front of `s`, or 0 when they are no number's. */
  function WholeLength(s: string): (n: nat)
    ensures n <= |s|
  {
    var sign := if s != [] && s[0] == '-' then 1 else 0;
    var digits := CountDigits(s[sign..]);
    if digits == 0 || (digits > 1 && s[sign] == '0') then 0 else sign + digits
  }

  /** The length of the number at the front of `s`, or 0 when there is none. */
  function NumberLength(s: string): (n: nat)
    ensures n <= |s|
  {
    var whole := WholeLength(s);
    var fraction := FractionLength(s[whole..]);
    if whole == 0 || fraction < 0 then 0
    else
      var exponent := ExponentLength(s[whole + fraction..]);
      if exponent < 0 then 0 else whole + fraction + exponent
  }

  function HexValue(c: char): (v: int)
    ensures -1 <= v < 16
  {
    if '0' <= c <= '9' then c as int - '0' as int
    else if 'a' <= c <= 'f' then c as int - 'a' as int + 10
    else if 'A' <= c <= 'F' then c as int - 'A' as int + 10
    else -1
  }

  /** Four hexadecimal digits as a number, or -1. */
  function HexWord(s: string): (v: int)
    ensures -1 <= v < 0x1_0000
    ensures v >= 0 ==> |s| >= 4
  {
    if |s| < 4 then -1
    else
      var a, b, c, d := HexValue(s[0]), HexValue(s[1]), HexValue(s[2]), HexValue(s[3]);
      if a < 0 || b < 0 || c < 0 || d < 0 then -1 else ((a * 16 + b) * 16 + c) * 16 + d
  }

  /** One escape, after its backslash. A surrogate must come as a pair. */
  function ParseEscape(s: string): (p: Parsed<char>)
    ensures p.Ok? ==> |p.rest| < |s|
  {
    if s == [] then Bad
    else if s[0] == '"' || s[0] == '\\' || s[0] == '/' then Ok(s[0], s[1..])
    else if s[0] == 'b' then Ok(8 as char, s[1..])
    else if s[0] == 'f' then Ok(12 as char, s[1..])
    else if s[0] == 'n' then Ok('\n', s[1..])
    else if s[0] == 'r' then Ok('\r', s[1..])
    else if s[0] == 't' then Ok('\t', s[1..])
    else if s[0] == 'u' then ParseUnicode(s[1..])
    else Bad
  }

  function ParseUnicode(s: string): (p: Parsed<char>)
    ensures p.Ok? ==> |p.rest| < |s|
  {
    var high := HexWord(s);
    if high < 0 then Bad
    else if high < 0xd800 || high > 0xdfff then Ok(high as char, s[4..])
    else if high > 0xdbff || |s| < 6 || s[4] != '\\' || s[5] != 'u' then Bad
    else
      var low := HexWord(s[6..]);
      if low < 0xdc00 || low > 0xdfff then Bad
      else Ok((0x1_0000 + (high - 0xd800) * 0x400 + (low - 0xdc00)) as char, s[10..])
  }

  /** The text of a string, after its opening quote. */
  function ParseText(s: string): (p: Parsed<string>)
    ensures p.Ok? ==> |p.rest| < |s|
    decreases |s|
  {
    if s == [] || s[0] as int < 0x20 then Bad
    else if s[0] == '"' then Ok("", s[1..])
    else
      var first := if s[0] == '\\' then ParseEscape(s[1..]) else Ok(s[0], s[1..]);
      match first
      case Bad => Bad
      case Ok(c, rest) =>
        match ParseText(rest)
        case Bad => Bad
        case Ok(text, end) => Ok([c] + text, end)
  }

  /** `fits` says which number lexemes a double can hold; the others are refused. */
  type Range = string -> bool

  /** A value, with `depth` containers still allowed around what it holds. */
  function ParseValue(s: string, depth: nat, fits: Range): (p: Parsed<Json>)
    ensures p.Ok? ==> |p.rest| < |s|
    decreases |s|, 1
  {
    var t := SkipSpace(s);
    if t == [] then Bad
    else if t[0] == '"' then
      (match ParseText(t[1..]) case Bad => Bad case Ok(text, rest) => Ok(String(text), rest))
    else if t[0] == '[' then if depth <= 1 then Bad else ParseArray(SkipSpace(t[1..]), depth - 1, fits)
    else if t[0] == '{' then if depth <= 1 then Bad else ParseObject(SkipSpace(t[1..]), depth - 1, fits)
    else if "null" <= t then Ok(Null, t[4..])
    else if "true" <= t then Ok(Bool(true), t[4..])
    else if "false" <= t then Ok(Bool(false), t[5..])
    else
      var n := NumberLength(t);
      if n == 0 || !fits(t[..n]) then Bad else Ok(Number(t[..n]), t[n..])
  }

  function ParseArray(s: string, depth: nat, fits: Range): (p: Parsed<Json>)
    ensures p.Ok? ==> |p.rest| < |s|
    decreases |s|, 3
  {
    if s != [] && s[0] == ']' then Ok(Array(NoItems), s[1..])
    else match ParseItems(s, depth, fits) case Bad => Bad case Ok(items, rest) => Ok(Array(items), rest)
  }

  function ParseItems(s: string, depth: nat, fits: Range): (p: Parsed<Items>)
    ensures p.Ok? ==> |p.rest| < |s|
    decreases |s|, 2
  {
    match ParseValue(s, depth, fits)
    case Bad => Bad
    case Ok(head, rest) =>
      var t := SkipSpace(rest);
      if t == [] then Bad
      else if t[0] == ']' then Ok(Item(head, NoItems), t[1..])
      else if t[0] != ',' then Bad
      else match ParseItems(t[1..], depth, fits) case Bad => Bad case Ok(tail, end) => Ok(Item(head, tail), end)
  }

  function ParseObject(s: string, depth: nat, fits: Range): (p: Parsed<Json>)
    ensures p.Ok? ==> |p.rest| < |s|
    decreases |s|, 3
  {
    if s != [] && s[0] == '}' then Ok(Object(NoMembers), s[1..])
    else match ParseMembers(s, depth, fits) case Bad => Bad case Ok(members, rest) => Ok(Object(members), rest)
  }

  /** One or more members and the closing brace, from the first name's quote. */
  function ParseMembers(s: string, depth: nat, fits: Range): (p: Parsed<Members>)
    ensures p.Ok? ==> |p.rest| < |s|
    decreases |s|, 2
  {
    if s == [] || s[0] != '"' then Bad
    else
      match ParseText(s[1..])
      case Bad => Bad
      case Ok(name, rest) =>
        var t := SkipSpace(rest);
        if t == [] || t[0] != ':' then Bad
        else
          match ParseValue(t[1..], depth, fits)
          case Bad => Bad
          case Ok(value, after) => ParseMore(name, value, SkipSpace(after), depth, fits)
  }

  /** What follows a member: the closing brace, or a comma and another member. */
  function ParseMore(name: string, value: Json, s: string, depth: nat, fits: Range): (p: Parsed<Members>)
    ensures p.Ok? ==> |p.rest| < |s|
    decreases |s|, 3
  {
    if s == [] then Bad
    else if s[0] == '}' then Ok(Member(name, value, NoMembers), s[1..])
    else if s[0] != ',' then Bad
    else
      match ParseMembers(SkipSpace(s[1..]), depth, fits)
      case Bad => Bad
      case Ok(tail, end) => Ok(Member(name, value, tail), end)
  }

  const DEPTH := 128

  /** A whole text: one value, and nothing but white space around it. */
  function Parse(text: string, fits: Range): Parsed<Json> {
    match ParseValue(text, DEPTH, fits)
    case Bad => Bad
    case Ok(value, rest) => if SkipSpace(rest) == [] then Ok(value, []) else Bad
  }

  // ----------------------------------------------------------------- white space

  lemma {:induction false} SkipPrefix(space: string, s: string)
    requires (forall i :: 0 <= i < |space| ==> IsSpace(space[i])) && s != [] && !IsSpace(s[0])
    ensures SkipSpace(space + s) == s
  {
    if space == [] {
      assert space + s == s;
    } else {
      SkipPrefix(space[1..], s);
      assert (space + s)[1..] == space[1..] + s;
    }
  }

  lemma {:induction false} SkippedIsSpace(s: string)
    ensures var k := |s| - |SkipSpace(s)|; s[k..] == SkipSpace(s) && forall i :: 0 <= i < k ==> IsSpace(s[i])
  {
    if s != [] && IsSpace(s[0]) {
      SkippedIsSpace(s[1..]);
    }
  }

  /** Skipping white space twice is skipping it once, and a value is read past any. */
  lemma SkipsFirst(s: string, depth: nat, fits: Range)
    ensures SkipSpace(SkipSpace(s)) == SkipSpace(s)
    ensures ParseValue(s, depth, fits) == ParseValue(SkipSpace(s), depth, fits)
  {
    var t := SkipSpace(s);
    assert t != [] ==> !IsSpace(t[0]);
  }

  // ------------------------------------------------------ the reader, one step at a time

  lemma ValueIsString(s: string, t: string, text: string, rest: string, depth: nat, fits: Range)
    requires SkipSpace(s) == t && t != [] && t[0] == '"' && ParseText(t[1..]) == Ok(text, rest)
    ensures ParseValue(s, depth, fits) == Ok(String(text), rest)
  {
  }

  lemma ValueIsObject(s: string, t: string, body: string, depth: nat, fits: Range)
    requires SkipSpace(s) == t && t != [] && t[0] == '{' && t[1..] == body && depth > 1
    ensures ParseValue(s, depth, fits) == ParseObject(SkipSpace(body), depth - 1, fits)
  {
  }

  lemma ValueIsArray(s: string, t: string, body: string, depth: nat, fits: Range)
    requires SkipSpace(s) == t && t != [] && t[0] == '[' && t[1..] == body && depth > 1
    ensures ParseValue(s, depth, fits) == ParseArray(SkipSpace(body), depth - 1, fits)
  {
  }

  /** Only a brace starts an object. */
  lemma ObjectStarts(s: string, depth: nat, fits: Range)
    requires var p := ParseValue(s, depth, fits); p.Ok? && p.value.Object?
    ensures var t := SkipSpace(s); t != [] && t[0] == '{' && depth > 1
  {
  }

  lemma MembersStep(s: string, name: string, rest: string, value: Json, after: string, depth: nat, fits: Range)
    requires s != [] && s[0] == '"' && ParseText(s[1..]) == Ok(name, rest)
    requires rest != [] && rest[0] == ':' && ParseValue(rest[1..], depth, fits) == Ok(value, after)
    ensures ParseMembers(s, depth, fits) == ParseMore(name, value, SkipSpace(after), depth, fits)
  {
    assert SkipSpace(rest) == rest;
  }

  lemma MoreEnds(name: string, value: Json, s: string, depth: nat, fits: Range)
    requires s != [] && s[0] == '}'
    ensures ParseMore(name, value, s, depth, fits) == Ok(Member(name, value, NoMembers), s[1..])
  {
  }

  lemma MoreGoesOn(name: string, value: Json, s: string, m: Members, rest: string, depth: nat, fits: Range)
    requires s != [] && s[0] == ',' && ParseMembers(SkipSpace(s[1..]), depth, fits) == Ok(m, rest)
    ensures ParseMore(name, value, s, depth, fits) == Ok(Member(name, value, m), rest)
  {
  }

  /** `ParseMembers` reads at least one member, and `ParseObject` reads none only off a brace. */
  lemma MembersExist(s: string, depth: nat, fits: Range)
    requires ParseMembers(s, depth, fits).Ok?
    ensures ParseMembers(s, depth, fits).value.Member?
  {
  }

  lemma ObjectCases(s: string, m: Members, rest: string, depth: nat, fits: Range)
    requires ParseObject(s, depth, fits) == Ok(Object(m), rest)
    ensures if m.NoMembers? then s == "}" + rest else ParseMembers(s, depth, fits) == Ok(m, rest)
  {
    if s != [] && s[0] == '}' {
      assert s == "}" + s[1..];
    } else {
      MembersExist(s, depth, fits);
    }
  }

  // -------------------------------------------------------------------- writing

  function HexDigit(v: int): char
    requires 0 <= v < 16
  {
    if v < 10 then ('0' as int + v) as char else ('a' as int + v - 10) as char
  }

  /** One character as serde_json writes it inside a string. */
  function EscapeChar(c: char): (s: string)
    ensures s != []
  {
    if c == '"' then "\\\""
    else if c == '\\' then "\\\\"
    else if c == 8 as char then "\\b"
    else if c == 12 as char then "\\f"
    else if c == '\n' then "\\n"
    else if c == '\r' then "\\r"
    else if c == '\t' then "\\t"
    else if c as int < 0x20 then "\\u00" + [HexDigit(c as int / 16), HexDigit(c as int % 16)]
    else [c]
  }

  function Escape(v: string): string {
    if v == [] then [] else EscapeChar(v[0]) + Escape(v[1..])
  }

  function Quote(v: string): string {
    "\"" + Escape(v) + "\""
  }
}
