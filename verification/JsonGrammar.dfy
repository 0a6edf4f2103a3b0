/**
 The grammar of RFC 8259 as a relation between texts and values, independent of any
 way of reading: how a number is written, which characters may stand for a character
 of a string, and white space only around values, names and structural characters
 (sections 2 to 7).
*/
module JsonGrammar {
  import opened Json

  predicate Space(w: string) {
    forall i :: 0 <= i < |w| ==> IsSpace(w[i])
  }

  /** What a one-letter escape stands for, or -1. */
  function ShortEscape(c: char): int {
    if c == '"' || c == '\\' || c == '/' then c as int
    else if c == 'b' then 8
    else if c == 'f' then 12
    else if c == 'n' then 10
    else if c == 'r' then 13
    else if c == 't' then 9
    else -1
  }

  /** A character of a string, written as itself, as an escape, or as one or two `\u` words. */
  predicate SpellsChar(unit: string, c: char) {
    || (|unit| == 1 && unit[0] == c && c as int >= 0x20 && c != '"' && c != '\\')
    || (|unit| == 2 && unit[0] == '\\' && ShortEscape(unit[1]) == c as int)
    || (|unit| == 6 && unit[0] == '\\' && unit[1] == 'u' && HexWord(unit[2..]) == c as int)
    || (&& |unit| == 12 && unit[0] == '\\' && unit[1] == 'u' && unit[6] == '\\' && unit[7] == 'u'
        && 0xd800 <= HexWord(unit[2..]) < 0xdc00 && 0xdc00 <= HexWord(unit[8..]) < 0xe000
        && c as int == 0x1_0000 + (HexWord(unit[2..]) - 0xd800) * 0x400 + (HexWord(unit[8..]) - 0xdc00))
  }

  /** The inside of a quoted string. */
  predicate SpellsText(body: string, text: string)
    decreases |text|
  {
    if text == [] then body == []
    else exists k :: 0 < k <= |body| && SpellsChar(body[..k], text[0]) && SpellsText(body[k..], text[1..])
  }

  predicate AllDigits(s: string) {
    forall i :: 0 <= i < |s| ==> IsDigit(s[i])
  }

  predicate IsWhole(s: string) {
    var digits := if s != [] && s[0] == '-' then s[1..] else s;
    digits != [] && AllDigits(digits) && (|digits| == 1 || digits[0] != '0')
  }

  predicate IsFraction(s: string) {
    s == [] || (|s| > 1 && s[0] == '.' && AllDigits(s[1..]))
  }

  predicate IsExponent(s: string) {
    s == [] || (&& |s| > 1 && (s[0] == 'e' || s[0] == 'E')
                && var digits := if s[1] == '+' || s[1] == '-' then s[2..] else s[1..];
                   digits != [] && AllDigits(digits))
  }

  predicate NumberParts(lexeme: string, whole: string, fraction: string, exponent: string) {
    IsWhole(whole) && IsFraction(fraction) && IsExponent(exponent) && lexeme == whole + (fraction + exponent)
  }

  ghost predicate IsNumber(lexeme: string) {
    exists whole, fraction, exponent :: NumberParts(lexeme, whole, fraction, exponent)
  }

  /** A value without white space around it. */
  ghost predicate Spells(s: string, v: Json)
    decreases v, 0
  {
    match v
    case Null => s == "null"
    case Bool(b) => s == if b then "true" else "false"
    case Number(lexeme) => s == lexeme && IsNumber(lexeme)
    case String(text) => exists body :: SpellsText(body, text) && s == "\"" + body + "\""
    case Array(items) =>
      if items.NoItems? then exists w :: Space(w) && s == "[" + w + "]"
      else exists body :: SpellsItems(body, items) && s == "[" + body + "]"
    case Object(members) =>
      if members.NoMembers? then exists w :: Space(w) && s == "{" + w + "}"
      else exists body :: SpellsMembers(body, members) && s == "{" + body + "}"
  }

  /** A value with white space around it. */
  ghost predicate Padded(s: string, v: Json)
    decreases v, 1
  {
    exists a, x, b :: Space(a) && Spells(x, v) && Space(b) && s == a + (x + b)
  }

  /** One or more values with commas between them. */
  ghost predicate SpellsItems(s: string, items: Items)
    requires items.Item?
    decreases items
  {
    if items.tail.NoItems? then Padded(s, items.head)
    else exists first, rest :: Padded(first, items.head) && SpellsItems(rest, items.tail) && s == first + ("," + rest)
  }

  /** A name with white space around it, up to its colon. */
  ghost predicate SpellsName(s: string, name: string) {
    exists a, body, b :: Space(a) && SpellsText(body, name) && Space(b) && s == a + ("\"" + (body + ("\"" + (b + ":"))))
  }

  /** One or more members with commas between them. */
  ghost predicate SpellsMembers(s: string, m: Members)
    requires m.Member?
    decreases m
  {
    if m.tail.NoMembers? then
      exists name, value :: SpellsName(name, m.name) && Padded(value, m.value) && s == name + value
    else
      exists name, value, rest ::
        SpellsName(name, m.name) && Padded(value, m.value) && SpellsMembers(rest, m.tail)
        && s == name + (value + ("," + rest))
  }

  /** Numbers that fit, and containers nested less than `depth` deep. */
  predicate Readable(v: Json, depth: nat, fits: Range) {
    match v
    case Number(lexeme) => fits(lexeme)
    case Array(items) => depth > 1 && ItemsReadable(items, depth - 1, fits)
    case Object(members) => depth > 1 && MembersReadable(members, depth - 1, fits)
    case _ => true
  }

  predicate ItemsReadable(items: Items, depth: nat, fits: Range) {
    items.NoItems? || (Readable(items.head, depth, fits) && ItemsReadable(items.tail, depth, fits))
  }

  predicate MembersReadable(m: Members, depth: nat, fits: Range) {
    m.NoMembers? || (Readable(m.value, depth, fits) && MembersReadable(m.tail, depth, fits))
  }
}
