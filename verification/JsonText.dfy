/** Compact JSON text: every value has a spelling, so every value can be read. */
module JsonText {
  import opened Json
  import opened JsonExact
  import opened JsonGrammar
  import opened JsonSound
  import opened Seqs

  function Print(v: Json): string {
    match v
    case Null => "null"
    case Bool(b) => if b then "true" else "false"
    case Number(lexeme) => lexeme
    case String(text) => Quote(text)
    case Array(items) => "[" + (if items.NoItems? then [] else ItemsText(items)) + "]"
    case Object(members) => "{" + (if members.NoMembers? then [] else MembersText(members)) + "}"
  }

  function ItemsText(items: Items): string
    requires items.Item?
  {
    if items.tail.NoItems? then Print(items.head) else Print(items.head) + ("," + ItemsText(items.tail))
  }

  function NameText(name: string): string {
    "\"" + (Escape(name) + ("\"" + ":"))
  }

  function MembersText(m: Members): string
    requires m.Member?
  {
    if m.tail.NoMembers? then NameText(m.name) + Print(m.value)
    else NameText(m.name) + (Print(m.value) + ("," + MembersText(m.tail)))
  }

  /** Every number in the value is written as a number. */
  ghost predicate Written(v: Json) {
    match v
    case Number(lexeme) => IsNumber(lexeme)
    case Array(items) => ItemsWritten(items)
    case Object(members) => MembersWritten(members)
    case _ => true
  }

  ghost predicate ItemsWritten(items: Items) {
    items.NoItems? || (Written(items.head) && ItemsWritten(items.tail))
  }

  ghost predicate MembersWritten(m: Members) {
    m.NoMembers? || (Written(m.value) && MembersWritten(m.tail))
  }

  lemma EscapeSpells(c: char)
    ensures SpellsChar(EscapeChar(c), c)
  {
    var unit := EscapeChar(c);
    if |unit| == 6 {
      assert unit[2..] == "00" + [HexDigit(c as int / 16), HexDigit(c as int % 16)];
    }
  }

  lemma {:induction false} EscapedSpells(text: string)
    ensures SpellsText(Escape(text), text)
  {
    if text != [] {
      EscapeSpells(text[0]);
      EscapedSpells(text[1..]);
      SpellsTextCons(EscapeChar(text[0]), text[0], Escape(text[1..]), text[1..]);
      assert text == [text[0]] + text[1..];
    }
  }

  /** A quoted string reads back as itself, whatever it contains and whatever follows it. */
  lemma QuoteReads(v: string, more: string)
    ensures ParseText(Escape(v) + "\"" + more) == Ok(v, more)
  {
    EscapedSpells(v);
    TextReads(Escape(v), v, more);
    Regroup(Escape(v), "\"", more);
  }

  lemma QuotedReads(value: string, more: string, depth: nat, fits: Range)
    ensures ParseValue(Quote(value) + more, depth, fits) == Ok(String(value), more)
  {
    EscapedSpells(value);
    StringReads(Escape(value), value, more, depth, fits);
  }

  lemma Unpadded(x: string, v: Json)
    requires Spells(x, v)
    ensures Padded(x, v)
  {
    assert Space([]) && x == [] + (x + []);
  }

  lemma NameSpells(name: string)
    ensures SpellsName(NameText(name), name)
  {
    EscapedSpells(name);
    var body := Escape(name);
    assert Space([]) && NameText(name) == [] + ("\"" + (body + ("\"" + ([] + ":"))));
  }

  lemma {:induction false} PrintSpells(v: Json)
    requires Written(v)
    ensures Spells(Print(v), v)
    decreases v, 1
  {
    match v
    case String(text) => EscapedSpells(text);
    case Array(items) =>
      if items.NoItems? {
        assert Space([]);
      } else {
        ItemsSpell(items);
      }
    case Object(members) =>
      if members.NoMembers? {
        assert Space([]);
      } else {
        MembersSpell(members);
      }
    case _ =>
  }

  lemma {:induction false} ItemsSpell(items: Items)
    requires items.Item? && ItemsWritten(items)
    ensures SpellsItems(ItemsText(items), items)
    decreases items, 0
  {
    PrintSpells(items.head);
    Unpadded(Print(items.head), items.head);
    if items.tail.Item? {
      ItemsSpell(items.tail);
    }
  }

  lemma {:induction false} MembersSpell(m: Members)
    requires m.Member? && MembersWritten(m)
    ensures SpellsMembers(MembersText(m), m)
    decreases m, 0
  {
    NameSpells(m.name);
    PrintSpells(m.value);
    Unpadded(Print(m.value), m.value);
    if m.tail.Member? {
      MembersSpell(m.tail);
    }
  }

  /** Every value with numbers that fit, nested at most 127 deep, reads back from its compact text. */
  lemma PrintedReadsBack(v: Json, fits: Range)
    requires Written(v) && Readable(v, DEPTH, fits)
    ensures Parse(Print(v), fits) == Ok(v, [])
  {
    PrintSpells(v);
    Unpadded(Print(v), v);
    SpelledIsAccepted(Print(v), v, fits);
  }
}
