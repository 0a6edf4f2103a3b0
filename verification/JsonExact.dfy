/** Everything the grammar spells is read, and with `JsonSound` the reader is exact. */
module JsonExact {
  import opened Json
  import opened JsonGrammar
  import opened JsonSound
  import opened Seqs

  // ------------------------------------------------------------------- numbers

  /** Text that cannot be taken for more of a number. */
  predicate Ends(more: string) {
    more == [] || !(IsDigit(more[0]) || more[0] == '.' || more[0] == 'e' || more[0] == 'E')
  }

  predicate NoDigit(more: string) {
    more == [] || !IsDigit(more[0])
  }

  lemma {:induction false} DigitsCounted(digits: string, more: string)
    requires AllDigits(digits) && NoDigit(more)
    ensures CountDigits(digits + more) == |digits|
  {
    if digits == [] {
      assert digits + more == more;
    } else {
      DigitsCounted(digits[1..], more);
      DropFirst(digits, more, 1);
    }
  }

  lemma WholeReads(a: string, more: string)
    requires IsWhole(a) && NoDigit(more)
    ensures WholeLength(a + more) == |a|
  {
    var sign := if a[0] == '-' then 1 else 0;
    DigitsCounted(a[sign..], more);
    DropFirst(a, more, sign);
  }

  lemma FractionReads(a: string, more: string)
    requires IsFraction(a) && NoDigit(more) && (more == [] || more[0] != '.')
    ensures FractionLength(a + more) == |a|
  {
    if a == [] {
      assert a + more == more;
    } else {
      DigitsCounted(a[1..], more);
      DropFirst(a, more, 1);
    }
  }

  lemma ExponentReads(a: string, more: string)
    requires IsExponent(a) && Ends(more)
    ensures ExponentLength(a + more) == |a|
  {
    if a == [] {
      assert a + more == more;
    } else {
      var sign := if a[1] == '+' || a[1] == '-' then 1 else 0;
      DigitsCounted(a[1 + sign..], more);
      DropFirst(a, more, 1 + sign);
    }
  }

  /** A number is read to its end and no further. */
  lemma NumberEnds(a: string, more: string)
    requires IsNumber(a) && Ends(more)
    ensures a != [] && NumberLength(a + more) == |a| && (IsDigit(a[0]) || a[0] == '-')
  {
    var whole, fraction, exponent :| NumberParts(a, whole, fraction, exponent);
    Regroup(fraction, exponent, more);
    Regroup(whole, fraction + exponent, more);
    WholeReads(whole, fraction + (exponent + more));
    FractionReads(fraction, exponent + more);
    ExponentReads(exponent, more);
    DropFirst(whole, fraction + (exponent + more), |whole|);
    Regroup(whole, fraction, exponent + more);
    DropFirst(whole + fraction, exponent + more, |whole| + |fraction|);
    assert a[0] == whole[0];
  }

  lemma ValueIsNumber(t: string, n: nat, depth: nat, fits: Range)
    requires t != [] && (IsDigit(t[0]) || t[0] == '-') && NumberLength(t) == n > 0 && fits(t[..n])
    ensures ParseValue(t, depth, fits) == Ok(Number(t[..n]), t[n..])
  {
  }

  lemma LexemeReads(a: string, more: string, depth: nat, fits: Range)
    requires a != [] && NumberLength(a + more) == |a| && (IsDigit(a[0]) || a[0] == '-') && fits(a)
    ensures ParseValue(a + more, depth, fits) == Ok(Number(a), more)
  {
    assert (a + more)[..|a|] == a && (a + more)[|a|..] == more;
    ValueIsNumber(a + more, |a|, depth, fits);
  }

  lemma NumberReads(a: string, more: string, depth: nat, fits: Range)
    requires IsNumber(a) && fits(a) && Ends(more)
    ensures ParseValue(a + more, depth, fits) == Ok(Number(a), more)
  {
    NumberEnds(a, more);
    LexemeReads(a, more, depth, fits);
  }

  // ------------------------------------------------------------------- strings

  /** A spelled character is read, whatever follows it. */
  lemma CharReads(unit: string, c: char, more: string)
    requires SpellsChar(unit, c)
    ensures var s := unit + more;
            if s[0] == '\\' then ParseEscape(s[1..]) == Ok(c, more)
            else s[0] == c && c as int >= 0x20 && c != '"' && s[1..] == more
  {
    var s := unit + more;
    if |unit| == 1 {
    } else if |unit| == 2 {
      assert s[1..][1..] == more;
    } else {
      assert s[1..][1..] == s[2..];
      WordsRead(unit, c, more);
    }
  }

  lemma WordsRead(unit: string, c: char, more: string)
    requires SpellsChar(unit, c) && |unit| >= 6
    ensures ParseUnicode((unit + more)[2..]) == Ok(c, more)
  {
    var s := (unit + more)[2..];
    HexPrefix(unit[2..], s);
    if |unit| == 6 {
      assert s[4..] == more;
    } else {
      assert s[4] == unit[6] && s[5] == unit[7];
      HexPrefix(unit[8..], s[6..]);
      assert s[10..] == more;
    }
  }

  lemma TextStep(unit: string, c: char, body: string, text: string, more: string)
    requires SpellsChar(unit, c) && ParseText(body + ("\"" + more)) == Ok(text, more)
    ensures ParseText((unit + body) + ("\"" + more)) == Ok([c] + text, more)
  {
    Regroup(unit, body, "\"" + more);
    CharReads(unit, c, body + ("\"" + more));
  }

  lemma TextEnds(more: string)
    ensures ParseText("\"" + more) == Ok([], more)
  {
    Behind('"', more);
  }

  lemma {:induction false} TextReads(body: string, text: string, more: string)
    requires SpellsText(body, text)
    ensures ParseText(body + ("\"" + more)) == Ok(text, more)
    decreases |text|
  {
    if text == [] {
      TextEnds(more);
      assert body + ("\"" + more) == "\"" + more;
    } else {
      var k :| 0 < k <= |body| && SpellsChar(body[..k], text[0]) && SpellsText(body[k..], text[1..]);
      TextReads(body[k..], text[1..], more);
      TextStep(body[..k], text[0], body[k..], text[1..], more);
      TakeDrop(body, k);
      TakeDrop(text, 1);
    }
  }

  // -------------------------------------------------------------------- values

  lemma WordReads(word: string, v: Json, more: string, depth: nat, fits: Range)
    requires (word == "null" && v == Null) || (word == "true" && v == Bool(true)) || (word == "false" && v == Bool(false))
    ensures ParseValue(word + more, depth, fits) == Ok(v, more)
  {
    var t := word + more;
    assert t[0] == word[0] && SkipSpace(t) == t;
    assert t[..|word|] == word && t[|word|..] == more;
  }

  /** Text that starts with one character, taken apart. */
  lemma Behind(c: char, body: string)
    ensures var t := [c] + body; t != [] && t[0] == c && t[1..] == body
  {
  }

  /** A spelled value starts with no space and no closing bracket. */
  predicate Starts(s: string) {
    s != [] && !IsSpace(s[0]) && s[0] != ']' && s[0] != '}'
  }

  lemma SpelledStarts(x: string, v: Json)
    requires Spells(x, v)
    ensures Starts(x)
  {
    if v.Number? {
      NumberEnds(x, []);
    }
  }

  /** A spelled value is read, whatever ends it. */
  lemma {:induction false} CoreReads(x: string, v: Json, more: string, depth: nat, fits: Range)
    requires Spells(x, v) && Readable(v, depth, fits) && Ends(more)
    ensures ParseValue(x + more, depth, fits) == Ok(v, more)
    decreases v, 0
  {
    match v
    case Null => WordReads("null", v, more, depth, fits);
    case Bool(b) => WordReads(if b then "true" else "false", v, more, depth, fits);
    case Number(lexeme) => NumberReads(lexeme, more, depth, fits);
    case String(text) =>
      var body :| SpellsText(body, text) && x == "\"" + body + "\"";
      StringReads(body, text, more, depth, fits);
    case Array(items) => ArrayReads(x, items, more, depth, fits);
    case Object(members) => ObjectReads(x, members, more, depth, fits);
  }

  lemma StringReads(body: string, text: string, more: string, depth: nat, fits: Range)
    requires SpellsText(body, text)
    ensures ParseValue(("\"" + body + "\"") + more, depth, fits) == Ok(String(text), more)
  {
    var t := ("\"" + body + "\"") + more;
    Bracketed('"', body, '"', more);
    TextReads(body, text, more);
    ValueIsString(t, t, text, more, depth, fits);
  }

  lemma {:induction false} ArrayReads(x: string, items: Items, more: string, depth: nat, fits: Range)
    requires Spells(x, Array(items)) && Readable(Array(items), depth, fits)
    ensures ParseValue(x + more, depth, fits) == Ok(Array(items), more)
    decreases items, 2
  {
    if items.NoItems? {
      var w :| Space(w) && x == "[" + w + "]";
      Bracketed('[', w, ']', more);
      ValueIsArray(x + more, x + more, w + ("]" + more), depth, fits);
      Behind(']', more);
      SkipPrefix(w, "]" + more);
    } else {
      var body :| SpellsItems(body, items) && x == "[" + body + "]";
      var inside := body + ("]" + more);
      Bracketed('[', body, ']', more);
      ValueIsArray(x + more, x + more, inside, depth, fits);
      ItemsRead(body, items, more, depth - 1, fits);
      ItemsSkipFirst(inside, depth - 1, fits);
      ItemsStart(body, items, "]" + more);
    }
  }

  lemma PaddedStarts(s: string, v: Json, more: string)
    requires Padded(s, v)
    ensures Starts(SkipSpace(s + more))
  {
    var a, x, b :| Space(a) && Spells(x, v) && Space(b) && s == a + (x + b);
    SpelledStarts(x, v);
    Regroup(a, x + b, more);
    Regroup(x, b, more);
    SkipPrefix(a, x + (b + more));
  }

  lemma ItemsStart(s: string, items: Items, more: string)
    requires items.Item? && SpellsItems(s, items)
    ensures Starts(SkipSpace(s + more))
  {
    if items.tail.NoItems? {
      PaddedStarts(s, items.head, more);
    } else {
      var first, rest :| Padded(first, items.head) && SpellsItems(rest, items.tail) && s == first + ("," + rest);
      Regroup(first, "," + rest, more);
      PaddedStarts(first, items.head, ("," + rest) + more);
    }
  }

  /** What may follow a value inside a container. */
  predicate Follows(next: string) {
    next != [] && (next[0] == ',' || next[0] == ']' || next[0] == '}')
  }

  lemma SpaceEnds(b: string, next: string)
    requires Space(b) && Follows(next)
    ensures Ends(b + next) && SkipSpace(b + next) == next
  {
    SkipPrefix(b, next);
    if b == [] {
      assert b + next == next;
    } else {
      assert IsSpace((b + next)[0]);
    }
  }

  /** A value with white space around it is read, up to white space in front of what follows. */
  lemma {:induction false} PaddedReads(s: string, v: Json, next: string, depth: nat, fits: Range) returns (rest: string)
    requires Padded(s, v) && Readable(v, depth, fits) && Follows(next)
    ensures ParseValue(s + next, depth, fits) == Ok(v, rest) && SkipSpace(rest) == next
    decreases v, 1
  {
    var a, x, b :| Space(a) && Spells(x, v) && Space(b) && s == a + (x + b);
    rest := b + next;
    SpaceEnds(b, next);
    CoreReads(x, v, rest, depth, fits);
    SpelledStarts(x, v);
    Regroup(a, x + b, next);
    Regroup(x, b, next);
    SkipPrefix(a, x + rest);
    SkipsFirst(s + next, depth, fits);
  }

  lemma ItemsEndAt(s: string, head: Json, rest: string, more: string, depth: nat, fits: Range)
    requires ParseValue(s, depth, fits) == Ok(head, rest) && SkipSpace(rest) == "]" + more
    ensures ParseItems(s, depth, fits) == Ok(Item(head, NoItems), more)
  {
    Behind(']', more);
  }

  lemma ItemsGoOnAt(s: string, head: Json, rest: string, body: string, depth: nat, fits: Range)
    requires ParseValue(s, depth, fits) == Ok(head, rest) && SkipSpace(rest) == "," + body
    requires ParseItems(body, depth, fits).Ok?
    ensures var p := ParseItems(body, depth, fits);
            ParseItems(s, depth, fits) == Ok(Item(head, p.value), p.rest)
  {
    Behind(',', body);
  }

  lemma {:induction false} ItemsRead(s: string, items: Items, more: string, depth: nat, fits: Range)
    requires items.Item? && SpellsItems(s, items) && ItemsReadable(items, depth, fits)
    ensures ParseItems(s + ("]" + more), depth, fits) == Ok(items, more)
    decreases items, 1
  {
    if items.tail.NoItems? {
      Behind(']', more);
      var after := PaddedReads(s, items.head, "]" + more, depth, fits);
      ItemsEndAt(s + ("]" + more), items.head, after, more, depth, fits);
    } else {
      var first, rest :| Padded(first, items.head) && SpellsItems(rest, items.tail) && s == first + ("," + rest);
      var body := rest + ("]" + more);
      Regroup(first, "," + rest, "]" + more);
      Regroup(",", rest, "]" + more);
      Behind(',', body);
      var after := PaddedReads(first, items.head, "," + body, depth, fits);
      ItemsRead(rest, items.tail, more, depth, fits);
      ItemsGoOnAt(first + ("," + body), items.head, after, body, depth, fits);
    }
  }

  // ------------------------------------------------------------------- objects

  lemma {:induction false} ObjectReads(x: string, m: Members, more: string, depth: nat, fits: Range)
    requires Spells(x, Object(m)) && Readable(Object(m), depth, fits)
    ensures ParseValue(x + more, depth, fits) == Ok(Object(m), more)
    decreases m, 2
  {
    if m.NoMembers? {
      var w :| Space(w) && x == "{" + w + "}";
      Bracketed('{', w, '}', more);
      ValueIsObject(x + more, x + more, w + ("}" + more), depth, fits);
      Behind('}', more);
      SkipPrefix(w, "}" + more);
    } else {
      var body :| SpellsMembers(body, m) && x == "{" + body + "}";
      Bracketed('{', body, '}', more);
      ValueIsObject(x + more, x + more, body + ("}" + more), depth, fits);
      MembersRead(body, m, more, depth - 1, fits);
    }
  }

  /** A name and its colon are read; the rest is `value`. */
  lemma NameReads(s: string, name: string, value: string) returns (colon: string)
    requires SpellsName(s, name)
    ensures var t := SkipSpace(s + value);
            && t != [] && t[0] == '"' && ParseText(t[1..]) == Ok(name, colon)
            && SkipSpace(colon) == ":" + value
  {
    var a, body, b :| Space(a) && SpellsText(body, name) && Space(b) && s == a + ("\"" + (body + ("\"" + (b + ":"))));
    colon := b + (":" + value);
    NameLayout(a, body, b, value);
    Behind('"', body + ("\"" + colon));
    SkipPrefix(a, "\"" + (body + ("\"" + colon)));
    TextReads(body, name, colon);
    Behind(':', value);
    SkipPrefix(b, ":" + value);
  }

  lemma MembersStepAt(s: string, name: string, colon: string, body: string, value: Json, after: string, depth: nat, fits: Range)
    requires s != [] && s[0] == '"' && ParseText(s[1..]) == Ok(name, colon) && SkipSpace(colon) == ":" + body
    requires ParseValue(body, depth, fits) == Ok(value, after)
    ensures ParseMembers(s, depth, fits) == ParseMore(name, value, SkipSpace(after), depth, fits)
  {
    Behind(':', body);
  }

  /** One member, up to what follows it. */
  lemma {:induction false} MemberReads(n: string, v: string, m: Members, next: string, depth: nat, fits: Range)
    requires m.Member? && SpellsName(n, m.name) && Padded(v, m.value) && Readable(m.value, depth, fits) && Follows(next)
    ensures var s := SkipSpace(n + (v + next));
            s != [] && s[0] == '"' && ParseMembers(s, depth, fits) == ParseMore(m.name, m.value, next, depth, fits)
    decreases m, 0
  {
    var colon := NameReads(n, m.name, v + next);
    var after := PaddedReads(v, m.value, next, depth, fits);
    MembersStepAt(SkipSpace(n + (v + next)), m.name, colon, v + next, m.value, after, depth, fits);
  }

  lemma {:induction false} MembersRead(s: string, m: Members, more: string, depth: nat, fits: Range)
    requires m.Member? && SpellsMembers(s, m) && MembersReadable(m, depth, fits)
    ensures var t := SkipSpace(s + ("}" + more)); t != [] && t[0] == '"' && ParseMembers(t, depth, fits) == Ok(m, more)
    decreases m, 1
  {
    if m.tail.NoMembers? {
      var n, v :| SpellsName(n, m.name) && Padded(v, m.value) && s == n + v;
      Regroup(n, v, "}" + more);
      Behind('}', more);
      MemberReads(n, v, m, "}" + more, depth, fits);
      MoreEnds(m.name, m.value, "}" + more, depth, fits);
    } else {
      var n, v, rest :|
        SpellsName(n, m.name) && Padded(v, m.value) && SpellsMembers(rest, m.tail) && s == n + (v + ("," + rest));
      var body := rest + ("}" + more);
      Regroup(n, v + ("," + rest), "}" + more);
      Regroup(v, "," + rest, "}" + more);
      Regroup(",", rest, "}" + more);
      Behind(',', body);
      MemberReads(n, v, m, "," + body, depth, fits);
      MembersRead(rest, m.tail, more, depth, fits);
      MoreGoesOn(m.name, m.value, "," + body, m.tail, more, depth, fits);
    }
  }

  // --------------------------------------------------------------- whole texts

  lemma {:induction false} SpaceSkips(w: string)
    ensures Space(w) <==> SkipSpace(w) == []
  {
    if w != [] && IsSpace(w[0]) {
      SpaceSkips(w[1..]);
      assert w == [w[0]] + w[1..];
    }
  }

  lemma AcceptedIsSpelled(text: string, v: Json, fits: Range)
    requires Parse(text, fits) == Ok(v, [])
    ensures Padded(text, v) && Readable(v, DEPTH, fits)
  {
    var a, x := ValueSound(text, DEPTH, fits);
    SpaceSkips(ParseValue(text, DEPTH, fits).rest);
  }

  lemma SpelledIsAccepted(text: string, v: Json, fits: Range)
    requires Padded(text, v) && Readable(v, DEPTH, fits)
    ensures Parse(text, fits) == Ok(v, [])
  {
    var a, x, b :| Space(a) && Spells(x, v) && Space(b) && text == a + (x + b);
    SpaceSkips(b);
    assert Ends(b);
    CoreReads(x, v, b, DEPTH, fits);
    SpelledStarts(x, v);
    SkipPrefix(a, x + b);
    SkipsFirst(text, DEPTH, fits);
  }

  /**
   The reader is the grammar: it returns a value exactly for the texts that spell it
   with white space around its tokens, when its numbers fit and it is not too deep.
  */
  lemma ReadsExactly(text: string, v: Json, fits: Range)
    ensures Parse(text, fits) == Ok(v, []) <==> (Padded(text, v) && Readable(v, DEPTH, fits))
  {
    if Parse(text, fits) == Ok(v, []) {
      AcceptedIsSpelled(text, v, fits);
    }
    if Padded(text, v) && Readable(v, DEPTH, fits) {
      SpelledIsAccepted(text, v, fits);
    }
  }

  /** No text spells two values. */
  lemma SpellsOneValue(text: string, v: Json, w: Json, fits: Range)
    requires Padded(text, v) && Padded(text, w) && Readable(v, DEPTH, fits) && Readable(w, DEPTH, fits)
    ensures v == w
  {
    SpelledIsAccepted(text, v, fits);
    SpelledIsAccepted(text, w, fits);
  }
}
