/** What the reader in `Json` accepts is spelled by the grammar: white space around the tokens of the value it returns. */
module JsonSound {
  import opened Json
  import opened JsonGrammar
  import opened Seqs

  // ------------------------------------------------------------------- numbers

  lemma {:induction false} CountedAreDigits(s: string)
    ensures AllDigits(s[..CountDigits(s)])
  {
    if s != [] && IsDigit(s[0]) {
      CountedAreDigits(s[1..]);
      var n := CountDigits(s[1..]);
      assert s[..n + 1] == [s[0]] + s[1..][..n];
    }
  }

  lemma WholeSound(s: string)
    requires WholeLength(s) > 0
    ensures IsWhole(s[..WholeLength(s)])
  {
    var sign := if s[0] == '-' then 1 else 0;
    var w := s[..WholeLength(s)];
    CountedAreDigits(s[sign..]);
    assert w[sign..] == s[sign..][..CountDigits(s[sign..])];
    assert w[0] == s[0];
  }

  lemma FractionSound(s: string)
    requires FractionLength(s) >= 0
    ensures IsFraction(s[..FractionLength(s)])
  {
    if FractionLength(s) > 0 {
      var f := s[..FractionLength(s)];
      CountedAreDigits(s[1..]);
      assert f[0] == s[0] && f[1..] == s[1..][..CountDigits(s[1..])];
    }
  }

  lemma ExponentSound(s: string)
    requires ExponentLength(s) >= 0
    ensures IsExponent(s[..ExponentLength(s)])
  {
    if ExponentLength(s) > 0 {
      var e := s[..ExponentLength(s)];
      var sign := if s[1] == '+' || s[1] == '-' then 1 else 0;
      CountedAreDigits(s[1 + sign..]);
      assert e[0] == s[0] && e[1] == s[1];
      assert e[1 + sign..] == s[1 + sign..][..CountDigits(s[1 + sign..])];
    }
  }

  lemma TakeThree(s: string, a: nat, b: nat, c: nat)
    requires a + b + c <= |s|
    ensures s[..a + b + c] == s[..a] + (s[a..][..b] + s[a + b..][..c])
  {
  }

  lemma PartsSound(s: string, a: nat, b: nat, c: nat)
    requires a > 0 && WholeLength(s) == a && FractionLength(s[a..]) == b
    requires a + b + c <= |s| && ExponentLength(s[a + b..]) == c
    ensures NumberParts(s[..a + b + c], s[..a], s[a..][..b], s[a + b..][..c])
  {
    WholeSound(s);
    FractionSound(s[a..]);
    ExponentSound(s[a + b..]);
    TakeThree(s, a, b, c);
  }

  lemma NumberSplits(s: string) returns (a: nat, b: nat, c: nat)
    requires NumberLength(s) > 0
    ensures a > 0 && WholeLength(s) == a && FractionLength(s[a..]) == b
    ensures a + b + c == NumberLength(s) && ExponentLength(s[a + b..]) == c
  {
    a := WholeLength(s);
    b := FractionLength(s[a..]);
    c := ExponentLength(s[a + b..]);
  }

  lemma PartsMakeNumber(lexeme: string, whole: string, fraction: string, exponent: string)
    requires NumberParts(lexeme, whole, fraction, exponent)
    ensures IsNumber(lexeme)
  {
  }

  /** What the number reader takes is a number. */
  lemma NumberSound(s: string)
    requires NumberLength(s) > 0
    ensures IsNumber(s[..NumberLength(s)])
  {
    var a, b, c := NumberSplits(s);
    PartsSound(s, a, b, c);
    PartsMakeNumber(s[..a + b + c], s[..a], s[a..][..b], s[a + b..][..c]);
  }

  // ------------------------------------------------------------------- strings

  lemma HexPrefix(s: string, t: string)
    requires |s| >= 4 && |t| >= 4 && s[..4] == t[..4]
    ensures HexWord(s) == HexWord(t)
  {
    assert s[0] == s[..4][0] && s[1] == s[..4][1] && s[2] == s[..4][2] && s[3] == s[..4][3];
  }

  lemma UnicodeSound(s: string)
    requires ParseUnicode(s).Ok?
    ensures var p := ParseUnicode(s);
            var k := |s| - |p.rest|;
            s[k..] == p.rest && SpellsChar("\\u" + s[..k], p.value)
  {
    var p := ParseUnicode(s);
    var k := |s| - |p.rest|;
    var unit := "\\u" + s[..k];
    HexPrefix(unit[2..], s);
    if k == 10 {
      assert unit[8..] == s[6..10];
      HexPrefix(unit[8..], s[6..]);
    }
  }

  lemma BehindLetter(s: string, k: nat)
    requires 1 <= k <= |s| && s[0] == 'u'
    ensures "\\" + s[..k] == "\\u" + s[1..][..k - 1] && s[1..][k - 1..] == s[k..]
  {
  }

  lemma ShortSound(s: string)
    requires ParseEscape(s).Ok? && s[0] != 'u'
    ensures var p := ParseEscape(s); p.rest == s[1..] && SpellsChar("\\" + s[..1], p.value)
  {
  }

  lemma EscapeSound(s: string)
    requires ParseEscape(s).Ok?
    ensures var p := ParseEscape(s);
            var k := |s| - |p.rest|;
            s[k..] == p.rest && SpellsChar("\\" + s[..k], p.value)
  {
    if s[0] == 'u' {
      UnicodeSound(s[1..]);
      BehindLetter(s, |s| - |ParseEscape(s).rest|);
    } else {
      ShortSound(s);
    }
  }

  lemma SpellsTextCons(unit: string, c: char, body: string, text: string)
    requires unit != [] && SpellsChar(unit, c) && SpellsText(body, text)
    ensures SpellsText(unit + body, [c] + text)
  {
    var all, both := unit + body, [c] + text;
    assert all[..|unit|] == unit && all[|unit|..] == body && both[1..] == text;
  }

  /** The first character of a text that does not end at once. */
  lemma CharSound(s: string) returns (unit: string, c: char, rest: string)
    requires ParseText(s).Ok? && s[0] != '"'
    ensures unit != [] && SpellsChar(unit, c) && s == unit + rest
    ensures ParseText(rest).Ok? && ParseText(s) == Ok([c] + ParseText(rest).value, ParseText(rest).rest)
  {
    if s[0] == '\\' {
      var p := ParseEscape(s[1..]);
      var k := |s| - |p.rest|;
      EscapeSound(s[1..]);
      assert "\\" + s[1..][..k - 1] == s[..k];
      unit, c, rest := s[..k], p.value, p.rest;
    } else {
      unit, c, rest := [s[0]], s[0], s[1..];
    }
  }

  lemma {:induction false} TextSound(s: string) returns (body: string)
    requires ParseText(s).Ok?
    ensures SpellsText(body, ParseText(s).value) && s == body + ("\"" + ParseText(s).rest)
    decreases |s|
  {
    if s[0] == '"' {
      body := [];
      assert s == "\"" + s[1..];
    } else {
      var unit, c, rest := CharSound(s);
      var tail := TextSound(rest);
      body := unit + tail;
      SpellsTextCons(unit, c, tail, ParseText(rest).value);
      Regroup(unit, tail, "\"" + ParseText(s).rest);
    }
  }

  // -------------------------------------------------------------------- values

  /** The white space in front of `s`. */
  function Front(s: string): string {
    s[..|s| - |SkipSpace(s)|]
  }

  lemma FrontIsSpace(s: string)
    ensures Space(Front(s)) && s == Front(s) + SkipSpace(s)
  {
    SkippedIsSpace(s);
  }

  lemma HeadThenTail(s: string)
    requires s != []
    ensures s == [s[0]] + s[1..]
  {
  }

  /** A bracketed text, from its first character. */
  lemma Bracketed(open: char, body: string, close: char, more: string)
    ensures var t := ([open] + body + [close]) + more;
            t == [open] + (body + ([close] + more)) && t != [] && t[0] == open && t[1..] == body + ([close] + more)
  {
  }

  lemma ItemsSkipFirst(s: string, depth: nat, fits: Range)
    ensures ParseItems(s, depth, fits) == ParseItems(SkipSpace(s), depth, fits)
  {
    SkipsFirst(s, depth, fits);
  }

  /** An array's text, from its bracket. */
  lemma {:induction false} ArraySound(t: string, depth: nat, fits: Range) returns (x: string)
    requires t != [] && t[0] == '[' && ParseArray(SkipSpace(t[1..]), depth, fits).Ok?
    ensures var p := ParseArray(SkipSpace(t[1..]), depth, fits);
            && p.value.Array? && Spells(x, p.value) && ItemsReadable(p.value.items, depth, fits)
            && t == x + p.rest
    decreases |t|, 0
  {
    var u := SkipSpace(t[1..]);
    var p := ParseArray(u, depth, fits);
    HeadThenTail(t);
    if u != [] && u[0] == ']' {
      FrontIsSpace(t[1..]);
      HeadThenTail(u);
      Bracketed('[', Front(t[1..]), ']', p.rest);
      x := "[" + Front(t[1..]) + "]";
    } else {
      ItemsSkipFirst(t[1..], depth, fits);
      var body := ItemsSound(t[1..], depth, fits);
      Bracketed('[', body, ']', p.rest);
      x := "[" + body + "]";
    }
  }

  lemma {:induction false} ObjectSound(t: string, depth: nat, fits: Range) returns (x: string)
    requires t != [] && t[0] == '{' && ParseObject(SkipSpace(t[1..]), depth, fits).Ok?
    ensures var p := ParseObject(SkipSpace(t[1..]), depth, fits);
            && p.value.Object? && Spells(x, p.value) && MembersReadable(p.value.members, depth, fits)
            && t == x + p.rest
    decreases |t|, 0
  {
    var u := SkipSpace(t[1..]);
    var p := ParseObject(u, depth, fits);
    HeadThenTail(t);
    FrontIsSpace(t[1..]);
    if u != [] && u[0] == '}' {
      HeadThenTail(u);
      Bracketed('{', Front(t[1..]), '}', p.rest);
      x := "{" + Front(t[1..]) + "}";
    } else {
      MembersExist(u, depth, fits);
      var body := MembersSound(Front(t[1..]), u, depth, fits);
      Bracketed('{', body, '}', p.rest);
      x := "{" + body + "}";
    }
  }

  /** A value's text, from its first character. */
  lemma {:induction false} CoreSound(t: string, depth: nat, fits: Range) returns (x: string)
    requires SkipSpace(t) == t && ParseValue(t, depth, fits).Ok?
    ensures var p := ParseValue(t, depth, fits);
            Spells(x, p.value) && Readable(p.value, depth, fits) && t == x + p.rest
    decreases |t|, 1
  {
    var p := ParseValue(t, depth, fits);
    if t[0] == '"' {
      var body := TextSound(t[1..]);
      HeadThenTail(t);
      Bracketed('"', body, '"', p.rest);
      x := "\"" + body + "\"";
    } else if t[0] == '[' {
      x := ArraySound(t, depth - 1, fits);
    } else if t[0] == '{' {
      x := ObjectSound(t, depth - 1, fits);
    } else {
      x := t[..|t| - |p.rest|];
      PlainSound(t, depth, fits);
    }
  }

  lemma NumberValueSound(t: string, n: nat, depth: nat, fits: Range)
    requires NumberLength(t) == n > 0 && fits(t[..n])
    ensures Spells(t[..n], Number(t[..n])) && Readable(Number(t[..n]), depth, fits) && t == t[..n] + t[n..]
  {
    NumberSound(t);
  }

  lemma PlainSound(t: string, depth: nat, fits: Range)
    requires SkipSpace(t) == t && ParseValue(t, depth, fits).Ok? && t[0] != '"' && t[0] != '[' && t[0] != '{'
    ensures var p := ParseValue(t, depth, fits);
            var x := t[..|t| - |p.rest|];
            Spells(x, p.value) && Readable(p.value, depth, fits) && t == x + p.rest
  {
    if !("null" <= t) && !("true" <= t) && !("false" <= t) {
      NumberValueSound(t, NumberLength(t), depth, fits);
    }
  }

  lemma {:induction false} ValueSound(s: string, depth: nat, fits: Range) returns (a: string, x: string)
    requires ParseValue(s, depth, fits).Ok?
    ensures var p := ParseValue(s, depth, fits);
            Space(a) && Spells(x, p.value) && Readable(p.value, depth, fits) && s == a + (x + p.rest)
    decreases |s|, 2
  {
    SkipsFirst(s, depth, fits);
    FrontIsSpace(s);
    a := Front(s);
    x := CoreSound(SkipSpace(s), depth, fits);
  }

  /** A value and the white space after it. */
  lemma {:induction false} PaddedSound(s: string, depth: nat, fits: Range) returns (first: string)
    requires ParseValue(s, depth, fits).Ok?
    ensures var p := ParseValue(s, depth, fits);
            Padded(first, p.value) && Readable(p.value, depth, fits) && s == first + SkipSpace(p.rest)
    decreases |s|, 3
  {
    var p := ParseValue(s, depth, fits);
    var a, x := ValueSound(s, depth, fits);
    FrontIsSpace(p.rest);
    var b := Front(p.rest);
    first := a + (x + b);
    Regroup(x, b, SkipSpace(p.rest));
    Regroup(a, x + b, SkipSpace(p.rest));
  }

  lemma {:induction false} ItemsSound(s: string, depth: nat, fits: Range) returns (body: string)
    requires ParseItems(s, depth, fits).Ok?
    ensures var p := ParseItems(s, depth, fits);
            && p.value.Item? && SpellsItems(body, p.value) && ItemsReadable(p.value, depth, fits)
            && s == body + ("]" + p.rest)
    decreases |s|, 4
  {
    var p := ParseItems(s, depth, fits);
    var v := ParseValue(s, depth, fits);
    var t := SkipSpace(v.rest);
    var first := PaddedSound(s, depth, fits);
    HeadThenTail(t);
    if t[0] == ']' {
      body := first;
    } else {
      var rest := ItemsSound(t[1..], depth, fits);
      body := first + ("," + rest);
      Regroup(",", rest, "]" + p.rest);
      Regroup(first, "," + rest, "]" + p.rest);
    }
  }

  lemma NameLayout(w: string, body: string, b: string, rest: string)
    ensures w + ("\"" + (body + ("\"" + (b + (":" + rest))))) == (w + ("\"" + (body + ("\"" + (b + ":"))))) + rest
  {
    Regroup(b, ":", rest);
    Regroup("\"", b + ":", rest);
    Regroup(body, "\"" + (b + ":"), rest);
    Regroup("\"", body + ("\"" + (b + ":")), rest);
    Regroup(w, "\"" + (body + ("\"" + (b + ":"))), rest);
  }

  /** A name with the white space `w` before it, up to its colon. */
  lemma NameSound(w: string, s: string) returns (name: string)
    requires Space(w) && s != [] && s[0] == '"' && ParseText(s[1..]).Ok?
    requires var t := SkipSpace(ParseText(s[1..]).rest); t != [] && t[0] == ':'
    ensures SpellsName(name, ParseText(s[1..]).value)
    ensures w + s == name + SkipSpace(ParseText(s[1..]).rest)[1..]
  {
    var r := ParseText(s[1..]).rest;
    var body := TextSound(s[1..]);
    FrontIsSpace(r);
    HeadThenTail(s);
    HeadThenTail(SkipSpace(r));
    name := w + ("\"" + (body + ("\"" + (Front(r) + ":"))));
    NameLayout(w, body, Front(r), SkipSpace(r)[1..]);
  }

  lemma {:induction false} MembersSound(w: string, s: string, depth: nat, fits: Range) returns (body: string)
    requires Space(w) && ParseMembers(s, depth, fits).Ok?
    ensures var p := ParseMembers(s, depth, fits);
            && p.value.Member? && SpellsMembers(body, p.value) && MembersReadable(p.value, depth, fits)
            && w + s == body + ("}" + p.rest)
    decreases |s|, 4
  {
    var p := ParseMembers(s, depth, fits);
    var name := NameSound(w, s);
    var t := SkipSpace(ParseText(s[1..]).rest);
    var v := ParseValue(t[1..], depth, fits);
    var value := PaddedSound(t[1..], depth, fits);
    var u := SkipSpace(v.rest);
    HeadThenTail(u);
    if u[0] == '}' {
      body := name + value;
      Regroup(name, value, "}" + p.rest);
    } else {
      FrontIsSpace(u[1..]);
      var rest := MembersSound(Front(u[1..]), SkipSpace(u[1..]), depth, fits);
      body := name + (value + ("," + rest));
      Regroup(",", rest, "}" + p.rest);
      Regroup(value, "," + rest, "}" + p.rest);
      Regroup(name, value + ("," + rest), "}" + p.rest);
    }
  }
}
