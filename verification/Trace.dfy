/**
 W3C trace context carried in a job's metadata (crates/flexiq-core/src/trace.rs):
 which headers make a context, and splicing one into metadata text as JSON members
 without touching the caller's own text.
*/
module Trace {
  import opened Json
  import opened JsonExact
  import opened JsonGrammar
  import opened JsonText
  import opened Seqs
  import opened Wrappers
  import Utf8

  const TRACEPARENT := "traceparent"
  const TRACESTATE := "tracestate"
  const MAX_TRACESTATE_BYTES := 512

  datatype TraceContext = TraceContext(traceparent: string, tracestate: Option<string>)

  // -------------------------------------------------------------------- headers

  /** Unicode's `White_Space`, which is what Rust's `trim` removes. */
  predicate IsWhite(c: char) {
    var n := c as int;
    || 0x9 <= n <= 0xd || n == 0x20 || n == 0x85 || n == 0xa0 || n == 0x1680
    || 0x2000 <= n <= 0x200a || n == 0x2028 || n == 0x2029 || n == 0x202f || n == 0x205f || n == 0x3000
  }

  function TrimStart(s: string): (t: string)
    ensures |t| <= |s| && s[|s| - |t|..] == t
    ensures forall i :: 0 <= i < |s| - |t| ==> IsWhite(s[i])
    ensures t != [] ==> !IsWhite(t[0])
  {
    if s != [] && IsWhite(s[0]) then TrimStart(s[1..]) else s
  }

  function TrimEnd(s: string): (t: string)
    ensures |t| <= |s|
  {
    if s != [] && IsWhite(s[|s| - 1]) then TrimEnd(s[..|s| - 1]) else s
  }

  function Trim(s: string): string {
    TrimEnd(TrimStart(s))
  }

  predicate IsAscii(s: string) {
    forall i :: 0 <= i < |s| ==> s[i] as int < 0x80
  }

  predicate IsLowerHex(s: string) {
    forall i :: 0 <= i < |s| ==> '0' <= s[i] <= '9' || 'a' <= s[i] <= 'f'
  }

  predicate IsZero(s: string) {
    forall i :: 0 <= i < |s| ==> s[i] == '0'
  }

  /** The check as it is written: by offsets into the value. */
  predicate IsValidTraceparent(v: string) {
    && IsAscii(v) && |v| >= 55 && (|v| > 55 ==> v[55] == '-')
    && (v[..2] == "00" ==> |v| == 55)
    && v[2] == '-' && v[35] == '-' && v[52] == '-'
    && IsLowerHex(v[0..2]) && IsLowerHex(v[3..35]) && IsLowerHex(v[36..52]) && IsLowerHex(v[53..55])
    && v[..2] != "ff" && !IsZero(v[3..35]) && !IsZero(v[36..52])
  }

  /** The same value by its fields; `more` is what a later version appends. */
  predicate HasFields(v: string, version: string, trace: string, parent: string, flags: string, more: string) {
    && v == version + "-" + trace + "-" + parent + "-" + flags + more
    && |version| == 2 && |trace| == 32 && |parent| == 16 && |flags| == 2
    && IsLowerHex(version) && IsLowerHex(trace) && IsLowerHex(parent) && IsLowerHex(flags)
    && version != "ff" && !IsZero(trace) && !IsZero(parent)
    && IsAscii(more) && (more != [] ==> more[0] == '-' && version != "00")
  }

  lemma FieldsAt(v: string, version: string, trace: string, parent: string, flags: string, more: string)
    requires HasFields(v, version, trace, parent, flags, more)
    ensures |v| >= 55 && v[..2] == version && v[3..35] == trace && v[36..52] == parent && v[53..55] == flags
    ensures v[55..] == more && v[2] == '-' && v[35] == '-' && v[52] == '-'
  {
    var a := version + "-";
    var b := a + trace;
    var c := b + "-";
    var d := c + parent;
    var e := d + "-";
    assert e + flags <= v;
    PartAt(e, flags, v);
    PartAt(d, "-", v);
    PartAt(c, parent, v);
    PartAt(b, "-", v);
    PartAt(a, trace, v);
    PartAt(version, "-", v);
  }

  lemma PartAt(before: string, part: string, s: string)
    requires before + part <= s
    ensures before <= s && s[|before|..|before| + |part|] == part
    ensures |part| == 1 ==> s[|before|] == part[0]
  {
    var whole := before + part;
    assert before == whole[..|before|] && part == whole[|before|..];
  }

  /** A value is valid exactly when it has the fields W3C Trace Context gives it. */
  lemma ValidIffFields(v: string)
    ensures IsValidTraceparent(v) <==>
            exists version, trace, parent, flags, more :: HasFields(v, version, trace, parent, flags, more)
  {
    if IsValidTraceparent(v) {
      assert v == v[..2] + "-" + v[3..35] + "-" + v[36..52] + "-" + v[53..55] + v[55..];
      assert HasFields(v, v[..2], v[3..35], v[36..52], v[53..55], v[55..]);
    }
    if version, trace, parent, flags, more :| HasFields(v, version, trace, parent, flags, more) {
      FieldsAt(v, version, trace, parent, flags, more);
      FieldsAscii(v, version, trace, parent, flags, more);
    }
  }

  lemma FieldsAscii(v: string, version: string, trace: string, parent: string, flags: string, more: string)
    requires HasFields(v, version, trace, parent, flags, more)
    ensures IsAscii(v)
  {
  }

  /** A `tracestate` that is neither blank nor too long. */
  function StateOf(header: Option<string>): Option<string> {
    if header.None? then None
    else
      var t := Trim(header.value);
      if t == [] || |Utf8.EncodeText(t)| > MAX_TRACESTATE_BYTES then None else Some(t)
  }

  function FromHeaders(traceparent: Option<string>, tracestate: Option<string>): Option<TraceContext> {
    if traceparent.None? then None
    else
      var parent := Trim(traceparent.value);
      if IsValidTraceparent(parent) then Some(TraceContext(parent, StateOf(tracestate))) else None
  }

  lemma {:induction false} TrimEndTrimmed(s: string)
    ensures var t := TrimEnd(s); t == s[..|t|] && (t != [] ==> !IsWhite(t[|t| - 1]))
  {
    if s != [] && IsWhite(s[|s| - 1]) {
      TrimEndTrimmed(s[..|s| - 1]);
      assert s[..|s| - 1][..|TrimEnd(s)|] == s[..|TrimEnd(s)|];
    }
  }

  lemma TrimTwice(s: string)
    ensures Trim(Trim(s)) == Trim(s)
  {
    TrimEndTrimmed(TrimStart(s));
    var t := Trim(s);
    assert t != [] ==> !IsWhite(t[0]) && !IsWhite(t[|t| - 1]);
  }

  lemma StateRereads(header: Option<string>)
    ensures StateOf(StateOf(header)) == StateOf(header)
  {
    if header.Some? {
      TrimTwice(header.value);
    }
  }

  /** The values a context carries, read as headers again, make the same context. */
  lemma ContextRereads(traceparent: string, tracestate: Option<string>)
    requires FromHeaders(Some(traceparent), tracestate).Some?
    ensures var c := FromHeaders(Some(traceparent), tracestate).value;
            FromHeaders(Some(c.traceparent), c.tracestate) == Some(c)
  {
    TrimTwice(traceparent);
    StateRereads(tracestate);
  }

  // ------------------------------------------------------------------- the splice

  function Entry(name: string, value: string): string {
    "\"" + name + "\":" + Quote(value)
  }

  function Entries(c: TraceContext): string {
    if c.tracestate.None? then Entry(TRACEPARENT, c.traceparent)
    else Entry(TRACEPARENT, c.traceparent) + "," + Entry(TRACESTATE, c.tracestate.value)
  }

  predicate NamesCarrier(m: Members) {
    TRACEPARENT in Names(m) || TRACESTATE in Names(m)
  }

  /** The text names members to add to: an object that carries no context yet. */
  predicate Spliceable(text: string, fits: Range) {
    var p := Parse(text, fits);
    p.Ok? && p.value.Object? && !NamesCarrier(p.value.members)
  }

  /** Where the object's brace is, and what is written after it. */
  function BraceAt(text: string): nat {
    |text| - |TrimStart(text)|
  }

  function Spliced(c: TraceContext, text: string, fits: Range): string
    requires Spliceable(text, fits)
  {
    Entries(c) + if Parse(text, fits).value.members.NoMembers? then "" else ","
  }

  lemma {:induction false} SkipIsTrim(s: string)
    requires var t := SkipSpace(s); t != [] && !IsWhite(t[0])
    ensures TrimStart(s) == SkipSpace(s)
  {
    if s != [] && IsSpace(s[0]) {
      SkipIsTrim(s[1..]);
    }
  }

  lemma TrimmedAtBrace(text: string)
    requires var t := SkipSpace(text); t != [] && t[0] == '{'
    ensures BraceAt(text) < |text| && text[BraceAt(text)] == '{' && SkipSpace(text) == text[BraceAt(text)..]
  {
    SkipIsTrim(text);
    assert text[BraceAt(text)..] == TrimStart(text);
  }

  /** A parsed object's first character that is not white is its brace. */
  lemma BraceFound(text: string, fits: Range)
    requires Spliceable(text, fits)
    ensures BraceAt(text) < |text| && text[BraceAt(text)] == '{'
    ensures SkipSpace(text) == text[BraceAt(text)..]
  {
    ObjectStarts(text, DEPTH, fits);
    TrimmedAtBrace(text);
  }

  lemma {:induction false} TrimKeeps(s: string, i: nat)
    requires i < |s| && !IsWhite(s[i])
    ensures Trim(s) != []
    decreases i
  {
    if IsWhite(s[0]) {
      TrimKeeps(s[1..], i - 1);
    } else {
      TrimEndKeeps(s);
    }
  }

  lemma {:induction false} TrimEndKeeps(s: string)
    requires s != [] && !IsWhite(s[0])
    ensures TrimEnd(s) != []
  {
    if IsWhite(s[|s| - 1]) {
      TrimEndKeeps(s[..|s| - 1]);
    }
  }

  lemma SpliceableNotBlank(text: string, fits: Range)
    requires Spliceable(text, fits)
    ensures Trim(text) != []
  {
    BraceFound(text, fits);
    TrimKeeps(text, BraceAt(text));
  }

  function MergeInto(c: TraceContext, metadata: Option<string>, fits: Range): string {
    if metadata.None? || Trim(metadata.value) == [] then "{" + Entries(c) + "}"
    else if !Spliceable(metadata.value, fits) then metadata.value
    else
      BraceFound(metadata.value, fits);
      var cut := BraceAt(metadata.value) + 1;
      metadata.value[..cut] + Spliced(c, metadata.value, fits) + metadata.value[cut..]
  }

  /** The members the context adds. */
  function Carrier(c: TraceContext): Members {
    var state := if c.tracestate.None? then NoMembers else Member(TRACESTATE, String(c.tracestate.value), NoMembers);
    Member(TRACEPARENT, String(c.traceparent), state)
  }

  // ------------------------------------------------------- what the splice reads as

  lemma EntrySplits(name: string, value: string, more: string)
    ensures var s, rest := Entry(name, value) + more, ":" + (Quote(value) + more);
            && s != [] && s[0] == '"' && s[1..] == name + "\"" + rest
            && rest[0] == ':' && rest[1..] == Quote(value) + more
  {
  }

  /** A written entry reads as a member, and reading goes on after it. */
  lemma EntryReads(name: string, value: string, more: string, depth: nat, fits: Range)
    requires Plain(name)
    ensures ParseMembers(Entry(name, value) + more, depth, fits)
            == ParseMore(name, String(value), SkipSpace(more), depth, fits)
  {
    var rest := ":" + (Quote(value) + more);
    EntrySplits(name, value, more);
    PlainEscape(name);
    QuoteReads(name, rest);
    QuotedReads(value, more, depth, fits);
    MembersStep(Entry(name, value) + more, name, rest, String(value), more, depth, fits);
  }

  /** Lower-case letters, which a JSON string holds as they are. */
  predicate Plain(name: string) {
    forall i :: 0 <= i < |name| ==> 'a' <= name[i] <= 'z'
  }

  lemma {:induction false} PlainEscape(s: string)
    requires Plain(s)
    ensures Escape(s) == s
  {
    if s != [] {
      PlainEscape(s[1..]);
      assert s == [s[0]] + s[1..];
    }
  }

  /** What `more` leads to after a member: no more members, or a comma and the members `m`. */
  predicate Continues(more: string, m: Members, rest: string, depth: nat, fits: Range) {
    if m.NoMembers? then SkipSpace(more) == "}" + rest
    else |more| > 0 && more[0] == ',' && ParseMembers(SkipSpace(more[1..]), depth, fits) == Ok(m, rest)
  }

  lemma MoreReads(name: string, value: Json, more: string, m: Members, rest: string, depth: nat, fits: Range)
    requires Continues(more, m, rest, depth, fits)
    ensures ParseMore(name, value, SkipSpace(more), depth, fits) == Ok(Member(name, value, m), rest)
  {
    if m.NoMembers? {
      MoreEnds(name, value, "}" + rest, depth, fits);
      assert ("}" + rest)[1..] == rest;
    } else {
      MoreGoesOn(name, value, more, m, rest, depth, fits);
    }
  }

  lemma EntryThenMore(name: string, value: string, more: string, m: Members, rest: string, depth: nat, fits: Range)
    requires Plain(name) && Continues(more, m, rest, depth, fits)
    ensures ParseMembers(Entry(name, value) + more, depth, fits) == Ok(Member(name, String(value), m), rest)
  {
    EntryReads(name, value, more, depth, fits);
    MoreReads(name, String(value), more, m, rest, depth, fits);
  }

  lemma CommaContinues(s: string, m: Members, rest: string, depth: nat, fits: Range)
    requires s != [] && s[0] == '"' && ParseMembers(s, depth, fits) == Ok(m, rest)
    ensures Continues("," + s, m, rest, depth, fits)
  {
    MembersExist(s, depth, fits);
    assert ("," + s)[1..] == s && SkipSpace(s) == s;
  }

  lemma EntryStarts(name: string, value: string, more: string)
    ensures var s := Entry(name, value) + more; s != [] && s[0] == '"'
  {
  }

  lemma TwoEntriesRead(
    a: string, v: string, b: string, w: string, more: string, m: Members, rest: string, depth: nat, fits: Range)
    requires Plain(a) && Plain(b) && Continues(more, m, rest, depth, fits)
    ensures ParseMembers(Entry(a, v) + ("," + (Entry(b, w) + more)), depth, fits)
            == Ok(Member(a, String(v), Member(b, String(w), m)), rest)
  {
    EntryThenMore(b, w, more, m, rest, depth, fits);
    EntryStarts(b, w, more);
    CommaContinues(Entry(b, w) + more, Member(b, String(w), m), rest, depth, fits);
    EntryThenMore(a, v, "," + (Entry(b, w) + more), Member(b, String(w), m), rest, depth, fits);
  }

  /** The entries read as the carrier members, followed by whatever members come next. */
  lemma CarrierReads(c: TraceContext, more: string, m: Members, rest: string, depth: nat, fits: Range)
    requires Continues(more, m, rest, depth, fits)
    ensures ParseMembers(Entries(c) + more, depth, fits) == Ok(Append(Carrier(c), m), rest)
  {
    assert Append(NoMembers, m) == m;
    if c.tracestate.None? {
      EntryThenMore(TRACEPARENT, c.traceparent, more, m, rest, depth, fits);
    } else {
      var v, w := c.traceparent, c.tracestate.value;
      TwoEntriesRead(TRACEPARENT, v, TRACESTATE, w, more, m, rest, depth, fits);
      RegroupFour(Entry(TRACEPARENT, v), ",", Entry(TRACESTATE, w), more);
      assert Append(Member(TRACESTATE, String(w), NoMembers), m) == Member(TRACESTATE, String(w), m);
    }
  }

  lemma BehindBrace(body: string)
    ensures var t := "{" + body; t != [] && t[0] == '{' && t[1..] == body && !IsSpace(t[0])
  {
  }

  lemma Around(text: string, k: nat)
    requires k < |text|
    ensures text == text[..k] + ([text[k]] + text[k + 1..])
  {
  }

  /** White space, a brace, and members up to the closing one: an object's text. */
  lemma BracedReads(space: string, body: string, m: Members, rest: string, fits: Range)
    requires forall i :: 0 <= i < |space| ==> IsSpace(space[i])
    requires body != [] && body[0] == '"' && ParseMembers(body, DEPTH - 1, fits) == Ok(m, rest) && SkipSpace(rest) == []
    ensures Parse(space + ("{" + body), fits) == Ok(Object(m), [])
  {
    BehindBrace(body);
    SkipPrefix(space, "{" + body);
    assert SkipSpace(body) == body;
    ValueIsObject(space + ("{" + body), "{" + body, body, DEPTH, fits);
  }

  /** How a spliceable text is read: white space, a brace, and what `ObjectCases` tells apart. */
  lemma SpliceableReads(text: string, fits: Range) returns (space: string, tail: string, rest: string)
    requires Spliceable(text, fits)
    ensures BraceAt(text) < |text| && space == text[..BraceAt(text)] && tail == text[BraceAt(text) + 1..]
    ensures (forall i :: 0 <= i < |space| ==> IsSpace(space[i])) && text == space + ("{" + tail)
    ensures SkipSpace(rest) == []
    ensures ParseObject(SkipSpace(tail), DEPTH - 1, fits) == Ok(Object(Parse(text, fits).value.members), rest)
  {
    BraceFound(text, fits);
    SkippedIsSpace(text);
    space, tail := text[..BraceAt(text)], text[BraceAt(text) + 1..];
    rest := ParseValue(text, DEPTH, fits).rest;
    Around(text, BraceAt(text));
    ValueIsObject(text, SkipSpace(text), tail, DEPTH, fits);
  }

  lemma ObjectContinues(tail: string, m: Members, rest: string, depth: nat, fits: Range)
    requires ParseObject(SkipSpace(tail), depth, fits) == Ok(Object(m), rest)
    ensures Continues(if m.NoMembers? then tail else "," + tail, m, rest, depth, fits)
  {
    ObjectCases(SkipSpace(tail), m, rest, depth, fits);
    assert ("," + tail)[1..] == tail;
  }

  lemma Layout(space: string, tail: string, entries: string, separator: string)
    ensures var text, cut := space + ("{" + tail), |space| + 1;
            text[..cut] + (entries + separator) + text[cut..] == space + ("{" + (entries + (separator + tail)))
  {
  }

  lemma MergeIs(c: TraceContext, text: string, fits: Range)
    requires Spliceable(text, fits) && BraceAt(text) < |text|
    ensures var cut := BraceAt(text) + 1;
            MergeInto(c, Some(text), fits) == text[..cut] + Spliced(c, text, fits) + text[cut..]
  {
    SpliceableNotBlank(text, fits);
  }

  /** The merge, laid out as its reader meets it. */
  lemma MergedLayout(c: TraceContext, text: string, space: string, tail: string, fits: Range)
    requires Spliceable(text, fits) && BraceAt(text) == |space|
    requires text == space + ("{" + tail)
    ensures var more := if Parse(text, fits).value.members.NoMembers? then tail else "," + tail;
            MergeInto(c, Some(text), fits) == space + ("{" + (Entries(c) + more))
  {
    MergeIs(c, text, fits);
    if Parse(text, fits).value.members.NoMembers? {
      Layout(space, tail, Entries(c), "");
      assert "" + tail == tail;
    } else {
      Layout(space, tail, Entries(c), ",");
    }
  }

  lemma EntriesStart(c: TraceContext, more: string)
    ensures var s := Entries(c) + more; s != [] && s[0] == '"'
  {
  }

  /**
   Metadata that is an object naming neither key reads, after the merge, as the
   carrier members followed by its own, in order.
  */
  lemma MergedReads(c: TraceContext, text: string, fits: Range)
    requires Spliceable(text, fits)
    ensures Parse(MergeInto(c, Some(text), fits), fits)
            == Ok(Object(Append(Carrier(c), Parse(text, fits).value.members)), [])
  {
    var m := Parse(text, fits).value.members;
    var space, tail, rest := SpliceableReads(text, fits);
    var more := if m.NoMembers? then tail else "," + tail;
    ObjectContinues(tail, m, rest, DEPTH - 1, fits);
    CarrierReads(c, more, m, rest, DEPTH - 1, fits);
    EntriesStart(c, more);
    BracedReads(space, Entries(c) + more, Append(Carrier(c), m), rest, fits);
    MergedLayout(c, text, space, tail, fits);
  }

  /** Over the grammar: what spells an object that names neither key becomes what spells it with the carrier members first. */
  lemma MergedSpells(c: TraceContext, text: string, m: Members, fits: Range)
    requires Padded(text, Object(m)) && Readable(Object(m), DEPTH, fits) && !NamesCarrier(m)
    ensures Padded(MergeInto(c, Some(text), fits), Object(Append(Carrier(c), m)))
  {
    ReadsExactly(text, Object(m), fits);
    MergedReads(c, text, fits);
    ReadsExactly(MergeInto(c, Some(text), fits), Object(Append(Carrier(c), m)), fits);
  }

  lemma BraceEnds(depth: nat, fits: Range)
    ensures Continues("}", NoMembers, "", depth, fits)
  {
    assert SkipSpace("}") == "}" + "";
  }

  lemma Braced(entries: string)
    ensures "{" + entries + "}" == "" + ("{" + (entries + "}"))
  {
  }

  /** Absent or blank metadata becomes an object of the carrier members alone. */
  lemma BlankMergedReads(c: TraceContext, metadata: Option<string>, fits: Range)
    requires metadata.None? || Trim(metadata.value) == []
    ensures Parse(MergeInto(c, metadata, fits), fits) == Ok(Object(Append(Carrier(c), NoMembers)), [])
  {
    BraceEnds(DEPTH - 1, fits);
    CarrierReads(c, "}", NoMembers, "", DEPTH - 1, fits);
    EntriesStart(c, "}");
    BracedReads("", Entries(c) + "}", Append(Carrier(c), NoMembers), "", fits);
    Braced(Entries(c));
  }

  lemma CutOut(text: string, cut: nat, added: string, out: string)
    requires cut <= |text| && out == text[..cut] + added + text[cut..]
    ensures cut + |added| <= |out|
    ensures out[..cut] + out[cut + |added|..] == text && out[cut..cut + |added|] == added
  {
    assert out[..cut] == text[..cut] && out[cut + |added|..] == text[cut..];
  }

  /** Deleting the spliced run gives the caller's text back, byte for byte. */
  lemma MergeKeepsText(c: TraceContext, text: string, fits: Range)
    requires Spliceable(text, fits)
    ensures var out, cut, run := MergeInto(c, Some(text), fits), BraceAt(text) + 1, |Spliced(c, text, fits)|;
            && cut + run <= |out| && out[..cut] + out[cut + run..] == text
            && out[cut..cut + run] == Spliced(c, text, fits)
  {
    BraceFound(text, fits);
    MergeIs(c, text, fits);
    CutOut(text, BraceAt(text) + 1, Spliced(c, text, fits), MergeInto(c, Some(text), fits));
  }

  /** Text is left as it is exactly when it is not blank and is no object to add to. */
  lemma MergeLeavesAlone(c: TraceContext, text: string, fits: Range)
    ensures MergeInto(c, Some(text), fits) == text <==> Trim(text) != [] && !Spliceable(text, fits)
  {
    if Trim(text) == [] {
      TrimKeeps("{" + Entries(c) + "}", 0);
    } else if Spliceable(text, fits) {
      MergeKeepsText(c, text, fits);
      EntriesStart(c, "");
      assert Entries(c) + "" == Entries(c);
    }
  }

  /** What a merge leaves behind is left alone by every later merge, whatever either context. */
  lemma MergeIdempotent(c: TraceContext, later: TraceContext, metadata: Option<string>, fits: Range)
    ensures MergeInto(later, Some(MergeInto(c, metadata, fits)), fits) == MergeInto(c, metadata, fits)
  {
    var out := MergeInto(c, metadata, fits);
    if metadata.None? || Trim(metadata.value) == [] {
      BlankMergedReads(c, metadata, fits);
      NamesAppend(Carrier(c), NoMembers);
      TrimKeeps(out, 0);
    } else if Spliceable(metadata.value, fits) {
      var text := metadata.value;
      MergedReads(c, text, fits);
      NamesAppend(Carrier(c), Parse(text, fits).value.members);
      BraceFound(text, fits);
      assert out[BraceAt(text)] == '{';
      TrimKeeps(out, BraceAt(text));
    }
  }
}
