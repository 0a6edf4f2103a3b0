/**
 Keys that pack several names into one text: runtime-override settings
 (crates/flexiq-core/src/overrides.rs) and salted idempotency keys
 (crates/flexiq-core/src/pubsub.rs). A decimal length in front of a name is what
 keeps the names apart, whatever delimiters they contain.
*/
module Keys {
  import opened Bytes
  import opened Text
  import opened Seqs
  import opened Wrappers

  datatype Scope = Task | Queue

  const COLON: Byte := 58

  /** The text before an override's namespace or scope, and before its namespace's length. */
  const OVERRIDES := Lit("overrides:")
  const NAMESPACED := Lit("overrides:ns:")

  function Segment(scope: Scope): Str {
    if scope.Task? then Lit("task:") else Lit("queue:")
  }

  function OverridePrefix(scope: Scope, namespace: Option<Str>): Str {
    match namespace
    case None => OVERRIDES + Segment(scope)
    case Some(ns) => NAMESPACED + (Decimal(|ns|) + [COLON] + (ns + ([COLON] + Segment(scope))))
  }

  function OverrideKey(scope: Scope, namespace: Option<Str>, name: Str): Str {
    OverridePrefix(scope, namespace) + name
  }

  lemma SegmentsDiffer(a: Scope, x: Str, b: Scope, y: Str)
    requires Segment(a) + x == Segment(b) + y
    ensures a == b && x == y
  {
    assert (Segment(a) + x)[0] == Segment(a)[0] && (Segment(b) + y)[0] == Segment(b)[0];
    assert x == (Segment(a) + x)[|Segment(a)|..] && y == (Segment(b) + y)[|Segment(b)|..];
  }

  /** After "overrides:", a scope starts with `t` or `q` and a namespace with `n`. */
  lemma LayoutsDiffer(scope: Scope, x: Str, y: Str)
    ensures OVERRIDES + Segment(scope) + x != NAMESPACED + y
  {
    assert (OVERRIDES + Segment(scope) + x)[10] == Segment(scope)[0];
    assert (NAMESPACED + y)[10] == 110;
  }

  lemma CancelLeft(a: Str, x: Str, y: Str)
    requires a + x == a + y
    ensures x == y
  {
    assert x == (a + x)[|a|..] && y == (a + y)[|a|..];
  }

  lemma CutAt(a: Str, x: Str, b: Str, y: Str)
    requires |a| == |b| && a + x == b + y
    ensures a == b && x == y
  {
    assert a == (a + x)[..|a|] && b == (b + y)[..|a|];
    assert x == (a + x)[|a|..] && y == (b + y)[|a|..];
  }

  /** A name behind its own length: nothing after it can be taken for part of it. */
  lemma MeasuredCuts(a: Str, x: Str, b: Str, y: Str)
    requires Decimal(|a|) + [COLON] + (a + x) == Decimal(|b|) + [COLON] + (b + y)
    ensures a == b && x == y
  {
    DecimalDigits(|a|);
    DecimalDigits(|b|);
    DigitsPrefix(Decimal(|a|), Decimal(|b|), COLON, a + x, b + y);
    DecimalInjective(|a|, |b|);
    CutAt(a, x, b, y);
  }

  lemma NamespacedKey(scope: Scope, ns: Str, name: Str)
    ensures OverrideKey(scope, Some(ns), name)
            == NAMESPACED + (Decimal(|ns|) + [COLON] + (ns + ([COLON] + (Segment(scope) + name))))
  {
    var d, s := Decimal(|ns|) + [COLON], Segment(scope);
    Regroup([COLON], s, name);
    Regroup(ns, [COLON] + s, name);
    Regroup(d, ns + ([COLON] + s), name);
    Regroup(NAMESPACED, d + (ns + ([COLON] + s)), name);
  }

  lemma NamespacedKeysDiffer(a: Scope, m: Str, x: Str, b: Scope, n: Str, y: Str)
    requires OverrideKey(a, Some(m), x) == OverrideKey(b, Some(n), y)
    ensures a == b && m == n && x == y
  {
    NamespacedKey(a, m, x);
    NamespacedKey(b, n, y);
    var s, t := [COLON] + (Segment(a) + x), [COLON] + (Segment(b) + y);
    CancelLeft(NAMESPACED, Decimal(|m|) + [COLON] + (m + s), Decimal(|n|) + [COLON] + (n + t));
    MeasuredCuts(m, s, n, t);
    CancelLeft([COLON], Segment(a) + x, Segment(b) + y);
    SegmentsDiffer(a, x, b, y);
  }

  /** An override key names one scope, one namespace and one subject. */
  lemma OverrideKeyInjective(a: Scope, m: Option<Str>, x: Str, b: Scope, n: Option<Str>, y: Str)
    ensures OverrideKey(a, m, x) == OverrideKey(b, n, y) <==> a == b && m == n && x == y
  {
    if OverrideKey(a, m, x) == OverrideKey(b, n, y) {
      match (m, n)
      case (None, None) =>
        assert OVERRIDES + Segment(a) + x == OVERRIDES + (Segment(a) + x);
        assert OVERRIDES + Segment(b) + y == OVERRIDES + (Segment(b) + y);
        CancelLeft(OVERRIDES, Segment(a) + x, Segment(b) + y);
        SegmentsDiffer(a, x, b, y);
      case (None, Some(ns)) =>
        NamespacedKey(b, ns, y);
        LayoutsDiffer(a, x, Decimal(|ns|) + [COLON] + (ns + ([COLON] + (Segment(b) + y))));
      case (Some(ns), None) =>
        NamespacedKey(a, ns, x);
        LayoutsDiffer(b, y, Decimal(|ns|) + [COLON] + (ns + ([COLON] + (Segment(a) + x))));
      case (Some(ms), Some(ns)) => NamespacedKeysDiffer(a, ms, x, b, ns, y);
    }
  }

  /** A prefix matches the keys of its own scope and namespace and no others, whatever the names contain. */
  lemma PrefixMatchesOwnKeysOnly(a: Scope, m: Option<Str>, b: Scope, n: Option<Str>, name: Str)
    ensures OverridePrefix(a, m) <= OverrideKey(b, n, name) <==> a == b && m == n
  {
    var p, k := OverridePrefix(a, m), OverrideKey(b, n, name);
    if p <= k {
      assert k == p + k[|p|..];
      OverrideKeyInjective(a, m, k[|p|..], b, n, name);
    }
  }

  // ------------------------------------------------------------- idempotency keys

  /** Two lengths, each before a colon, and what follows. */
  function Measured(p: nat, q: nat, body: Str): Str {
    Decimal(p) + [COLON] + (Decimal(q) + [COLON] + body)
  }

  function SaltedUniqueKey(key: Str, topic: Str, subscription: Str): Str {
    key + ([COLON, COLON] + Measured(|topic|, |subscription|, topic + subscription))
  }

  lemma MeasuredInjective(p: nat, q: nat, x: Str, r: nat, s: nat, y: Str)
    requires Measured(p, q, x) == Measured(r, s, y)
    ensures p == r && q == s && x == y
  {
    DecimalDigits(p);
    DecimalDigits(q);
    DecimalDigits(r);
    DecimalDigits(s);
    DigitsPrefix(Decimal(p), Decimal(r), COLON, Decimal(q) + [COLON] + x, Decimal(s) + [COLON] + y);
    DecimalInjective(p, r);
    DigitsPrefix(Decimal(q), Decimal(s), COLON, x, y);
    DecimalInjective(q, s);
  }

  /** For one idempotency key, the salted key tells every (topic, subscription) pair apart. */
  lemma SaltedKeyInjective(key: Str, t: Str, a: Str, u: Str, b: Str)
    ensures SaltedUniqueKey(key, t, a) == SaltedUniqueKey(key, u, b) <==> t == u && a == b
  {
    if SaltedUniqueKey(key, t, a) == SaltedUniqueKey(key, u, b) {
      var v, w := Measured(|t|, |a|, t + a), Measured(|u|, |b|, u + b);
      CancelLeft(key, [COLON, COLON] + v, [COLON, COLON] + w);
      CancelLeft([COLON, COLON], v, w);
      MeasuredInjective(|t|, |a|, t + a, |u|, |b|, u + b);
      CutAt(t, a, u, b);
    }
  }

  // --------------------------------------------- salted keys of different idempotency keys

  /** The longer key goes on after the shorter one as a salt would, of `p` and `q` bytes, `y` being the first of them. */
  predicate GoesOn(k: Str, l: Str, p: nat, q: nat, y: Str) {
    l + [COLON] == k + ([COLON, COLON] + Measured(p, q, y)) && p + q >= |y| + 5
  }

  ghost predicate Overlaps(k: Str, l: Str) {
    exists p, q, y :: GoesOn(k, l, p, q, y)
  }

  ghost predicate Collide(k: Str, l: Str) {
    exists t, a, u, b :: SaltedUniqueKey(k, t, a) == SaltedUniqueKey(l, u, b)
  }

  function HeadLength(p: nat, q: nat): nat {
    |Decimal(p)| + |Decimal(q)| + 2
  }

  lemma MeasuredTake(p: nat, q: nat, x: Str, j: nat)
    requires HeadLength(p, q) <= j <= |Measured(p, q, x)|
    ensures Measured(p, q, x)[..j] == Measured(p, q, x[..j - HeadLength(p, q)])
  {
  }

  /** In a measured text, two colons in a row stand behind the lengths. */
  lemma ColonsBehindHead(p: nat, q: nat, x: Str, j: nat)
    requires j < |Measured(p, q, x)| && Measured(p, q, x)[j] == COLON
    requires j == 0 || Measured(p, q, x)[j - 1] == COLON
    ensures j >= HeadLength(p, q)
  {
    var v, d, e := Measured(p, q, x), Decimal(p), Decimal(q);
    DecimalDigits(p);
    DecimalDigits(q);
    assert forall i :: 0 <= i < |d| ==> v[i] == d[i];
    assert forall i :: 0 <= i < |e| ==> v[|d| + 1 + i] == e[i];
  }

  /** Where one text is read as two, the second starts inside the first's continuation. */
  lemma Continues(k: Str, v: Str, l: Str, w: Str)
    requires k + ([COLON, COLON] + v) == l + ([COLON, COLON] + w) && |k| < |l|
    ensures var j := |l| - |k| - 1;
            && j < |v| && v[j] == COLON && (j == 0 || v[j - 1] == COLON) && |v| == j + 1 + |w|
            && l + [COLON] == k + ([COLON, COLON] + v[..j])
  {
    var s, j := k + ([COLON, COLON] + v), |l| - |k| - 1;
    assert s[|l|] == COLON && s[|l| + 1] == COLON;
    assert l + [COLON] == s[..|l| + 1];
  }

  lemma CollisionOverlaps(k: Str, t: Str, a: Str, l: Str, u: Str, b: Str)
    requires SaltedUniqueKey(k, t, a) == SaltedUniqueKey(l, u, b) && |k| < |l|
    ensures Overlaps(k, l)
  {
    var p, q, j := |t|, |a|, |l| - |k| - 1;
    var v, w := Measured(p, q, t + a), Measured(|u|, |b|, u + b);
    Continues(k, v, l, w);
    ColonsBehindHead(p, q, t + a, j);
    MeasuredTake(p, q, t + a, j);
    assert GoesOn(k, l, p, q, (t + a)[..j - HeadLength(p, q)]);
  }

  lemma {:induction false} DecimalGrows(n: nat)
    ensures |Decimal(n)| <= |Decimal(n + 1)| <= |Decimal(n)| + 1
  {
    if n >= 10 && n % 10 == 9 {
      DecimalGrows(n / 10);
    }
  }

  /** The bytes a name takes with its length. */
  function Width(n: nat): nat {
    |Decimal(n)| + n
  }

  /** No two sizes in a row are no name's. */
  lemma {:induction false} NearWidth(v: nat) returns (n: nat)
    requires v >= 1
    ensures Width(n) == v || Width(n) == v - 1
    decreases v
  {
    if v == 1 {
      n := 0;
    } else {
      n := NearWidth(v - 1);
      DecimalGrows(n);
      DecimalGrows(n + 1);
      if Width(n + 1) == v {
        n := n + 1;
      } else if Width(n) == v - 2 {
        n := if Width(n + 2) == v then n + 2 else n + 1;
      }
    }
  }

  lemma TwoWidths(total: nat) returns (m: nat, n: nat)
    requires total >= 2
    ensures Width(m) + Width(n) == total
  {
    m := NearWidth(total - 1);
    n := if Width(m) == total - 1 then 0 else 1;
  }

  lemma MeasuredAppend(p: nat, q: nat, y: Str, z: Str)
    ensures Measured(p, q, y) + z == Measured(p, q, y + z)
  {
    var d := Decimal(q) + [COLON];
    Regroup(d, y, z);
    Regroup(Decimal(p) + [COLON], d + y, z);
  }

  /** A salt behind the longer key, read as one behind the shorter. */
  lemma SaltShared(k: Str, l: Str, p: nat, q: nat, y: Str, w: Str)
    requires GoesOn(k, l, p, q, y)
    ensures l + ([COLON, COLON] + w) == k + ([COLON, COLON] + Measured(p, q, y + ([COLON] + w)))
  {
    var c, cc := [COLON], [COLON, COLON];
    assert cc + w == c + (c + w);
    Regroup(l, c, c + w);
    Regroup(k, cc + Measured(p, q, y), c + w);
    Regroup(cc, Measured(p, q, y), c + w);
    MeasuredAppend(p, q, y, c + w);
  }

  lemma NamesCollide(k: Str, l: Str, p: nat, q: nat, y: Str, t: Str, a: Str, u: Str, b: Str)
    requires GoesOn(k, l, p, q, y) && |t| == p && |a| == q && t + a == y + ([COLON] + Measured(|u|, |b|, u + b))
    ensures Collide(k, l)
  {
    SaltShared(k, l, p, q, y, Measured(|u|, |b|, u + b));
    assert SaltedUniqueKey(k, t, a) == SaltedUniqueKey(l, u, b);
  }

  lemma OverlapCollides(k: Str, l: Str, p: nat, q: nat, y: Str)
    requires GoesOn(k, l, p, q, y)
    ensures Collide(k, l)
  {
    var m, n := TwoWidths(p + q - |y| - 3);
    var u: Str, b: Str := seq(m, i => 0), seq(n, i => 0);
    var z := y + ([COLON] + Measured(m, n, u + b));
    TakeDrop(z, p);
    NamesCollide(k, l, p, q, y, z[..p], z[p..], u, b);
  }

  lemma CollisionOverlapsEither(k: Str, t: Str, a: Str, l: Str, u: Str, b: Str)
    requires SaltedUniqueKey(k, t, a) == SaltedUniqueKey(l, u, b) && k != l
    ensures Overlaps(k, l) || Overlaps(l, k)
  {
    if |k| < |l| {
      CollisionOverlaps(k, t, a, l, u, b);
    } else if |l| < |k| {
      CollisionOverlaps(l, u, b, k, t, a);
    } else {
      CutAt(k, [COLON, COLON] + Measured(|t|, |a|, t + a), l, [COLON, COLON] + Measured(|u|, |b|, u + b));
    }
  }

  /** Two idempotency keys can share a salted key exactly when one goes on after the other as a salt would. */
  lemma KeysCollideIff(k: Str, l: Str)
    requires k != l
    ensures Collide(k, l) <==> Overlaps(k, l) || Overlaps(l, k)
  {
    if t, a, u, b :| SaltedUniqueKey(k, t, a) == SaltedUniqueKey(l, u, b) {
      CollisionOverlapsEither(k, t, a, l, u, b);
    }
    if p, q, y :| GoesOn(k, l, p, q, y) {
      OverlapCollides(k, l, p, q, y);
    }
    if p, q, y :| GoesOn(l, k, p, q, y) {
      OverlapCollides(l, k, p, q, y);
      var u, b, t, a :| SaltedUniqueKey(l, u, b) == SaltedUniqueKey(k, t, a);
      assert SaltedUniqueKey(k, t, a) == SaltedUniqueKey(l, u, b);
    }
  }

  /** So keys of which neither, followed by two colons, starts the other never share one. */
  lemma SaltedKeyDetermines(k: Str, t: Str, a: Str, l: Str, u: Str, b: Str)
    requires !(k + [COLON, COLON] <= l) && !(l + [COLON, COLON] <= k)
    ensures SaltedUniqueKey(k, t, a) == SaltedUniqueKey(l, u, b) <==> k == l && t == u && a == b
  {
    if k == l {
      SaltedKeyInjective(k, t, a, u, b);
    } else if SaltedUniqueKey(k, t, a) == SaltedUniqueKey(l, u, b) {
      assert Collide(k, l);
      KeysCollideIff(k, l);
      if p, q, y :| GoesOn(k, l, p, q, y) {
        OverlapStarts(k, l, p, q, y);
      }
      if p, q, y :| GoesOn(l, k, p, q, y) {
        OverlapStarts(l, k, p, q, y);
      }
    }
  }

  lemma OverlapStarts(k: Str, l: Str, p: nat, q: nat, y: Str)
    requires GoesOn(k, l, p, q, y)
    ensures k + [COLON, COLON] <= l
  {
    var s := l + [COLON];
    assert k + [COLON, COLON] == s[..|k| + 2];
  }

  /** Two publishes to different topics, under different keys, that share a salted key. */
  lemma KeysCanCollide()
    ensures SaltedUniqueKey(Lit("k"), Lit("a::1:1:b"), Lit("c")) == SaltedUniqueKey(Lit("k::8:1:a"), Lit("b"), Lit("c"))
  {
    assert Decimal(8) == [56] && Decimal(1) == [49];
  }
}
