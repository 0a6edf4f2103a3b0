/**
 The consistent hash ring (crates/flexiq-mesh/src/ring.rs). The hash is a
 parameter: nothing below looks inside it, and nothing assumes it has no
 collisions unless it says so.
*/
module Ring {
  import opened Text
  import opened Wrappers

  type Id = Str
  type Points = map<nat, Id>

  /** `{worker_id}-vnode-{i}`, the string a virtual node is hashed from. */
  function VnodeKey(id: Id, i: nat): Str {
    id + Lit("-vnode-") + Decimal(i)
  }

  /** No two virtual nodes are hashed from the same string. */
  lemma VnodeKeyInjective(a: Id, i: nat, b: Id, j: nat)
    requires VnodeKey(a, i) == VnodeKey(b, j)
    ensures a == b && i == j
  {
    DecimalDigits(i);
    DecimalDigits(j);
    var stem, dash := Lit("-vnode"), Lit("-")[0];
    assert Lit("-vnode-") == stem + [dash];
    assert VnodeKey(a, i) == (a + stem) + [dash] + Decimal(i);
    assert VnodeKey(b, j) == (b + stem) + [dash] + Decimal(j);
    DigitsSuffix(a + stem, b + stem, dash, Decimal(i), Decimal(j));
    DecimalInjective(i, j);
    assert a == (a + stem)[..|a|] && b == (b + stem)[..|b|];
  }

  function Point(hash: Str -> nat, id: Id, i: nat): nat {
    hash(VnodeKey(id, i))
  }

  /** The ring after `n` virtual nodes of `id` have been inserted. */
  function Added(ring: Points, hash: Str -> nat, id: Id, n: nat): Points {
    if n == 0 then ring else Added(ring, hash, id, n - 1)[Point(hash, id, n - 1) := id]
  }

  function Removed(ring: Points, id: Id): Points {
    map p | p in ring && ring[p] != id :: ring[p]
  }

  // ------------------------------------------------------------------ lookup

  /** `p` is the first point clockwise from `h`, wrapping past the largest. */
  predicate First(ring: Points, h: nat, p: nat) {
    && p in ring
    && if p >= h then forall q :: q in ring && q >= h ==> p <= q
       else (forall q :: q in ring ==> q < h) && (forall q :: q in ring ==> p <= q)
  }

  lemma {:induction false} LeastPoint(points: set<nat>) returns (least: nat)
    requires points != {}
    ensures least in points && forall q :: q in points ==> least <= q
  {
    var p :| p in points;
    if points == {p} {
      least := p;
    } else {
      var m := LeastPoint(points - {p});
      least := if p < m then p else m;
      assert forall q :: q in points ==> q == p || q in points - {p};
    }
  }

  lemma FirstExists(ring: Points, h: nat) returns (p: nat)
    requires ring != map[]
    ensures First(ring, h, p)
  {
    var after := set q | q in ring && q >= h;
    if after != {} {
      p := LeastPoint(after);
      assert forall q :: q in ring && q >= h ==> q in after;
    } else {
      assert ring.Keys != {};
      p := LeastPoint(ring.Keys);
      assert forall q :: q in ring && q >= h ==> q in after;
    }
  }

  /** The worker a hash prefers: the owner of the first point clockwise. */
  ghost function Preferred(ring: Points, h: nat): (owner: Option<Id>)
    ensures owner.None? <==> ring == map[]
    ensures forall p :: First(ring, h, p) ==> owner == Some(ring[p])
  {
    if ring == map[] then None
    else
      var p0 := FirstPoint(ring, h);
      assert forall p :: First(ring, h, p) ==> p == p0;
      Some(ring[p0])
  }

  ghost function FirstPoint(ring: Points, h: nat): (p: nat)
    requires ring != map[]
    ensures First(ring, h, p)
  {
    assert exists q :: First(ring, h, q) by {
      var q := FirstExists(ring, h);
    }
    var p :| First(ring, h, p);
    p
  }

  /** On a ring that is not empty every hash has exactly one owner, and it is on the ring. */
  lemma OneOwner(ring: Points, h: nat)
    requires ring != map[]
    ensures exists p :: First(ring, h, p) && Preferred(ring, h) == Some(ring[p]) && forall q :: First(ring, h, q) ==> q == p
  {
    var p := FirstPoint(ring, h);
    assert forall q :: First(ring, h, q) ==> q == p;
  }

  /** Removing a worker moves only the keys it owned, and leaves it owning none. */
  lemma RemoveMovesOnlyItsKeys(ring: Points, id: Id, h: nat)
    ensures Preferred(ring, h) != Some(id) ==> Preferred(Removed(ring, id), h) == Preferred(ring, h)
    ensures Preferred(Removed(ring, id), h) != Some(id)
  {
    var rest := Removed(ring, id);
    if ring != map[] {
      var p := FirstPoint(ring, h);
      if ring[p] != id {
        assert First(rest, h, p);
        assert p in rest;
      }
    }
    if rest != map[] {
      var q := FirstPoint(rest, h);
      assert rest[q] != id;
    }
  }

  /** One insertion either leaves an owner alone or makes the newcomer the owner. */
  lemma InsertMovesOnlyToNewcomer(ring: Points, point: nat, id: Id, h: nat)
    ensures Preferred(ring[point := id], h) == Preferred(ring, h) || Preferred(ring[point := id], h) == Some(id)
  {
    var more := ring[point := id];
    assert point in more;
    var q := FirstPoint(more, h);
    if q != point {
      assert forall x :: x in ring ==> x in more;
      assert First(ring, h, q);
    }
  }

  /** Adding a worker moves keys only to it, even where points collide. */
  lemma {:induction false} AddMovesOnlyToNewcomer(ring: Points, hash: Str -> nat, id: Id, n: nat, h: nat)
    ensures var after := Preferred(Added(ring, hash, id, n), h);
            after == Preferred(ring, h) || after == Some(id)
  {
    if n > 0 {
      AddMovesOnlyToNewcomer(ring, hash, id, n - 1, h);
      InsertMovesOnlyToNewcomer(Added(ring, hash, id, n - 1), Point(hash, id, n - 1), id, h);
    }
  }

  // ------------------------------------------------------ what is on the ring

  predicate Owns(hash: Str -> nat, id: Id, n: nat, p: nat) {
    exists i :: 0 <= i < n && Point(hash, id, i) == p
  }

  /** The ring after an addition, point by point. */
  lemma {:induction false} AddedPoints(ring: Points, hash: Str -> nat, id: Id, n: nat, p: nat)
    ensures Owns(hash, id, n, p) ==> p in Added(ring, hash, id, n) && Added(ring, hash, id, n)[p] == id
    ensures !Owns(hash, id, n, p) ==>
              && (p in Added(ring, hash, id, n) <==> p in ring)
              && (p in ring ==> Added(ring, hash, id, n)[p] == ring[p])
  {
    if n > 0 {
      AddedPoints(ring, hash, id, n - 1, p);
      assert Owns(hash, id, n, p) <==> Owns(hash, id, n - 1, p) || Point(hash, id, n - 1) == p;
    }
  }

  /**
   Removing a worker that was just added restores the ring exactly when it was
   not there before and displaced nobody's point.
  */
  lemma RemoveUndoesAdd(ring: Points, hash: Str -> nat, id: Id, n: nat)
    ensures Removed(Added(ring, hash, id, n), id) == ring <==>
            id !in ring.Values && forall i :: 0 <= i < n ==> Point(hash, id, i) !in ring
  {
    var added := Added(ring, hash, id, n);
    var back := Removed(added, id);
    forall p {:trigger p in back} {:trigger p in ring}
      ensures p in back <==> p in ring && ring[p] != id && !Owns(hash, id, n, p)
      ensures p in back ==> back[p] == ring[p]
    {
      AddedPoints(ring, hash, id, n, p);
    }
    if back == ring {
      forall i | 0 <= i < n ensures Point(hash, id, i) !in ring {
        assert Owns(hash, id, n, Point(hash, id, i));
      }
    }
  }

  /** A newcomer whose point collides takes it from its owner, and removing it does not give it back. */
  lemma RemovalLosesCollidedPoint(a: Id, b: Id)
    requires a != b
    ensures var ring: Points, hash := map[0 := a], (s: Str) => 0; Removed(Added(ring, hash, b, 1), b) == map[] != ring
  {
    var ring: Points, hash := map[0 := a], (s: Str) => 0;
    assert Added(ring, hash, b, 0) == ring;
    assert Added(ring, hash, b, 1) == map[0 := b];
    assert 0 in ring;
  }

  /** The ring holds exactly the virtual nodes of `ids`. */
  predicate HoldsExactly(ring: Points, hash: Str -> nat, n: nat, ids: set<Id>) {
    && (forall p :: p in ring ==> ring[p] in ids && Owns(hash, ring[p], n, p))
    && (forall id, i :: id in ids && 0 <= i < n ==> Point(hash, id, i) in ring && ring[Point(hash, id, i)] == id)
  }

  /** No two of these workers share a point. */
  predicate CollisionFree(hash: Str -> nat, n: nat, ids: set<Id>) {
    forall a, b, i, j :: a in ids && b in ids && 0 <= i < n && 0 <= j < n ==>
      (Point(hash, a, i) == Point(hash, b, j) ==> a == b)
  }

  lemma HoldsExactlyUnique(r: Points, s: Points, hash: Str -> nat, n: nat, ids: set<Id>)
    requires HoldsExactly(r, hash, n, ids) && HoldsExactly(s, hash, n, ids)
    ensures r == s
  {
    forall p | p in r ensures p in s && s[p] == r[p] {
      var i :| 0 <= i < n && Point(hash, r[p], i) == p;
    }
    forall p | p in s ensures p in r {
      var i :| 0 <= i < n && Point(hash, s[p], i) == p;
    }
  }

  lemma AddKeepsExact(ring: Points, hash: Str -> nat, n: nat, ids: set<Id>, id: Id)
    requires HoldsExactly(ring, hash, n, ids) && CollisionFree(hash, n, ids + {id})
    ensures HoldsExactly(Added(ring, hash, id, n), hash, n, ids + {id})
  {
    var added := Added(ring, hash, id, n);
    forall p | p in added ensures added[p] in ids + {id} && Owns(hash, added[p], n, p) {
      AddedPoints(ring, hash, id, n, p);
    }
    forall w, i | w in ids + {id} && 0 <= i < n
      ensures Point(hash, w, i) in added && added[Point(hash, w, i)] == w
    {
      var p := Point(hash, w, i);
      AddedPoints(ring, hash, id, n, p);
      assert Owns(hash, w, n, p);
    }
  }

  lemma RemoveKeepsExact(ring: Points, hash: Str -> nat, n: nat, ids: set<Id>, id: Id)
    requires HoldsExactly(ring, hash, n, ids)
    ensures HoldsExactly(Removed(ring, id), hash, n, ids - {id})
  {
  }

  /** The ring built from nothing by adding workers one after the other. */
  function BuiltFrom(hash: Str -> nat, n: nat, order: seq<Id>): Points {
    if order == [] then map[]
    else Added(BuiltFrom(hash, n, order[..|order| - 1]), hash, order[|order| - 1], n)
  }

  lemma {:induction false} BuiltHoldsExactly(hash: Str -> nat, n: nat, order: seq<Id>, ids: set<Id>)
    requires CollisionFree(hash, n, ids) && forall k :: 0 <= k < |order| ==> order[k] in ids
    ensures HoldsExactly(BuiltFrom(hash, n, order), hash, n, set k | 0 <= k < |order| :: order[k])
    decreases |order|
  {
    if order != [] {
      var front, last := order[..|order| - 1], order[|order| - 1];
      BuiltHoldsExactly(hash, n, front, ids);
      var before := set k | 0 <= k < |front| :: front[k];
      assert (set k | 0 <= k < |order| :: order[k]) == before + {last};
      AddKeepsExact(BuiltFrom(hash, n, front), hash, n, before, last);
    }
  }

  // ---------------------------------------------------------------- the class

  class HashRing {
    var ring: Points
    const hash: Str -> nat
    const virtualNodes: nat

    constructor (virtualNodes: nat, hash: Str -> nat)
      ensures ring == map[] && this.virtualNodes == virtualNodes && this.hash == hash
    {
      ring := map[];
      this.virtualNodes := virtualNodes;
      this.hash := hash;
    }

    method AddWorker(id: Id)
      modifies `ring
      ensures ring == Added(old(ring), hash, id, virtualNodes)
    {
      for i := 0 to virtualNodes
        invariant ring == Added(old(ring), hash, id, i)
      {
        ring := ring[hash(VnodeKey(id, i)) := id];
      }
    }

    method RemoveWorker(id: Id)
      modifies `ring
      ensures ring == Removed(old(ring), id)
    {
      ring := map p | p in ring && ring[p] != id :: ring[p];
    }

    /** The least point at or after `from`, as an ordered map's range yields it. */
    method RangeNext(from: nat) returns (next: Option<nat>)
      ensures next.None? <==> forall q :: q in ring ==> q < from
      ensures next.Some? ==> next.value in ring && next.value >= from
                             && forall q :: q in ring && q >= from ==> next.value <= q
    {
      next := None;
      var rest := ring.Keys;
      while rest != {}
        invariant rest <= ring.Keys
        invariant next.None? ==> forall q :: q in ring && q !in rest ==> q < from
        invariant next.Some? ==> next.value in ring && next.value >= from
                                 && forall q :: q in ring && q !in rest && q >= from ==> next.value <= q
        decreases rest
      {
        var p :| p in rest;
        if p >= from && (next.None? || p < next.value) {
          next := Some(p);
        }
        rest := rest - {p};
      }
    }

    /** The first point at or after the key's hash, or else the first point of all. */
    method PreferredWorker(key: Str) returns (owner: Option<Id>)
      ensures owner == Preferred(ring, hash(key))
    {
      if ring == map[] {
        return None;
      }
      var h := hash(key);
      var next := RangeNext(h);
      if next.None? {
        next := RangeNext(0);
        assert ring.Keys != {};
      }
      assert First(ring, h, next.value);
      owner := Some(ring[next.value]);
    }

    method IsOwner(key: Str, id: Id) returns (yes: bool)
      ensures yes <==> Preferred(ring, hash(key)) == Some(id)
    {
      var owner := PreferredWorker(key);
      yes := owner == Some(id);
    }
  }

}
