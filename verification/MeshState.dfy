/**
 Cluster membership and the ring derived from it (crates/flexiq-mesh/src/state.rs).

 What each writer does to the pair when it runs alone, and what every sequence
 of writers keeps. `MeshThreads` takes the same writers apart into lock steps.
*/
module MeshState {
  import opened Text
  import opened Ring
  import opened Wrappers

  datatype Liveness = Alive | Suspect | Dead | Left

  /** A peer: what is believed of it, and the gossip payload nothing here reads. */
  datatype Member = Member(state: Liveness, incarnation: nat, info: Str)

  type Members = map<Id, Member>

  datatype Config = Config(local: Id, vnodes: nat, hash: Str -> nat)

  datatype Op =
    | Upsert(id: Id, member: Member)
    | MarkDead(id: Id)
    | MarkLeft(id: Id)
    | Prune

  // ------------------------------------------------------------- one at a time

  predicate IsAlive(members: Members, id: Id) {
    id in members && members[id].state.Alive?
  }

  function AliveIds(members: Members): set<Id> {
    set id | id in members && members[id].state.Alive?
  }

  function Demoted(members: Members, id: Id, state: Liveness): Members {
    if id in members then members[id := members[id].(state := state)] else members
  }

  /** What an operation does to the map. Pruning drops the dead and the departed whatever their age. */
  function MapEffect(members: Members, op: Op): Members {
    match op
    case Upsert(id, member) => members[id := member]
    case MarkDead(id) => Demoted(members, id, Dead)
    case MarkLeft(id) => Demoted(members, id, Left)
    case Prune => map id | id in members && (members[id].state.Alive? || members[id].state.Suspect?) :: members[id]
  }

  /** Whether the operation goes on to write the ring. */
  predicate WritesRing(members: Members, op: Op) {
    match op
    case Upsert(id, member) => IsAlive(members, id) != member.state.Alive?
    case MarkDead(_) => true
    case MarkLeft(_) => true
    case Prune => false
  }

  /** Whether the operation counts as ring churn. */
  predicate Counts(members: Members, op: Op) {
    match op
    case Upsert(id, member) => IsAlive(members, id) != member.state.Alive?
    case MarkDead(id) => IsAlive(members, id)
    case MarkLeft(id) => IsAlive(members, id)
    case Prune => false
  }

  function RingEffect(cfg: Config, ring: Points, op: Op): Points {
    match op
    case Upsert(id, member) => if member.state.Alive? then Added(ring, cfg.hash, id, cfg.vnodes) else Removed(ring, id)
    case MarkDead(id) => Removed(ring, id)
    case MarkLeft(id) => Removed(ring, id)
    case Prune => ring
  }

  datatype Cluster = Cluster(members: Members, ring: Points, recalculations: nat)

  function Initial(cfg: Config): Cluster {
    Cluster(map[], Added(map[], cfg.hash, cfg.local, cfg.vnodes), 0)
  }

  function Apply(cfg: Config, c: Cluster, op: Op): Cluster {
    Cluster(
      MapEffect(c.members, op),
      if WritesRing(c.members, op) then RingEffect(cfg, c.ring, op) else c.ring,
      c.recalculations + if Counts(c.members, op) then 1 else 0)
  }

  /** The operations one after the other, from a node that knows no peers. */
  function Run(cfg: Config, ops: seq<Op>): Cluster {
    if ops == [] then Initial(cfg) else Apply(cfg, Run(cfg, ops[..|ops| - 1]), ops[|ops| - 1])
  }

  /** Every ring point belongs to the local worker or to a member that is alive. */
  predicate OwnersAlive(cfg: Config, members: Members, ring: Points) {
    forall p :: p in ring ==> ring[p] == cfg.local || IsAlive(members, ring[p])
  }

  lemma ApplyOwnersAlive(cfg: Config, c: Cluster, op: Op)
    requires OwnersAlive(cfg, c.members, c.ring)
    ensures var d := Apply(cfg, c, op); OwnersAlive(cfg, d.members, d.ring)
  {
    var d := Apply(cfg, c, op);
    forall p | p in d.ring ensures d.ring[p] == cfg.local || IsAlive(d.members, d.ring[p]) {
      if op.Upsert? {
        AddedPoints(c.ring, cfg.hash, op.id, cfg.vnodes, p);
      }
    }
  }

  /** No sequence of operations strands a member that is not alive on the ring. */
  lemma {:induction false} RunOwnersAlive(cfg: Config, ops: seq<Op>)
    ensures OwnersAlive(cfg, Run(cfg, ops).members, Run(cfg, ops).ring)
    decreases |ops|
  {
    if ops == [] {
      var ring := Initial(cfg).ring;
      forall p | p in ring ensures ring[p] == cfg.local {
        AddedPoints(map[], cfg.hash, cfg.local, cfg.vnodes, p);
      }
    } else {
      RunOwnersAlive(cfg, ops[..|ops| - 1]);
      ApplyOwnersAlive(cfg, Run(cfg, ops[..|ops| - 1]), ops[|ops| - 1]);
    }
  }

  // ------------------------------------------------------- each member by itself

  /** The operations that can touch the entry of `id`. */
  function About(ops: seq<Op>, id: Id): seq<Op> {
    if ops == [] then []
    else
      var front, op := About(ops[..|ops| - 1], id), ops[|ops| - 1];
      if op.Prune? || op.id == id then front + [op] else front
  }

  function Entry(members: Members, id: Id): Option<Member> {
    if id in members then Some(members[id]) else None
  }

  lemma EntryStep(m: Members, n: Members, op: Op, id: Id)
    requires Entry(m, id) == Entry(n, id)
    ensures Entry(MapEffect(m, op), id) == Entry(MapEffect(n, op), id)
    ensures !op.Prune? && op.id != id ==> Entry(MapEffect(m, op), id) == Entry(m, id)
  {
  }

  /** What is believed of a member depends only on the updates that name it and on the prunes, in their order. */
  lemma {:induction false} MembersIndependent(cfg: Config, ops: seq<Op>, id: Id)
    ensures Entry(Run(cfg, ops).members, id) == Entry(Run(cfg, About(ops, id)).members, id)
    decreases |ops|
  {
    if ops != [] {
      var front, op := ops[..|ops| - 1], ops[|ops| - 1];
      MembersIndependent(cfg, front, id);
      EntryStep(Run(cfg, front).members, Run(cfg, About(front, id)).members, op, id);
      if op.Prune? || op.id == id {
        var about := About(ops, id);
        assert about[..|about| - 1] == About(front, id);
      }
    }
  }

  // ---------------------------------------------------- the ring, exactly

  /** The operation names a peer: an id of this universe, and not the local one. */
  predicate NamesPeer(cfg: Config, ids: set<Id>, op: Op) {
    op.Prune? || (op.id in ids && op.id != cfg.local)
  }

  predicate AllNamePeers(cfg: Config, ids: set<Id>, ops: seq<Op>) {
    forall i :: 0 <= i < |ops| ==> NamesPeer(cfg, ids, ops[i])
  }

  predicate Universe(cfg: Config, ids: set<Id>) {
    cfg.local in ids && CollisionFree(cfg.hash, cfg.vnodes, ids)
  }

  /** The ring is that of the local worker and the alive members, and they are all in `ids`. */
  predicate Exact(cfg: Config, ids: set<Id>, c: Cluster) {
    && HoldsExactly(c.ring, cfg.hash, cfg.vnodes, {cfg.local} + AliveIds(c.members))
    && AliveIds(c.members) <= ids - {cfg.local}
  }

  lemma CollisionFreeSubset(hash: Str -> nat, n: nat, some: set<Id>, all: set<Id>)
    requires some <= all && CollisionFree(hash, n, all)
    ensures CollisionFree(hash, n, some)
  {
  }

  predicate NamesKnown(ids: set<Id>, op: Op) {
    op.Prune? || op.id in ids
  }

  predicate AllNameKnown(ids: set<Id>, ops: seq<Op>) {
    forall i :: 0 <= i < |ops| ==> NamesKnown(ids, ops[i])
  }

  /** The operation takes the local worker off the ring, whatever the map says of it. */
  predicate DropsLocal(cfg: Config, members: Members, op: Op) {
    || ((op.MarkDead? || op.MarkLeft?) && op.id == cfg.local)
    || (op.Upsert? && op.id == cfg.local && !op.member.state.Alive? && IsAlive(members, cfg.local))
  }

  /** No operation so far marked the local id dead or left, or replaced it by a non-alive entry while it was alive. */
  predicate Kept(cfg: Config, ops: seq<Op>) {
    ops == [] ||
    (&& Kept(cfg, ops[..|ops| - 1])
     && !DropsLocal(cfg, Run(cfg, ops[..|ops| - 1]).members, ops[|ops| - 1]))
  }

  /** Who is on the ring: the alive members, and the local worker while it is kept. */
  function OnRing(cfg: Config, members: Members, kept: bool): set<Id> {
    AliveIds(members) + if kept then {cfg.local} else {}
  }

  lemma ApplyHolds(cfg: Config, ids: set<Id>, c: Cluster, kept: bool, op: Op)
    requires Universe(cfg, ids) && NamesKnown(ids, op) && AliveIds(c.members) <= ids
    requires HoldsExactly(c.ring, cfg.hash, cfg.vnodes, OnRing(cfg, c.members, kept))
    ensures var d := Apply(cfg, c, op);
            && AliveIds(d.members) <= ids
            && HoldsExactly(d.ring, cfg.hash, cfg.vnodes,
                            OnRing(cfg, d.members, kept && !DropsLocal(cfg, c.members, op)))
  {
    var d := Apply(cfg, c, op);
    var before, after := OnRing(cfg, c.members, kept), OnRing(cfg, d.members, kept && !DropsLocal(cfg, c.members, op));
    if op.Prune? {
      assert AliveIds(d.members) == AliveIds(c.members);
    } else if op.Upsert? && op.member.state.Alive? {
      assert AliveIds(d.members) == AliveIds(c.members) + {op.id};
      if WritesRing(c.members, op) {
        assert after == before + {op.id};
        CollisionFreeSubset(cfg.hash, cfg.vnodes, after, ids);
        AddKeepsExact(c.ring, cfg.hash, cfg.vnodes, before, op.id);
      } else {
        assert after == before;
      }
    } else {
      assert AliveIds(d.members) == AliveIds(c.members) - {op.id};
      if WritesRing(c.members, op) {
        assert after == before - {op.id};
        RemoveKeepsExact(c.ring, cfg.hash, cfg.vnodes, before, op.id);
      } else {
        assert after == before;
      }
    }
  }

  /** Without point collisions the ring always holds exactly the alive members and the kept local worker. */
  lemma {:induction false} RunHolds(cfg: Config, ids: set<Id>, ops: seq<Op>)
    requires Universe(cfg, ids) && AllNameKnown(ids, ops)
    ensures AliveIds(Run(cfg, ops).members) <= ids
    ensures HoldsExactly(Run(cfg, ops).ring, cfg.hash, cfg.vnodes,
                         OnRing(cfg, Run(cfg, ops).members, Kept(cfg, ops)))
    decreases |ops|
  {
    if ops == [] {
      assert HoldsExactly(map[], cfg.hash, cfg.vnodes, {});
      CollisionFreeSubset(cfg.hash, cfg.vnodes, {} + {cfg.local}, ids);
      AddKeepsExact(map[], cfg.hash, cfg.vnodes, {}, cfg.local);
      assert OnRing(cfg, map[], true) == {} + {cfg.local};
    } else {
      var front := ops[..|ops| - 1];
      RunHolds(cfg, ids, front);
      ApplyHolds(cfg, ids, Run(cfg, front), Kept(cfg, front), ops[|ops| - 1]);
    }
  }

  lemma OnRingIffValue(ring: Points, hash: Str -> nat, n: nat, on: set<Id>, id: Id)
    requires HoldsExactly(ring, hash, n, on) && n > 0
    ensures id in ring.Values <==> id in on
  {
    if id in on {
      assert ring[Point(hash, id, 0)] == id;
    }
  }

  /**
   With a virtual node or more and no collisions, after any run the local worker is on
   its own ring exactly when it was kept or the map has it alive.
  */
  lemma LocalOnRingIff(cfg: Config, ids: set<Id>, ops: seq<Op>)
    requires Universe(cfg, ids) && AllNameKnown(ids, ops) && cfg.vnodes > 0
    ensures cfg.local in Run(cfg, ops).ring.Values <==> Kept(cfg, ops) || IsAlive(Run(cfg, ops).members, cfg.local)
  {
    RunHolds(cfg, ids, ops);
    var c := Run(cfg, ops);
    OnRingIffValue(c.ring, cfg.hash, cfg.vnodes, OnRing(cfg, c.members, Kept(cfg, ops)), cfg.local);
  }

  /** And exactly then the ring is the one rebuilt from scratch for the local worker and the alive members. */
  lemma RebuiltIff(cfg: Config, ids: set<Id>, ops: seq<Op>, order: seq<Id>)
    requires Universe(cfg, ids) && AllNameKnown(ids, ops) && cfg.vnodes > 0
    requires (set k | 0 <= k < |order| :: order[k]) == {cfg.local} + AliveIds(Run(cfg, ops).members)
    ensures Run(cfg, ops).ring == BuiltFrom(cfg.hash, cfg.vnodes, order) <==>
            Kept(cfg, ops) || IsAlive(Run(cfg, ops).members, cfg.local)
  {
    var c, all := Run(cfg, ops), {cfg.local} + AliveIds(Run(cfg, ops).members);
    var built := BuiltFrom(cfg.hash, cfg.vnodes, order);
    RunHolds(cfg, ids, ops);
    forall k | 0 <= k < |order| ensures order[k] in ids {
      assert order[k] in all;
    }
    BuiltHoldsExactly(cfg.hash, cfg.vnodes, order, ids);
    OnRingIffValue(built, cfg.hash, cfg.vnodes, all, cfg.local);
    LocalOnRingIff(cfg, ids, ops);
    if Kept(cfg, ops) || IsAlive(c.members, cfg.local) {
      assert OnRing(cfg, c.members, Kept(cfg, ops)) == all;
      HoldsExactlyUnique(c.ring, built, cfg.hash, cfg.vnodes, all);
    }
  }

  /** Operations that name only peers keep the local worker and never enter it in the map. */
  lemma {:induction false} PeersKeepLocal(cfg: Config, ids: set<Id>, ops: seq<Op>)
    requires AllNamePeers(cfg, ids, ops)
    ensures Kept(cfg, ops) && cfg.local !in Run(cfg, ops).members
  {
    if ops != [] {
      PeersKeepLocal(cfg, ids, ops[..|ops| - 1]);
    }
  }

  /**
   Without point collisions, and when no operation names the local id, the ring
   always holds exactly the local worker and the alive members.
  */
  lemma RunExact(cfg: Config, ids: set<Id>, ops: seq<Op>)
    requires Universe(cfg, ids) && AllNamePeers(cfg, ids, ops)
    ensures Exact(cfg, ids, Run(cfg, ops))
  {
    PeersKeepLocal(cfg, ids, ops);
    RunHolds(cfg, ids, ops);
    var members := Run(cfg, ops).members;
    assert OnRing(cfg, members, true) == {cfg.local} + AliveIds(members);
  }

  /** So it equals the ring built from scratch, in any order of those workers. */
  lemma RunIsRebuilt(cfg: Config, ids: set<Id>, ops: seq<Op>, order: seq<Id>)
    requires Universe(cfg, ids) && AllNamePeers(cfg, ids, ops)
    requires (set k | 0 <= k < |order| :: order[k]) == {cfg.local} + AliveIds(Run(cfg, ops).members)
    ensures Run(cfg, ops).ring == BuiltFrom(cfg.hash, cfg.vnodes, order)
  {
    RunExact(cfg, ids, ops);
    var on := {cfg.local} + AliveIds(Run(cfg, ops).members);
    forall k | 0 <= k < |order| ensures order[k] in ids {
      assert order[k] in on;
    }
    BuiltHoldsExactly(cfg.hash, cfg.vnodes, order, ids);
    HoldsExactlyUnique(Run(cfg, ops).ring, BuiltFrom(cfg.hash, cfg.vnodes, order), cfg.hash, cfg.vnodes, on);
  }

  lemma RingsEqualIff(r: Points, s: Points, hash: Str -> nat, n: nat, on: set<Id>, after: set<Id>)
    requires HoldsExactly(r, hash, n, on) && HoldsExactly(s, hash, n, after) && n > 0
    ensures r == s <==> on == after
  {
    if on == after {
      HoldsExactlyUnique(r, s, hash, n, on);
    } else if r == s {
      forall id ensures id in on <==> id in after {
        OnRingIffValue(r, hash, n, on, id);
        OnRingIffValue(s, hash, n, after, id);
      }
    }
  }

  /** The operation is about a local worker that is on the ring without being alive in the map. */
  predicate Miscounts(cfg: Config, members: Members, kept: bool, op: Op) {
    && kept && !IsAlive(members, cfg.local) && !op.Prune? && op.id == cfg.local
    && (op.Upsert? ==> op.member.state.Alive?)
  }

  lemma OnRingStep(cfg: Config, members: Members, kept: bool, op: Op, id: Id)
    ensures var after := MapEffect(members, op);
            var kept' := kept && !DropsLocal(cfg, members, op);
            && (op.Prune? || id != op.id ==> (id in OnRing(cfg, after, kept') <==> id in OnRing(cfg, members, kept)))
            && (!op.Prune? && id == op.id ==>
                  ((id in OnRing(cfg, after, kept') <==> id in OnRing(cfg, members, kept))
                   <==> (Counts(members, op) <==> Miscounts(cfg, members, kept, op))))
  {
    assert id in AliveIds(MapEffect(members, op)) <==> IsAlive(MapEffect(members, op), id);
    assert id in AliveIds(members) <==> IsAlive(members, id);
  }

  /** An operation leaves those on the ring the same exactly when it neither counts nor miscounts, or does both. */
  lemma OnRingSameIff(cfg: Config, members: Members, kept: bool, op: Op)
    ensures var kept' := kept && !DropsLocal(cfg, members, op);
            OnRing(cfg, MapEffect(members, op), kept') == OnRing(cfg, members, kept)
            <==> (Counts(members, op) <==> Miscounts(cfg, members, kept, op))
  {
    var on := OnRing(cfg, members, kept);
    var after := OnRing(cfg, MapEffect(members, op), kept && !DropsLocal(cfg, members, op));
    forall id ensures op.Prune? || id != op.id ==> (id in after <==> id in on) {
      OnRingStep(cfg, members, kept, op, id);
    }
    if op.Prune? {
      assert on == after;
    } else {
      OnRingStep(cfg, members, kept, op, op.id);
      assert on == after <==> (op.id in on <==> op.id in after);
    }
  }

  /**
   An operation is counted exactly when it changes the ring, except exactly when it marks
   or revives a local worker that is on the ring without being alive in the map.
  */
  lemma CountedIffChangedUnless(cfg: Config, ids: set<Id>, c: Cluster, kept: bool, op: Op)
    requires Universe(cfg, ids) && NamesKnown(ids, op) && AliveIds(c.members) <= ids && cfg.vnodes > 0
    requires HoldsExactly(c.ring, cfg.hash, cfg.vnodes, OnRing(cfg, c.members, kept))
    ensures (Counts(c.members, op) <==> Apply(cfg, c, op).ring != c.ring) <==> !Miscounts(cfg, c.members, kept, op)
  {
    var d, kept' := Apply(cfg, c, op), kept && !DropsLocal(cfg, c.members, op);
    ApplyHolds(cfg, ids, c, kept, op);
    RingsEqualIff(c.ring, d.ring, cfg.hash, cfg.vnodes, OnRing(cfg, c.members, kept), OnRing(cfg, d.members, kept'));
    OnRingSameIff(cfg, c.members, kept, op);
  }

  /** With at least one virtual node, an operation that names no local id is counted exactly when it changes the ring. */
  lemma CountsIffRingChanges(cfg: Config, ids: set<Id>, c: Cluster, op: Op)
    requires Universe(cfg, ids) && Exact(cfg, ids, c) && NamesPeer(cfg, ids, op) && cfg.vnodes > 0
    ensures Counts(c.members, op) <==> Apply(cfg, c, op).ring != c.ring
  {
    assert OnRing(cfg, c.members, true) == {cfg.local} + AliveIds(c.members);
    CountedIffChangedUnless(cfg, ids, c, true, op);
  }

  /** How often the ring has changed. */
  function RingChanges(cfg: Config, ops: seq<Op>): nat {
    if ops == [] then 0
    else
      var front := ops[..|ops| - 1];
      RingChanges(cfg, front) + if Run(cfg, ops).ring != Run(cfg, front).ring then 1 else 0
  }

  /** The operation marks the local id, or declares it alive. */
  predicate Decides(cfg: Config, op: Op) {
    !op.Prune? && op.id == cfg.local && (op.Upsert? ==> op.member.state.Alive?)
  }

  function FirstDecision(cfg: Config, ops: seq<Op>): Option<Op> {
    if ops == [] then None
    else
      var front, op := FirstDecision(cfg, ops[..|ops| - 1]), ops[|ops| - 1];
      if front.Some? then front else if Decides(cfg, op) then Some(op) else None
  }

  /** Until then the local worker is kept without being alive in the map, and never after. */
  lemma {:induction false} UndecidedIff(cfg: Config, ops: seq<Op>)
    ensures FirstDecision(cfg, ops).None? <==> Kept(cfg, ops) && !IsAlive(Run(cfg, ops).members, cfg.local)
    ensures FirstDecision(cfg, ops).Some? ==> Decides(cfg, FirstDecision(cfg, ops).value)
    decreases |ops|
  {
    if ops != [] {
      UndecidedIff(cfg, ops[..|ops| - 1]);
    }
  }

  /** What the first decision about the local id adds to the counter without changing the ring, or the other way round. */
  function Unearned(cfg: Config, ops: seq<Op>): nat {
    var first := FirstDecision(cfg, ops);
    if first.Some? && first.value.Upsert? then 1 else 0
  }

  function Missed(cfg: Config, ops: seq<Op>): nat {
    var first := FirstDecision(cfg, ops);
    if first.Some? && !first.value.Upsert? then 1 else 0
  }

  /**
   In every run without point collisions, whatever ids it names, the counter is the number
   of ring changes, but for the first update that decides about the local id: one that
   declares it alive is counted for nothing, one that marks it is not counted.
  */
  lemma {:induction false} CounterDrift(cfg: Config, ids: set<Id>, ops: seq<Op>)
    requires Universe(cfg, ids) && AllNameKnown(ids, ops) && cfg.vnodes > 0
    ensures Run(cfg, ops).recalculations + Missed(cfg, ops) == RingChanges(cfg, ops) + Unearned(cfg, ops)
    decreases |ops|
  {
    if ops != [] {
      var front, op := ops[..|ops| - 1], ops[|ops| - 1];
      CounterDrift(cfg, ids, front);
      RunHolds(cfg, ids, front);
      UndecidedIff(cfg, front);
      assert NamesKnown(ids, op);
      CountedIffChangedUnless(cfg, ids, Run(cfg, front), Kept(cfg, front), op);
      assert Miscounts(cfg, Run(cfg, front).members, Kept(cfg, front), op)
             <==> FirstDecision(cfg, front).None? && Decides(cfg, op);
    }
  }

  /** Marking a lone node dead changes its ring and is not counted. */
  lemma LocalChangeUncounted(cfg: Config)
    requires cfg.vnodes > 0
    ensures var op := MarkDead(cfg.local);
            !Counts(Initial(cfg).members, op) && Apply(cfg, Initial(cfg), op).ring != Initial(cfg).ring
  {
    var p := Point(cfg.hash, cfg.local, 0);
    AddedPoints(map[], cfg.hash, cfg.local, cfg.vnodes, p);
    assert p in Initial(cfg).ring && Initial(cfg).ring[p] == cfg.local;
    assert p !in Apply(cfg, Initial(cfg), MarkDead(cfg.local)).ring;
  }

  /** A lone node that marks itself dead is left with an empty ring. */
  lemma LocalCanBeDemoted(cfg: Config)
    ensures Run(cfg, [MarkDead(cfg.local)]).ring == map[] && !Kept(cfg, [MarkDead(cfg.local)])
  {
    var ops := [MarkDead(cfg.local)];
    assert ops[..0] == [];
    assert DropsLocal(cfg, Run(cfg, []).members, ops[0]);
    var ring := Initial(cfg).ring;
    forall p | p in ring ensures ring[p] == cfg.local {
      AddedPoints(map[], cfg.hash, cfg.local, cfg.vnodes, p);
    }
  }

  // ------------------------------------------------------ the writers' own code

  /** The state as its methods update it in place, each run under the `members` lock. */
  class MeshView {
    var members: Members
    const ring: HashRing
    const local: Id
    var recalculations: nat

    ghost function Cfg(): Config {
      Config(local, ring.virtualNodes, ring.hash)
    }

    ghost function View(): Cluster
      reads this, ring
    {
      Cluster(members, ring.ring, recalculations)
    }

    constructor (id: Id, virtualNodes: nat, hash: Str -> nat)
      ensures Cfg() == Config(id, virtualNodes, hash) && View() == Run(Cfg(), [])
      ensures fresh(ring)
    {
      members, local, recalculations := map[], id, 0;
      ring := new HashRing(virtualNodes, hash);
      new;
      ring.AddWorker(id);
    }

    method UpsertMember(id: Id, member: Member) returns (isNew: bool)
      modifies `members, `recalculations, ring
      ensures View() == Apply(Cfg(), old(View()), Upsert(id, member))
      ensures isNew == (id !in old(members))
    {
      var isAlive := member.state.Alive?;
      isNew := id !in members;
      var wasAlive := id in members && members[id].state.Alive?;
      members := members[id := member];
      var changed := wasAlive != isAlive;
      if changed {
        if isAlive {
          ring.AddWorker(id);
        } else {
          ring.RemoveWorker(id);
        }
        recalculations := recalculations + 1;
      }
    }

    method Demote(id: Id, state: Liveness)
      requires state.Dead? || state.Left?
      modifies `members, `recalculations, ring
      ensures View() == Apply(Cfg(), old(View()), if state.Dead? then MarkDead(id) else MarkLeft(id))
    {
      var wasAlive := id in members && members[id].state.Alive?;
      if id in members {
        members := members[id := members[id].(state := state)];
      }
      ring.RemoveWorker(id);
      if wasAlive {
        recalculations := recalculations + 1;
      }
    }

    method PruneDead(olderThanMs: int) returns (removed: nat)
      modifies `members
      ensures View() == Apply(Cfg(), old(View()), Prune)
      ensures removed == |old(members)| - |members|
    {
      var before := |members|;
      ghost var all := members.Keys;
      members := map id | id in members && (members[id].state.Alive? || members[id].state.Suspect?) :: members[id];
      Shrinks(members.Keys, all);
      removed := before - |members|;
    }

    method IsLocalOwner(task: Str) returns (yes: bool)
      ensures yes <==> Preferred(ring.ring, ring.hash(task)) == Some(local)
    {
      yes := ring.IsOwner(task, local);
    }
  }

  lemma {:induction false} Shrinks(part: set<Id>, all: set<Id>)
    requires part <= all
    ensures |part| <= |all|
  {
    if part != {} {
      var x :| x in part;
      Shrinks(part - {x}, all - {x});
    }
  }

}
