/**
 Publishing to a topic (crates/flexiq-core/src/pubsub.rs): one job for every
 fan-out subscription, one stored message for a log topic, and the salting that
 lets an idempotency key deduplicate per subscriber.
*/
module PubSub {
  import opened Text
  import opened Wrappers
  import opened Keys

  datatype Subscription = Subscription(
    name: Str, task: Str, queue: Str, isLog: bool,
    priority: Option<int>, maxRetries: Option<int>, timeoutMs: Option<int>)

  datatype Settings = Settings(priority: int, maxRetries: int, timeoutMs: int)

  datatype Request = Request(
    topic: Str, payload: Str, key: Option<Str>,
    priority: Option<int>, maxRetries: Option<int>, timeoutMs: Option<int>,
    expiresAt: Option<int>, defaults: Settings)

  datatype NewJob = NewJob(
    task: Str, queue: Str, payload: Str, settings: Settings, uniqueKey: Option<Str>,
    topic: Str, subscription: Str)

  datatype Message = Message(topic: Str, payload: Str, expiresAt: Option<int>)

  /** A declared log topic and how long it keeps a message. */
  datatype LogTopic = LogTopic(retentionMs: Option<int>)

  /** The publish call's value, then the subscription's own, then the queue's. */
  function Resolve(call: Option<int>, own: Option<int>, fallback: int): int {
    if call.Some? then call.value else if own.Some? then own.value else fallback
  }

  function DeliveryJob(r: Request, sub: Subscription): NewJob {
    NewJob(
      sub.task, sub.queue, r.payload,
      Settings(
        Resolve(r.priority, sub.priority, r.defaults.priority),
        Resolve(r.maxRetries, sub.maxRetries, r.defaults.maxRetries),
        Resolve(r.timeoutMs, sub.timeoutMs, r.defaults.timeoutMs)),
      if r.key.None? then None else Some(SaltedUniqueKey(r.key.value, r.topic, sub.name)),
      r.topic, sub.name)
  }

  /** One delivery for each subscription that is not a log reader, in order. */
  function FanOut(r: Request, subs: seq<Subscription>): seq<NewJob> {
    if subs == [] then []
    else
      var front := FanOut(r, subs[..|subs| - 1]);
      var last := subs[|subs| - 1];
      if last.isLog then front else front + [DeliveryJob(r, last)]
  }

  /** Somebody reads the topic as a log. */
  predicate ReadAsLog(subs: seq<Subscription>) {
    exists i :: 0 <= i < |subs| && subs[i].isLog
  }

  /** Active jobs by unique key, in one namespace. */
  type Active = map<Str, NewJob>

  /** Inserting a batch, where a job whose key is already active yields to the active one. */
  function Inserted(active: Active, jobs: seq<NewJob>): (Active, seq<NewJob>)
    requires Keyed(jobs)
  {
    if jobs == [] then (active, [])
    else
      var (before, out) := Inserted(active, jobs[..|jobs| - 1]);
      var job := jobs[|jobs| - 1];
      var key := job.uniqueKey.value;
      if key in before then (before, out + [before[key]]) else (before[key := job], out + [job])
  }

  /** Storage as a publish writes it: keyed jobs, other jobs, and topic messages. */
  class Store {
    var active: Active
    var unkeyed: seq<NewJob>
    var messages: seq<Message>

    constructor ()
      ensures active == map[] && unkeyed == [] && messages == []
    {
      active, unkeyed, messages := map[], [], [];
    }

    method EnqueueUniqueBatch(jobs: seq<NewJob>) returns (out: seq<NewJob>)
      requires Keyed(jobs)
      modifies `active
      ensures (active, out) == Inserted(old(active), jobs)
    {
      out := [];
      for i := 0 to |jobs|
        invariant (active, out) == Inserted(old(active), jobs[..i])
      {
        assert jobs[..i + 1][..i] == jobs[..i];
        var key := jobs[i].uniqueKey.value;
        if key in active {
          out := out + [active[key]];
        } else {
          active := active[key := jobs[i]];
          out := out + [jobs[i]];
        }
      }
      assert jobs[..|jobs|] == jobs;
    }

    /**
     A message is stored exactly for a topic that is read or declared as a log; its expiry
     is the publish call's, except that a declared topic nobody reads gives its retention
     to a call without one. The fan-out is inserted, deduplicated exactly when it is keyed.
    */
    method PublishToTopic(r: Request, subs: seq<Subscription>, declared: Option<LogTopic>, now: int)
      returns (created: seq<NewJob>)
      modifies this
      ensures !ReadAsLog(subs) && declared.None? ==> messages == old(messages)
      ensures ReadAsLog(subs) || (declared.Some? && (r.expiresAt.Some? || declared.value.retentionMs.None?)) ==>
                messages == old(messages) + [Message(r.topic, r.payload, r.expiresAt)]
      ensures !ReadAsLog(subs) && declared.Some? && r.expiresAt.None? && declared.value.retentionMs.Some? ==>
                messages == old(messages) + [Message(r.topic, r.payload, Some(now + declared.value.retentionMs.value))]
      ensures r.key.None? ==> active == old(active) && created == FanOut(r, subs)
                              && unkeyed == old(unkeyed) + FanOut(r, subs)
      ensures r.key.Some? ==> unkeyed == old(unkeyed) && AllKeyed(r, subs)
                              && (active, created) == Inserted(old(active), FanOut(r, subs))
    {
      var read := HasLogSubscriber(subs);
      var log: Option<Option<int>> := None;
      if read {
        log := Some(r.expiresAt);
      } else if declared.Some? {
        if r.expiresAt.None? && declared.value.retentionMs.Some? {
          log := Some(Some(now + declared.value.retentionMs.value));
        } else {
          log := Some(r.expiresAt);
        }
      }
      if log.Some? {
        messages := messages + [Message(r.topic, r.payload, log.value)];
      }
      FanOutKeyed(r, subs);
      var jobs := Deliveries(r, subs);
      if jobs == [] {
        return [];
      }
      if r.key.None? {
        unkeyed := unkeyed + jobs;
        return jobs;
      }
      created := EnqueueUniqueBatch(jobs);
    }
  }

  method HasLogSubscriber(subs: seq<Subscription>) returns (found: bool)
    ensures found <==> ReadAsLog(subs)
  {
    found := false;
    for i := 0 to |subs|
      invariant found <==> exists k :: 0 <= k < i && subs[k].isLog
    {
      if subs[i].isLog {
        found := true;
      }
    }
  }

  method Deliveries(r: Request, subs: seq<Subscription>) returns (jobs: seq<NewJob>)
    ensures jobs == FanOut(r, subs)
  {
    jobs := [];
    for i := 0 to |subs|
      invariant jobs == FanOut(r, subs[..i])
    {
      assert subs[..i + 1][..i] == subs[..i];
      if !subs[i].isLog {
        jobs := jobs + [DeliveryJob(r, subs[i])];
      }
    }
    assert subs[..|subs|] == subs;
  }

  // ------------------------------------------------------------- what a publish does

  predicate Keyed(jobs: seq<NewJob>) {
    forall i :: 0 <= i < |jobs| ==> jobs[i].uniqueKey.Some?
  }

  predicate AllKeyed(r: Request, subs: seq<Subscription>) {
    Keyed(FanOut(r, subs))
  }

  predicate DistinctNames(subs: seq<Subscription>) {
    forall i, j :: 0 <= i < j < |subs| ==> subs[i].name != subs[j].name
  }

  predicate DistinctKeys(jobs: seq<NewJob>) {
    forall i, j :: 0 <= i < j < |jobs| ==> jobs[i].uniqueKey != jobs[j].uniqueKey
  }

  /** Every delivery comes from a fan-out subscription, and carries that subscription's salted key. */
  predicate Delivers(r: Request, subs: seq<Subscription>, job: NewJob) {
    exists k :: 0 <= k < |subs| && !subs[k].isLog && job == DeliveryJob(r, subs[k])
  }

  lemma {:induction false} FanOutDelivers(r: Request, subs: seq<Subscription>)
    ensures forall i :: 0 <= i < |FanOut(r, subs)| ==> Delivers(r, subs, FanOut(r, subs)[i])
  {
    if subs != [] {
      var front := subs[..|subs| - 1];
      FanOutDelivers(r, front);
      var jobs := FanOut(r, subs);
      forall i | 0 <= i < |jobs| ensures Delivers(r, subs, jobs[i]) {
        if i < |FanOut(r, front)| {
          assert Delivers(r, front, FanOut(r, front)[i]);
          var k :| 0 <= k < |front| && !front[k].isLog && jobs[i] == DeliveryJob(r, front[k]);
          assert subs[k] == front[k];
        } else {
          assert jobs[i] == DeliveryJob(r, subs[|subs| - 1]);
        }
      }
    }
  }

  /** And every fan-out subscription gets its delivery. */
  lemma {:induction false} FanOutReachesAll(r: Request, subs: seq<Subscription>, k: nat)
    requires k < |subs| && !subs[k].isLog
    ensures DeliveryJob(r, subs[k]) in FanOut(r, subs)
  {
    if k < |subs| - 1 {
      FanOutReachesAll(r, subs[..|subs| - 1], k);
    }
  }

  lemma FanOutKeyed(r: Request, subs: seq<Subscription>)
    ensures r.key.Some? ==> AllKeyed(r, subs)
  {
    FanOutDelivers(r, subs);
  }

  /** A keyed fan-out over distinct subscriptions gives pairwise distinct unique keys. */
  lemma {:induction false} FanOutDistinct(r: Request, subs: seq<Subscription>)
    requires r.key.Some? && DistinctNames(subs)
    ensures DistinctKeys(FanOut(r, subs))
  {
    if subs != [] {
      var front, last := subs[..|subs| - 1], subs[|subs| - 1];
      FanOutDistinct(r, front);
      FanOutDelivers(r, front);
      var jobs := FanOut(r, front);
      if !last.isLog {
        forall i | 0 <= i < |jobs| ensures jobs[i].uniqueKey != DeliveryJob(r, last).uniqueKey {
          assert Delivers(r, front, jobs[i]);
          var k :| 0 <= k < |front| && !front[k].isLog && jobs[i] == DeliveryJob(r, front[k]);
          assert front[k] == subs[k];
          SaltedKeyInjective(r.key.value, r.topic, front[k].name, r.topic, last.name);
        }
      }
    }
  }

  predicate NoneActive(active: Active, jobs: seq<NewJob>) {
    forall i :: 0 <= i < |jobs| ==> jobs[i].uniqueKey.Some? && jobs[i].uniqueKey.value !in active
  }

  predicate AllActive(active: Active, jobs: seq<NewJob>) {
    forall i :: 0 <= i < |jobs| ==>
      jobs[i].uniqueKey.Some? && jobs[i].uniqueKey.value in active && active[jobs[i].uniqueKey.value] == jobs[i]
  }

  function KeysOf(jobs: seq<NewJob>): set<Str> {
    set i | 0 <= i < |jobs| && jobs[i].uniqueKey.Some? :: jobs[i].uniqueKey.value
  }

  lemma KeysOfSnoc(jobs: seq<NewJob>, job: NewJob)
    requires job.uniqueKey.Some?
    ensures KeysOf(jobs + [job]) == KeysOf(jobs) + {job.uniqueKey.value}
  {
    var all := jobs + [job];
    forall k | k in KeysOf(jobs) + {job.uniqueKey.value} ensures k in KeysOf(all) {
      if k == job.uniqueKey.value {
        assert all[|jobs|] == job;
      } else {
        var i :| 0 <= i < |jobs| && jobs[i].uniqueKey.Some? && jobs[i].uniqueKey.value == k;
        assert all[i] == jobs[i];
      }
    }
  }

  /** With distinct keys that are not in use, every job of a batch is inserted. */
  lemma {:induction false} InsertedFresh(active: Active, jobs: seq<NewJob>)
    requires NoneActive(active, jobs) && DistinctKeys(jobs)
    ensures var (after, out) := Inserted(active, jobs);
            out == jobs && AllActive(after, jobs) && after.Keys == active.Keys + KeysOf(jobs)
  {
    if jobs != [] {
      var front, job := jobs[..|jobs| - 1], jobs[|jobs| - 1];
      InsertedFresh(active, front);
      KeysOfSnoc(front, job);
      assert jobs == front + [job];
      assert job.uniqueKey.value !in KeysOf(front);
    }
  }

  /** `held` are the active jobs under the keys of `jobs`. */
  predicate HeldBy(active: Active, jobs: seq<NewJob>, held: seq<NewJob>) {
    |jobs| == |held| && forall i :: 0 <= i < |jobs| ==>
      && jobs[i].uniqueKey.Some? && jobs[i].uniqueKey.value in active
      && active[jobs[i].uniqueKey.value] == held[i]
  }

  /** A batch whose keys are all in use creates nothing and returns the jobs that hold them. */
  lemma {:induction false} InsertedHeld(active: Active, jobs: seq<NewJob>, held: seq<NewJob>)
    requires HeldBy(active, jobs, held)
    ensures Inserted(active, jobs) == (active, held)
    decreases |jobs|
  {
    if jobs != [] {
      InsertedHeld(active, jobs[..|jobs| - 1], held[..|held| - 1]);
      assert held == held[..|held| - 1] + [held[|held| - 1]];
    }
  }

  /** The same readers by name and kind; their tasks, queues and settings may have changed. */
  predicate SameReaders(subs: seq<Subscription>, later: seq<Subscription>) {
    |subs| == |later| && forall i :: 0 <= i < |subs| ==> subs[i].name == later[i].name && subs[i].isLog == later[i].isLog
  }

  lemma {:induction false} SameKeys(r: Request, q: Request, subs: seq<Subscription>, later: seq<Subscription>)
    requires r.key.Some? && q.key == r.key && q.topic == r.topic && SameReaders(subs, later)
    ensures |FanOut(q, later)| == |FanOut(r, subs)|
    ensures forall i :: 0 <= i < |FanOut(r, subs)| ==>
              FanOut(q, later)[i].uniqueKey == FanOut(r, subs)[i].uniqueKey && FanOut(r, subs)[i].uniqueKey.Some?
  {
    if subs != [] {
      SameKeys(r, q, subs[..|subs| - 1], later[..|later| - 1]);
    }
  }

  /**
   A keyed publish whose keys are not in use reaches every fan-out subscriber with a
   job of its own. Any later publish to the topic under the same key, whatever its payload
   and settings and whatever has changed about the subscribers but their names and kinds,
   creates nothing while those jobs are active and returns them.
  */
  lemma PublishOnce(r: Request, subs: seq<Subscription>, active: Active, q: Request, later: seq<Subscription>)
    requires r.key.Some? && DistinctNames(subs) && NoneActive(active, FanOut(r, subs))
    requires q.key == r.key && q.topic == r.topic && SameReaders(subs, later)
    ensures AllKeyed(q, later)
    ensures var (after, out) := Inserted(active, FanOut(r, subs));
            out == FanOut(r, subs) && Inserted(after, FanOut(q, later)) == (after, out)
  {
    FanOutDistinct(r, subs);
    FanOutKeyed(q, later);
    InsertedFresh(active, FanOut(r, subs));
    SameKeys(r, q, subs, later);
    InsertedHeld(Inserted(active, FanOut(r, subs)).0, FanOut(q, later), FanOut(r, subs));
  }

  // ------------------------------------------------------------ publishes apart

  /** Different topics under one key, or two keys that cannot share a salted key. */
  ghost predicate Apart(r: Request, q: Request) {
    && r.key.Some? && q.key.Some?
    && if r.key == q.key then r.topic != q.topic
       else !Overlaps(r.key.value, q.key.value) && !Overlaps(q.key.value, r.key.value)
  }

  lemma DeliveriesApart(r: Request, a: Subscription, q: Request, b: Subscription)
    requires Apart(r, q)
    ensures DeliveryJob(r, a).uniqueKey != DeliveryJob(q, b).uniqueKey
  {
    if r.key == q.key {
      SaltedKeyInjective(r.key.value, r.topic, a.name, q.topic, b.name);
    } else {
      KeysCollideIff(r.key.value, q.key.value);
      assert SaltedUniqueKey(r.key.value, r.topic, a.name) != SaltedUniqueKey(q.key.value, q.topic, b.name);
    }
  }

  lemma FanOutsApart(r: Request, subs: seq<Subscription>, q: Request, others: seq<Subscription>, i: nat, j: nat)
    requires Apart(r, q) && i < |FanOut(r, subs)| && j < |FanOut(q, others)|
    ensures FanOut(r, subs)[i].uniqueKey != FanOut(q, others)[j].uniqueKey
  {
    FanOutDelivers(r, subs);
    FanOutDelivers(q, others);
    assert Delivers(r, subs, FanOut(r, subs)[i]) && Delivers(q, others, FanOut(q, others)[j]);
    var a :| 0 <= a < |subs| && !subs[a].isLog && FanOut(r, subs)[i] == DeliveryJob(r, subs[a]);
    var b :| 0 <= b < |others| && !others[b].isLog && FanOut(q, others)[j] == DeliveryJob(q, others[b]);
    DeliveriesApart(r, subs[a], q, others[b]);
  }

  predicate SameAt(a: Active, b: Active, key: Str) {
    (key in a <==> key in b) && (key in a ==> a[key] == b[key])
  }

  /** A batch touches no key but its own jobs'. */
  lemma {:induction false} InsertedElsewhere(active: Active, jobs: seq<NewJob>, key: Str)
    requires Keyed(jobs) && forall i :: 0 <= i < |jobs| ==> jobs[i].uniqueKey != Some(key)
    ensures SameAt(Inserted(active, jobs).0, active, key)
  {
    if jobs != [] {
      InsertedElsewhere(active, jobs[..|jobs| - 1], key);
    }
  }

  /** What a batch returns depends only on who holds its own keys. */
  lemma {:induction false} InsertedAgrees(a: Active, b: Active, jobs: seq<NewJob>, all: seq<NewJob>)
    requires Keyed(all) && jobs <= all
    requires forall i :: 0 <= i < |all| ==> SameAt(a, b, all[i].uniqueKey.value)
    ensures Keyed(jobs) && Inserted(a, jobs).1 == Inserted(b, jobs).1
    ensures forall i :: 0 <= i < |all| ==>
              SameAt(Inserted(a, jobs).0, Inserted(b, jobs).0, all[i].uniqueKey.value)
    decreases |jobs|
  {
    if jobs != [] {
      InsertedAgrees(a, b, jobs[..|jobs| - 1], all);
      assert all[|jobs| - 1] == jobs[|jobs| - 1];
    }
  }

  /** A publish never takes a delivery from another one that is apart from it, whatever either carries. */
  lemma PublishesApart(r: Request, subs: seq<Subscription>, q: Request, others: seq<Subscription>, active: Active)
    requires Apart(r, q)
    ensures AllKeyed(r, subs) && AllKeyed(q, others)
    ensures Inserted(Inserted(active, FanOut(r, subs)).0, FanOut(q, others)).1 == Inserted(active, FanOut(q, others)).1
  {
    FanOutKeyed(r, subs);
    FanOutKeyed(q, others);
    var mine, jobs := FanOut(r, subs), FanOut(q, others);
    forall j | 0 <= j < |jobs| ensures SameAt(Inserted(active, mine).0, active, jobs[j].uniqueKey.value) {
      forall i | 0 <= i < |mine| ensures mine[i].uniqueKey != Some(jobs[j].uniqueKey.value) {
        FanOutsApart(r, subs, q, others, i, j);
      }
      InsertedElsewhere(active, mine, jobs[j].uniqueKey.value);
    }
    InsertedAgrees(Inserted(active, mine).0, active, jobs, jobs);
  }
}
