/**
 The bounded prefetch buffer and the node that counts what passes through it
 (crates/flexiq-mesh/src/local_deque.rs and lib.rs). The owner works the back,
 thieves take from the front.
*/
module Deque {
  import opened Text
  import opened Wrappers

  datatype Job = Job(id: nat, task: Str)

  /** Which task names the local worker owns. */
  type Affinity = Str -> bool

  function Min(a: nat, b: nat): nat {
    if a <= b then a else b
  }

  /** The jobs whose ownership is `owned`, in their original order. */
  function Chosen(jobs: seq<Job>, owner: Affinity, owned: bool): seq<Job> {
    if jobs == [] then []
    else
      var front := Chosen(jobs[..|jobs| - 1], owner, owned);
      if owner(jobs[|jobs| - 1].task) == owned then front + [jobs[|jobs| - 1]] else front
  }

  /** Non-owned jobs first, owned jobs last, each group in its original order. */
  function Partitioned(jobs: seq<Job>, owner: Affinity): seq<Job> {
    Chosen(jobs, owner, false) + Chosen(jobs, owner, true)
  }

  predicate AllAre(jobs: seq<Job>, owner: Affinity, owned: bool) {
    forall i :: 0 <= i < |jobs| ==> owner(jobs[i].task) == owned
  }

  /** No owned job stands before a non-owned one. */
  predicate KeySorted(jobs: seq<Job>, owner: Affinity) {
    forall i, j :: 0 <= i < j < |jobs| && owner(jobs[i].task) ==> owner(jobs[j].task)
  }

  lemma {:induction false} ChosenAre(jobs: seq<Job>, owner: Affinity, owned: bool)
    ensures AllAre(Chosen(jobs, owner, owned), owner, owned)
  {
    if jobs != [] {
      ChosenAre(jobs[..|jobs| - 1], owner, owned);
    }
  }

  /** The partition keeps every job, and loses and repeats none. */
  lemma {:induction false} PartitionedKeeps(jobs: seq<Job>, owner: Affinity)
    ensures multiset(Partitioned(jobs, owner)) == multiset(jobs)
    ensures |Partitioned(jobs, owner)| == |jobs|
  {
    if jobs != [] {
      PartitionedKeeps(jobs[..|jobs| - 1], owner);
      assert jobs == jobs[..|jobs| - 1] + [jobs[|jobs| - 1]];
    }
  }

  lemma PartitionedSorted(jobs: seq<Job>, owner: Affinity)
    ensures KeySorted(Partitioned(jobs, owner), owner)
  {
    ChosenAre(jobs, owner, false);
    ChosenAre(jobs, owner, true);
  }

  lemma {:induction false} ChosenConcat(a: seq<Job>, b: seq<Job>, owner: Affinity, owned: bool)
    ensures Chosen(a + b, owner, owned) == Chosen(a, owner, owned) + Chosen(b, owner, owned)
  {
    if b == [] {
      assert a + b == a;
    } else {
      ChosenConcat(a, b[..|b| - 1], owner, owned);
      assert (a + b)[..|a + b| - 1] == a + b[..|b| - 1];
    }
  }

  lemma {:induction false} ChosenOfUniform(jobs: seq<Job>, owner: Affinity, owned: bool)
    requires AllAre(jobs, owner, owned)
    ensures Chosen(jobs, owner, owned) == jobs && Chosen(jobs, owner, !owned) == []
  {
    if jobs != [] {
      ChosenOfUniform(jobs[..|jobs| - 1], owner, owned);
      assert jobs == jobs[..|jobs| - 1] + [jobs[|jobs| - 1]];
    }
  }

  /** A stable sort by ownership: ordered by the key, equal keys in their original order. */
  predicate IsStableSort(jobs: seq<Job>, sorted: seq<Job>, owner: Affinity) {
    && KeySorted(sorted, owner)
    && (forall owned: bool :: Chosen(sorted, owner, owned) == Chosen(jobs, owner, owned))
  }

  /** Where a key-sorted sequence turns from non-owned to owned. */
  lemma {:induction false} KeySortedSplits(sorted: seq<Job>, owner: Affinity) returns (k: nat)
    requires KeySorted(sorted, owner)
    ensures k <= |sorted| && AllAre(sorted[..k], owner, false) && AllAre(sorted[k..], owner, true)
  {
    if sorted == [] || !owner(sorted[|sorted| - 1].task) {
      k := |sorted|;
    } else {
      k := KeySortedSplits(sorted[..|sorted| - 1], owner);
      assert sorted[..|sorted| - 1][..k] == sorted[..k];
      forall i | k <= i < |sorted| ensures owner(sorted[i].task) {
        assert i < |sorted| - 1 ==> sorted[i] == sorted[..|sorted| - 1][k..][i - k];
      }
    }
  }

  lemma PartitionIsStable(jobs: seq<Job>, owner: Affinity)
    ensures IsStableSort(jobs, Partitioned(jobs, owner), owner)
  {
    var cold, hot := Chosen(jobs, owner, false), Chosen(jobs, owner, true);
    PartitionedSorted(jobs, owner);
    ChosenAre(jobs, owner, false);
    ChosenAre(jobs, owner, true);
    ChosenOfUniform(cold, owner, false);
    ChosenOfUniform(hot, owner, true);
    ChosenConcat(cold, hot, owner, false);
    ChosenConcat(cold, hot, owner, true);
  }

  lemma StableIsPartition(jobs: seq<Job>, sorted: seq<Job>, owner: Affinity)
    requires IsStableSort(jobs, sorted, owner)
    ensures sorted == Partitioned(jobs, owner)
  {
    var k := KeySortedSplits(sorted, owner);
    var cold, hot := sorted[..k], sorted[k..];
    assert sorted == cold + hot;
    ChosenConcat(cold, hot, owner, false);
    ChosenConcat(cold, hot, owner, true);
    ChosenOfUniform(cold, owner, false);
    ChosenOfUniform(hot, owner, true);
  }

  /** There is one stable sort, and it is the partition. */
  lemma StableSortIsPartition(jobs: seq<Job>, sorted: seq<Job>, owner: Affinity)
    ensures IsStableSort(jobs, sorted, owner) <==> sorted == Partitioned(jobs, owner)
  {
    PartitionIsStable(jobs, owner);
    if IsStableSort(jobs, sorted, owner) {
      StableIsPartition(jobs, sorted, owner);
    }
  }

  /** The standard library's stable sort under the key "owned last". */
  method SortByOwnership(jobs: seq<Job>, owner: Affinity) returns (sorted: seq<Job>)
    ensures IsStableSort(jobs, sorted, owner)
  {
    var cold: seq<Job>, hot: seq<Job> := [], [];
    for i := 0 to |jobs|
      invariant cold == Chosen(jobs[..i], owner, false)
      invariant hot == Chosen(jobs[..i], owner, true)
    {
      assert jobs[..i + 1][..i] == jobs[..i];
      if owner(jobs[i].task) {
        hot := hot + [jobs[i]];
      } else {
        cold := cold + [jobs[i]];
      }
    }
    assert jobs[..|jobs|] == jobs;
    sorted := cold + hot;
    StableSortIsPartition(jobs, sorted, owner);
  }

  /** The jobs a push of `jobs` lets in when `held` are already buffered. */
  function Admitted(jobs: seq<Job>, held: nat, capacity: nat): seq<Job> {
    var room := if held <= capacity then capacity - held else 0;
    jobs[..Min(|jobs|, room)]
  }

  class LocalDeque {
    var inner: seq<Job>
    const capacity: nat

    constructor (room: nat)
      ensures inner == [] && capacity == room
    {
      inner, capacity := [], room;
    }

    method Push(job: Job) returns (pushed: bool)
      modifies this
      ensures pushed == (|old(inner)| < capacity)
      ensures inner == if pushed then old(inner) + [job] else old(inner)
    {
      if |inner| >= capacity {
        return false;
      }
      inner := inner + [job];
      pushed := true;
    }

    method Pop() returns (job: Option<Job>)
      modifies this
      ensures if old(inner) == [] then job == None && inner == []
              else job.Some? && old(inner) == inner + [job.value]
    {
      if inner == [] {
        return None;
      }
      job := Some(inner[|inner| - 1]);
      inner := inner[..|inner| - 1];
    }

    method Steal(count: nat) returns (stolen: seq<Job>)
      modifies this
      ensures |stolen| == Min(count, |old(inner)|) && old(inner) == stolen + inner
    {
      var n := Min(count, |inner|);
      stolen := [];
      for i := 0 to n
        invariant |stolen| == i && i + |inner| == |old(inner)| && old(inner) == stolen + inner
      {
        stolen := stolen + [inner[0]];
        inner := inner[1..];
      }
    }

    method PushSorted(jobs: seq<Job>, owner: Affinity) returns (pushed: nat)
      modifies this
      ensures inner == old(inner) + Partitioned(Admitted(jobs, |old(inner)|, capacity), owner)
      ensures pushed == |Admitted(jobs, |old(inner)|, capacity)|
      ensures |old(inner)| <= capacity ==> |inner| <= capacity
    {
      var room := if |inner| <= capacity then capacity - |inner| else 0;
      var kept := if room < |jobs| then jobs[..room] else jobs;
      assert kept == Admitted(jobs, |inner|, capacity);
      var sorted := SortByOwnership(kept, owner);
      StableSortIsPartition(kept, sorted, owner);
      PartitionedKeeps(kept, owner);
      pushed := |sorted|;
      for i := 0 to |sorted|
        invariant inner == old(inner) + sorted[..i]
      {
        inner := inner + [sorted[i]];
      }
      assert sorted[..|sorted|] == sorted;
    }
  }

  /** A node's buffer and counters. Every buffered job is counted in once and out once. */
  class MeshNode {
    const deque: LocalDeque
    const enableStealing: bool
    const stealThreshold: nat
    var prefetchCount: nat
    var prefetchJobs: nat
    var localPops: nat
    var jobsStolenIn: nat
    var jobsStolenOut: nat

    ghost predicate Balanced()
      reads this, deque
    {
      && prefetchJobs == localPops + jobsStolenOut + |deque.inner|
      && |deque.inner| <= deque.capacity
    }

    constructor (capacity: nat, stealing: bool, threshold: nat)
      ensures Balanced() && deque.inner == [] && deque.capacity == capacity && fresh(deque)
      ensures enableStealing == stealing && stealThreshold == threshold
    {
      deque := new LocalDeque(capacity);
      enableStealing, stealThreshold := stealing, threshold;
      prefetchCount, prefetchJobs, localPops, jobsStolenIn, jobsStolenOut := 0, 0, 0, 0, 0;
    }

    method PopLocal() returns (job: Option<Job>)
      requires Balanced()
      modifies `localPops, deque
      ensures Balanced()
      ensures if old(deque.inner) == [] then job == None && deque.inner == [] && localPops == old(localPops)
              else job.Some? && old(deque.inner) == deque.inner + [job.value] && localPops == old(localPops) + 1
    {
      job := deque.Pop();
      if job.Some? {
        localPops := localPops + 1;
      }
    }

    method Prefetch(jobs: seq<Job>, owner: Affinity) returns (pushed: nat)
      requires Balanced()
      modifies `prefetchCount, `prefetchJobs, deque
      ensures Balanced()
      ensures deque.inner == old(deque.inner) + Partitioned(Admitted(jobs, |old(deque.inner)|, deque.capacity), owner)
      ensures pushed == |Admitted(jobs, |old(deque.inner)|, deque.capacity)|
      ensures prefetchJobs == old(prefetchJobs) + pushed
      ensures prefetchCount == old(prefetchCount) + (if jobs == [] then 0 else 1)
    {
      if jobs == [] {
        return 0;
      }
      prefetchCount := prefetchCount + 1;
      PartitionedKeeps(Admitted(jobs, |deque.inner|, deque.capacity), owner);
      pushed := deque.PushSorted(jobs, owner);
      prefetchJobs := prefetchJobs + pushed;
    }

    method GiveJobs(count: nat) returns (stolen: seq<Job>)
      requires Balanced()
      modifies `jobsStolenOut, deque
      ensures Balanced()
      ensures old(deque.inner) == stolen + deque.inner && |stolen| == Min(count, |old(deque.inner)|)
      ensures jobsStolenOut == old(jobsStolenOut) + |stolen|
    {
      stolen := deque.Steal(count);
      jobsStolenOut := jobsStolenOut + |stolen|;
    }

    predicate ShouldSteal()
      reads deque
    {
      enableStealing && |deque.inner| <= stealThreshold
    }

    /** `offered` is what the chosen peer hands over, or `None` when no peer has a surplus. */
    method TrySteal(offered: Option<seq<Job>>, owner: Affinity) returns (count: nat)
      requires Balanced()
      modifies `prefetchCount, `prefetchJobs, `jobsStolenIn, deque
      ensures Balanced()
      ensures var taken := if old(ShouldSteal()) && offered.Some? then offered.value else [];
              && count == |taken| && jobsStolenIn == old(jobsStolenIn) + |taken|
              && deque.inner == old(deque.inner) + Partitioned(Admitted(taken, |old(deque.inner)|, deque.capacity), owner)
    {
      if !ShouldSteal() || offered.None? {
        return 0;
      }
      count := |offered.value|;
      if count > 0 {
        jobsStolenIn := jobsStolenIn + count;
        var pushed := Prefetch(offered.value, owner);
      }
    }
  }
}
