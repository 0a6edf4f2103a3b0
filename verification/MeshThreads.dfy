/**
 The membership operations as threads. Each writer takes `members`, writes the
 map, takes `ring`, writes the ring, and lets the two go in the opposite order;
 each reader takes one of the two. Every lock operation and every write is a
 step of its own, so any number of threads interleave in any way.
*/
module MeshThreads {
  import opened Ring
  import opened Wrappers
  import opened MeshState

  type Tid = nat

  datatype LockName = MembersLock | RingLock

  datatype RwLock = RwLock(writer: Option<Tid>, readers: set<Tid>)

  /** Where a thread is; `counts` is whether its operation will move the churn counter. */
  datatype Phase =
    | Idle
    | Waiting(op: Op)
    | Holding(op: Op)
    | MapWritten(op: Op, counts: bool, writes: bool)
    | RingHeld(op: Op, counts: bool)
    | RingWritten(op: Op, counts: bool)
    | RingReleased(op: Op, counts: bool)
    | Released(counts: bool)
    | WaitingToRead(lock: LockName)
    | Reading(lock: LockName)

  /**
   `log`, `authors` and `changes` are history: the operations in commit order, the
   threads that committed them, and how often the ring changed.
  */
  datatype World = World(
    members: Members,
    ring: Points,
    recalculations: nat,
    membersLock: RwLock,
    ringLock: RwLock,
    threads: map<Tid, Phase>,
    log: seq<Op>,
    authors: seq<Tid>,
    changes: nat)

  datatype Event = Call(t: Tid, op: Op) | Read(t: Tid, lock: LockName) | Step(t: Tid)

  const FREE := RwLock(None, {})

  function InitialWorld(cfg: Config, threads: set<Tid>): World {
    var c := Initial(cfg);
    World(c.members, c.ring, 0, FREE, FREE, map t | t in threads :: Idle, [], [], 0)
  }

  predicate NoWriter(l: RwLock) {
    l.writer.None?
  }

  predicate Free(l: RwLock) {
    l.writer.None? && l.readers == {}
  }

  function At(w: World, t: Tid, phase: Phase): World {
    w.(threads := w.threads[t := phase])
  }

  /** The one thing thread `t` can do next, or `None` when it has nothing to do or is blocked. */
  function Go(cfg: Config, w: World, t: Tid): Option<World>
    requires t in w.threads
  {
    match w.threads[t]
    case Idle => None
    case Waiting(op) =>
      if Free(w.membersLock) then Some(At(w.(membersLock := RwLock(Some(t), {})), t, Holding(op))) else None
    case Holding(op) =>
      Some(At(w.(members := MapEffect(w.members, op), log := w.log + [op], authors := w.authors + [t]), t,
              MapWritten(op, Counts(w.members, op), WritesRing(w.members, op))))
    case MapWritten(op, counts, writes) =>
      if !writes then Some(At(w.(membersLock := FREE), t, Released(counts)))
      else if Free(w.ringLock) then Some(At(w.(ringLock := RwLock(Some(t), {})), t, RingHeld(op, counts)))
      else None
    case RingHeld(op, counts) =>
      var ring := RingEffect(cfg, w.ring, op);
      Some(At(w.(ring := ring, changes := w.changes + if ring != w.ring then 1 else 0), t, RingWritten(op, counts)))
    case RingWritten(op, counts) => Some(At(w.(ringLock := FREE), t, RingReleased(op, counts)))
    case RingReleased(op, counts) => Some(At(w.(membersLock := FREE), t, Released(counts)))
    case Released(counts) =>
      Some(At(w.(recalculations := w.recalculations + if counts then 1 else 0), t, Idle))
    case WaitingToRead(MembersLock) =>
      if NoWriter(w.membersLock)
      then Some(At(w.(membersLock := RwLock(None, w.membersLock.readers + {t})), t, Reading(MembersLock))) else None
    case WaitingToRead(RingLock) =>
      if NoWriter(w.ringLock)
      then Some(At(w.(ringLock := RwLock(None, w.ringLock.readers + {t})), t, Reading(RingLock))) else None
    case Reading(MembersLock) =>
      Some(At(w.(membersLock := w.membersLock.(readers := w.membersLock.readers - {t})), t, Idle))
    case Reading(RingLock) =>
      Some(At(w.(ringLock := w.ringLock.(readers := w.ringLock.readers - {t})), t, Idle))
  }

  function Next(cfg: Config, w: World, e: Event): Option<World> {
    if e.t !in w.threads then None
    else match e
      case Call(t, op) => if w.threads[t].Idle? then Some(At(w, t, Waiting(op))) else None
      case Read(t, lock) => if w.threads[t].Idle? then Some(At(w, t, WaitingToRead(lock))) else None
      case Step(t) => Go(cfg, w, t)
  }

  /** The world after a run of events, or `None` when one of them was not possible. */
  function Exec(cfg: Config, threads: set<Tid>, run: seq<Event>): Option<World> {
    if run == [] then Some(InitialWorld(cfg, threads))
    else
      match Exec(cfg, threads, run[..|run| - 1])
      case None => None
      case Some(w) => Next(cfg, w, run[|run| - 1])
  }

  // ------------------------------------------------------------ what every run keeps

  predicate HoldsMembers(p: Phase) {
    p.Holding? || p.MapWritten? || p.RingHeld? || p.RingWritten? || p.RingReleased?
  }

  predicate HoldsRing(p: Phase) {
    p.RingHeld? || p.RingWritten?
  }

  predicate LockMatches(w: World, l: RwLock, name: LockName, t: Tid)
    requires t in w.threads
  {
    && (l.writer == Some(t) <==> if name.MembersLock? then HoldsMembers(w.threads[t]) else HoldsRing(w.threads[t]))
    && (t in l.readers <==> w.threads[t] == Reading(name))
  }

  predicate LockOk(w: World, l: RwLock, name: LockName) {
    && (l.writer.Some? ==> l.writer.value in w.threads && l.readers == {})
    && (forall t :: t in l.readers ==> t in w.threads)
    && (forall t :: t in w.threads ==> LockMatches(w, l, name, t))
  }

  predicate LocksOk(w: World) {
    LockOk(w, w.membersLock, MembersLock) && LockOk(w, w.ringLock, RingLock)
  }

  /** Map and ring are those of the committed operations, the last of which may still be on its way. */
  predicate DataOk(cfg: Config, w: World) {
    match w.membersLock.writer
    case None => w.members == Run(cfg, w.log).members && w.ring == Run(cfg, w.log).ring
    case Some(t) => t in w.threads && WriterOk(cfg, w, w.threads[t])
  }

  predicate WriterOk(cfg: Config, w: World, p: Phase) {
    && w.members == Run(cfg, w.log).members
    && match p
       case Holding(_) => w.ring == Run(cfg, w.log).ring
       case MapWritten(op, _, writes) => Unfinished(cfg, w, op, writes)
       case RingHeld(op, _) => Unfinished(cfg, w, op, true)
       case _ => w.ring == Run(cfg, w.log).ring
  }

  /** The map has the last committed operation and the ring does not yet. */
  predicate Unfinished(cfg: Config, w: World, op: Op, writes: bool) {
    && w.log != [] && w.log[|w.log| - 1] == op
    && var before := Run(cfg, w.log[..|w.log| - 1]);
       w.ring == before.ring && writes == WritesRing(before.members, op)
  }

  predicate Inv(cfg: Config, w: World) {
    LocksOk(w) && DataOk(cfg, w)
  }

  lemma RunSnoc(cfg: Config, log: seq<Op>, op: Op)
    ensures Run(cfg, log + [op]) == Apply(cfg, Run(cfg, log), op)
  {
    assert (log + [op])[..|log|] == log;
  }

  lemma GoKeepsMembersLock(cfg: Config, w: World, t: Tid)
    requires LocksOk(w) && t in w.threads && Go(cfg, w, t).Some?
    ensures var v := Go(cfg, w, t).value; LockOk(v, v.membersLock, MembersLock)
  {
    var v := Go(cfg, w, t).value;
    assert LockMatches(w, w.membersLock, MembersLock, t);
    forall u | u in v.threads ensures LockMatches(v, v.membersLock, MembersLock, u) {
      assert LockMatches(w, w.membersLock, MembersLock, u);
    }
  }

  lemma GoKeepsRingLock(cfg: Config, w: World, t: Tid)
    requires LocksOk(w) && t in w.threads && Go(cfg, w, t).Some?
    ensures var v := Go(cfg, w, t).value; LockOk(v, v.ringLock, RingLock)
  {
    var v := Go(cfg, w, t).value;
    assert LockMatches(w, w.ringLock, RingLock, t);
    forall u | u in v.threads ensures LockMatches(v, v.ringLock, RingLock, u) {
      assert LockMatches(w, w.ringLock, RingLock, u);
    }
  }

  lemma MapWriteKeepsData(cfg: Config, w: World, t: Tid)
    requires Inv(cfg, w) && t in w.threads && w.threads[t].Holding?
    ensures DataOk(cfg, Go(cfg, w, t).value)
  {
    var v := Go(cfg, w, t).value;
    assert LockMatches(w, w.membersLock, MembersLock, t);
    RunSnoc(cfg, w.log, w.threads[t].op);
    assert v.log[..|v.log| - 1] == w.log;
  }

  lemma RingWriteKeepsData(cfg: Config, w: World, t: Tid)
    requires Inv(cfg, w) && t in w.threads && (w.threads[t].MapWritten? || w.threads[t].RingHeld?)
    requires Go(cfg, w, t).Some?
    ensures DataOk(cfg, Go(cfg, w, t).value)
  {
    assert LockMatches(w, w.membersLock, MembersLock, t);
    var front, op := w.log[..|w.log| - 1], w.threads[t].op;
    assert w.log == front + [op];
    RunSnoc(cfg, front, op);
  }

  lemma GoKeepsData(cfg: Config, w: World, t: Tid)
    requires Inv(cfg, w) && t in w.threads && Go(cfg, w, t).Some?
    ensures DataOk(cfg, Go(cfg, w, t).value)
  {
    assert LockMatches(w, w.membersLock, MembersLock, t);
    match w.threads[t]
    case Holding(_) => MapWriteKeepsData(cfg, w, t);
    case MapWritten(_, _, _) => RingWriteKeepsData(cfg, w, t);
    case RingHeld(_, _) => RingWriteKeepsData(cfg, w, t);
    case _ =>
  }

  lemma NextKeepsInv(cfg: Config, w: World, e: Event)
    requires Inv(cfg, w) && Next(cfg, w, e).Some?
    ensures Inv(cfg, Next(cfg, w, e).value)
  {
    if e.Step? {
      GoKeepsMembersLock(cfg, w, e.t);
      GoKeepsRingLock(cfg, w, e.t);
      GoKeepsData(cfg, w, e.t);
    } else {
      var v := Next(cfg, w, e).value;
      assert LockMatches(w, w.membersLock, MembersLock, e.t) && LockMatches(w, w.ringLock, RingLock, e.t);
      forall u | u in v.threads
        ensures LockMatches(v, v.membersLock, MembersLock, u) && LockMatches(v, v.ringLock, RingLock, u)
      {
        assert LockMatches(w, w.membersLock, MembersLock, u) && LockMatches(w, w.ringLock, RingLock, u);
      }
    }
  }

  lemma {:induction false} ExecInv(cfg: Config, threads: set<Tid>, run: seq<Event>)
    requires Exec(cfg, threads, run).Some?
    ensures Inv(cfg, Exec(cfg, threads, run).value)
    decreases |run|
  {
    if run != [] {
      ExecInv(cfg, threads, run[..|run| - 1]);
      NextKeepsInv(cfg, Exec(cfg, threads, run[..|run| - 1]).value, run[|run| - 1]);
    }
  }

  /**
   Whenever the `members` lock is free, map and ring are what the committed
   operations give one after the other, and no point belongs to a worker that is
   neither local nor alive.
  */
  lemma NoStrandedMember(cfg: Config, threads: set<Tid>, run: seq<Event>)
    requires Exec(cfg, threads, run).Some? && NoWriter(Exec(cfg, threads, run).value.membersLock)
    ensures var w := Exec(cfg, threads, run).value;
            && w.members == Run(cfg, w.log).members && w.ring == Run(cfg, w.log).ring
            && OwnersAlive(cfg, w.members, w.ring)
  {
    ExecInv(cfg, threads, run);
    RunOwnersAlive(cfg, Exec(cfg, threads, run).value.log);
  }

  /** A thread that holds the ring for reading sees the ring of a committed history. */
  lemma ReaderSeesCommitted(cfg: Config, threads: set<Tid>, run: seq<Event>, t: Tid)
    requires Exec(cfg, threads, run).Some?
    requires var w := Exec(cfg, threads, run).value; t in w.threads && w.threads[t] == Reading(RingLock)
    ensures var w := Exec(cfg, threads, run).value;
            w.ring == Run(cfg, w.log).ring || (w.log != [] && w.ring == Run(cfg, w.log[..|w.log| - 1]).ring)
  {
    ExecInv(cfg, threads, run);
  }

  // ------------------------------------------------- what is committed is what was called

  /** The operations a thread has called, in order. */
  function CallsOf(run: seq<Event>, t: Tid): seq<Op> {
    if run == [] then []
    else
      var last := run[|run| - 1];
      CallsOf(run[..|run| - 1], t) + if last.Call? && last.t == t then [last.op] else []
  }

  /** The operations a thread has committed, in order. */
  function CommitsOf(log: seq<Op>, authors: seq<Tid>, t: Tid): seq<Op>
    requires |log| == |authors|
  {
    if log == [] then []
    else
      var n := |log| - 1;
      CommitsOf(log[..n], authors[..n], t) + if authors[n] == t then [log[n]] else []
  }

  function Uncommitted(p: Phase): seq<Op> {
    if p.Waiting? || p.Holding? then [p.op] else []
  }

  predicate CommitsOk(w: World, t: Tid, calls: seq<Op>) {
    && t in w.threads && |w.log| == |w.authors|
    && calls == CommitsOf(w.log, w.authors, t) + Uncommitted(w.threads[t])
  }

  lemma CommitsSnoc(log: seq<Op>, authors: seq<Tid>, op: Op, u: Tid, t: Tid)
    requires |log| == |authors|
    ensures CommitsOf(log + [op], authors + [u], t) == CommitsOf(log, authors, t) + if u == t then [op] else []
  {
    assert (log + [op])[..|log|] == log && (authors + [u])[..|authors|] == authors;
  }

  /** A step commits the held operation of its thread, takes on a called one, or does neither. */
  lemma NextHistory(cfg: Config, w: World, e: Event)
    requires Next(cfg, w, e).Some?
    ensures e.t in w.threads
    ensures var v, p := Next(cfg, w, e).value, w.threads[e.t];
            && e.t in v.threads && v.threads == w.threads[e.t := v.threads[e.t]] && (e.Call? ==> p.Idle?)
            && if e.Step? && p.Holding?
               then v.log == w.log + [p.op] && v.authors == w.authors + [e.t] && Uncommitted(v.threads[e.t]) == []
               else && v.log == w.log && v.authors == w.authors
                    && Uncommitted(v.threads[e.t]) == (if e.Call? then [e.op] else Uncommitted(p))
  {
  }

  lemma NextCommits(cfg: Config, w: World, e: Event, t: Tid, calls: seq<Op>)
    requires CommitsOk(w, t, calls) && Next(cfg, w, e).Some?
    ensures CommitsOk(Next(cfg, w, e).value, t, calls + if e.Call? && e.t == t then [e.op] else [])
  {
    NextHistory(cfg, w, e);
    var v, before := Next(cfg, w, e).value, CommitsOf(w.log, w.authors, t);
    var after := before + if e.Step? && w.threads[e.t].Holding? && e.t == t then [w.threads[t].op] else [];
    assert CommitsOf(v.log, v.authors, t) == after by {
      if e.Step? && w.threads[e.t].Holding? {
        CommitsSnoc(w.log, w.authors, w.threads[e.t].op, e.t, t);
      }
    }
  }

  /**
   Every thread has committed exactly the operations it called, in the order it
   called them, up to the one it may still be waiting to commit.
  */
  lemma {:induction false} CommitsWhatWasCalled(cfg: Config, threads: set<Tid>, run: seq<Event>, t: Tid)
    requires Exec(cfg, threads, run).Some? && t in threads
    ensures CommitsOk(Exec(cfg, threads, run).value, t, CallsOf(run, t))
    decreases |run|
  {
    if run != [] {
      CommitsWhatWasCalled(cfg, threads, run[..|run| - 1], t);
      NextCommits(cfg, Exec(cfg, threads, run[..|run| - 1]).value, run[|run| - 1], t, CallsOf(run[..|run| - 1], t));
    }
  }

  // ------------------------------------------------------------------ no deadlock

  predicate Busy(w: World, t: Tid) {
    t in w.threads && !w.threads[t].Idle?
  }

  /** Some thread that has something left to do can do it. */
  predicate CanMove(cfg: Config, w: World) {
    exists t :: t in w.threads && Busy(w, t) && Go(cfg, w, t).Some?
  }

  lemma InvCanMove(cfg: Config, w: World, t: Tid)
    requires Inv(cfg, w) && Busy(w, t)
    ensures CanMove(cfg, w)
  {
    // Whoever holds the ring never waits; then whoever holds the members waits for a free ring.
    if w.ringLock.writer.Some? {
      var u := w.ringLock.writer.value;
      assert LockMatches(w, w.ringLock, RingLock, u);
      assert Busy(w, u) && Go(cfg, w, u).Some?;
    } else if w.ringLock.readers != {} {
      var u :| u in w.ringLock.readers;
      assert LockMatches(w, w.ringLock, RingLock, u);
      assert Busy(w, u) && Go(cfg, w, u).Some?;
    } else if w.membersLock.writer.Some? {
      var u := w.membersLock.writer.value;
      assert LockMatches(w, w.membersLock, MembersLock, u);
      assert Busy(w, u) && Go(cfg, w, u).Some?;
    } else if w.membersLock.readers != {} {
      var u :| u in w.membersLock.readers;
      assert LockMatches(w, w.membersLock, MembersLock, u);
      assert Busy(w, u) && Go(cfg, w, u).Some?;
    } else {
      assert LockMatches(w, w.membersLock, MembersLock, t);
      assert Go(cfg, w, t).Some?;
    }
  }

  /** No run deadlocks: as long as an operation is unfinished, some thread can step. */
  lemma DeadlockFree(cfg: Config, threads: set<Tid>, run: seq<Event>, t: Tid)
    requires Exec(cfg, threads, run).Some? && Busy(Exec(cfg, threads, run).value, t)
    ensures CanMove(cfg, Exec(cfg, threads, run).value)
  {
    ExecInv(cfg, threads, run);
    InvCanMove(cfg, Exec(cfg, threads, run).value, t);
  }

  /** How many steps a thread has left before it is idle again. */
  function StepsLeft(p: Phase): nat {
    match p
    case Idle => 0
    case Waiting(_) => 7
    case Holding(_) => 6
    case MapWritten(_, _, _) => 5
    case RingHeld(_, _) => 4
    case RingWritten(_, _) => 3
    case RingReleased(_, _) => 2
    case Released(_) => 1
    case WaitingToRead(_) => 2
    case Reading(_) => 1
  }

  /** A step brings its own thread closer to the end and leaves every other thread where it was. */
  lemma StepsFinish(cfg: Config, w: World, t: Tid)
    requires t in w.threads && Go(cfg, w, t).Some?
    ensures var v := Go(cfg, w, t).value;
            && v.threads.Keys == w.threads.Keys
            && StepsLeft(v.threads[t]) < StepsLeft(w.threads[t])
            && forall u :: u in w.threads && u != t ==> v.threads[u] == w.threads[u]
  {
  }

  // ------------------------------------------------------------------ the counter

  predicate WillCount(p: Phase) {
    (p.MapWritten? || p.RingHeld? || p.RingWritten? || p.RingReleased? || p.Released?) && p.counts
  }

  predicate WillCountChange(p: Phase) {
    (p.RingWritten? || p.RingReleased? || p.Released?) && p.counts
  }

  /** Threads whose operation is committed and counts, and has not moved the counter yet. */
  function Pending(threads: map<Tid, Phase>): set<Tid> {
    set t | t in threads && WillCount(threads[t])
  }

  /** Threads that changed the ring and have not moved the counter yet. */
  function PendingChanges(threads: map<Tid, Phase>): set<Tid> {
    set t | t in threads && WillCountChange(threads[t])
  }

  lemma SizesDiffer(a: set<Tid>, b: set<Tid>, t: Tid)
    requires a - {t} == b - {t}
    ensures |a| + (if t in b then 1 else 0) == |b| + (if t in a then 1 else 0)
  {
    assert |a| == |a - {t}| + (if t in a then 1 else 0);
    assert |b| == |b - {t}| + (if t in b then 1 else 0);
  }

  lemma PendingUpdate(threads: map<Tid, Phase>, t: Tid, p: Phase)
    requires t in threads
    ensures |Pending(threads[t := p])| + (if WillCount(threads[t]) then 1 else 0)
            == |Pending(threads)| + (if WillCount(p) then 1 else 0)
    ensures |PendingChanges(threads[t := p])| + (if WillCountChange(threads[t]) then 1 else 0)
            == |PendingChanges(threads)| + (if WillCountChange(p) then 1 else 0)
  {
    SizesDiffer(Pending(threads[t := p]), Pending(threads), t);
    SizesDiffer(PendingChanges(threads[t := p]), PendingChanges(threads), t);
  }

  /** The counter and the increments still owed add up to the committed churn. */
  predicate CountOk(cfg: Config, w: World) {
    && w.recalculations + |Pending(w.threads)| == Run(cfg, w.log).recalculations
    && forall t :: t in w.threads ==> CountsRight(cfg, w, w.threads[t])
  }

  /** A writer between its two writes remembers whether its operation counted. */
  predicate CountsRight(cfg: Config, w: World, p: Phase) {
    (p.MapWritten? || p.RingHeld?) ==>
      && w.log != [] && w.log[|w.log| - 1] == p.op
      && p.counts == Counts(Run(cfg, w.log[..|w.log| - 1]).members, p.op)
  }

  /** What a step commits, and how the phase it ends in follows from the one it starts in. */
  lemma NextShape(cfg: Config, w: World, e: Event)
    requires Next(cfg, w, e).Some?
    ensures e.t in w.threads
    ensures var v, p := Next(cfg, w, e).value, w.threads[e.t];
            && e.t in v.threads && v.threads == w.threads[e.t := v.threads[e.t]]
            && (if e.Step? && p.Holding?
                then v.log == w.log + [p.op]
                     && v.threads[e.t] == MapWritten(p.op, Counts(w.members, p.op), WritesRing(w.members, p.op))
                else v.log == w.log && (v.threads[e.t].RingHeld? ==>
                       p.MapWritten? && p.op == v.threads[e.t].op && p.counts == v.threads[e.t].counts))
            && !(v.threads[e.t].MapWritten? && !p.Holding?)
  {
  }

  /** The counter moves exactly when a thread that owed an increment goes idle. */
  lemma NextCounts(cfg: Config, w: World, e: Event)
    requires Next(cfg, w, e).Some?
    ensures e.t in w.threads && e.t in Next(cfg, w, e).value.threads
    ensures var v, p := Next(cfg, w, e).value, w.threads[e.t];
            var q := v.threads[e.t];
            && v.recalculations == w.recalculations + (if WillCount(p) && !WillCount(q) then 1 else 0)
            && (WillCount(q) && !WillCount(p) <==> e.Step? && p.Holding? && Counts(w.members, p.op))
            && (WillCount(p) && !WillCount(q) <==> e.Step? && p.Released? && p.counts)
  {
  }

  lemma NextKeepsCountsRight(cfg: Config, w: World, e: Event)
    requires Inv(cfg, w) && CountOk(cfg, w) && Next(cfg, w, e).Some?
    ensures var v := Next(cfg, w, e).value; forall t :: t in v.threads ==> CountsRight(cfg, v, v.threads[t])
  {
    var v := Next(cfg, w, e).value;
    NextShape(cfg, w, e);
    assert LockMatches(w, w.membersLock, MembersLock, e.t);
    forall u | u in v.threads ensures CountsRight(cfg, v, v.threads[u]) {
      assert CountsRight(cfg, w, w.threads[u]);
      if e.Step? && w.threads[e.t].Holding? {
        assert LockMatches(w, w.membersLock, MembersLock, u);
        assert v.log[..|v.log| - 1] == w.log;
      }
    }
  }

  lemma NextKeepsCount(cfg: Config, w: World, e: Event)
    requires Inv(cfg, w) && CountOk(cfg, w) && Next(cfg, w, e).Some?
    ensures CountOk(cfg, Next(cfg, w, e).value)
  {
    var v := Next(cfg, w, e).value;
    NextKeepsCountsRight(cfg, w, e);
    NextShape(cfg, w, e);
    NextCounts(cfg, w, e);
    PendingUpdate(w.threads, e.t, v.threads[e.t]);
    if e.Step? && w.threads[e.t].Holding? {
      assert LockMatches(w, w.membersLock, MembersLock, e.t);
      RunSnoc(cfg, w.log, w.threads[e.t].op);
    }
  }

  lemma {:induction false} ExecCount(cfg: Config, threads: set<Tid>, run: seq<Event>)
    requires Exec(cfg, threads, run).Some?
    ensures CountOk(cfg, Exec(cfg, threads, run).value)
    decreases |run|
  {
    if run == [] {
      assert Pending(InitialWorld(cfg, threads).threads) == {};
    } else {
      ExecCount(cfg, threads, run[..|run| - 1]);
      ExecInv(cfg, threads, run[..|run| - 1]);
      NextKeepsCount(cfg, Exec(cfg, threads, run[..|run| - 1]).value, run[|run| - 1]);
    }
  }

  /** Every operation called in the run names a peer. */
  predicate CallsNamePeers(cfg: Config, ids: set<Id>, run: seq<Event>) {
    forall i :: 0 <= i < |run| && run[i].Call? ==> NamesPeer(cfg, ids, run[i].op)
  }

  predicate PhaseNamesPeer(cfg: Config, ids: set<Id>, p: Phase) {
    p.Waiting? || p.Holding? || p.MapWritten? || p.RingHeld? ==> NamesPeer(cfg, ids, p.op)
  }

  predicate PeersOnly(cfg: Config, ids: set<Id>, w: World) {
    && AllNamePeers(cfg, ids, w.log)
    && forall t :: t in w.threads ==> PhaseNamesPeer(cfg, ids, w.threads[t])
  }

  lemma NextKeepsPeers(cfg: Config, ids: set<Id>, w: World, e: Event)
    requires PeersOnly(cfg, ids, w) && Next(cfg, w, e).Some? && (e.Call? ==> NamesPeer(cfg, ids, e.op))
    ensures PeersOnly(cfg, ids, Next(cfg, w, e).value)
  {
    var v := Next(cfg, w, e).value;
    assert PhaseNamesPeer(cfg, ids, w.threads[e.t]);
    forall t | t in v.threads ensures PhaseNamesPeer(cfg, ids, v.threads[t]) {
      assert PhaseNamesPeer(cfg, ids, w.threads[t]);
    }
  }

  /** The counter, with what is still owed for it, equals the number of times the ring changed. */
  predicate ChangesOk(w: World) {
    w.recalculations + |PendingChanges(w.threads)| == w.changes
  }

  lemma NextChanges(cfg: Config, w: World, e: Event)
    requires Next(cfg, w, e).Some?
    ensures e.t in w.threads && e.t in Next(cfg, w, e).value.threads
    ensures var v, p := Next(cfg, w, e).value, w.threads[e.t];
            var q := v.threads[e.t];
            && v.changes == w.changes + (if e.Step? && p.RingHeld? && RingEffect(cfg, w.ring, p.op) != w.ring then 1 else 0)
            && (WillCountChange(q) && !WillCountChange(p) <==>
                  e.Step? && (p.RingHeld? || (p.MapWritten? && !p.writes)) && p.counts)
            && (WillCountChange(p) && !WillCountChange(q) <==> e.Step? && p.Released? && p.counts)
  {
  }

  lemma NextKeepsChanges(cfg: Config, ids: set<Id>, w: World, e: Event)
    requires Universe(cfg, ids) && cfg.vnodes > 0
    requires Inv(cfg, w) && CountOk(cfg, w) && PeersOnly(cfg, ids, w) && ChangesOk(w)
    requires Next(cfg, w, e).Some?
    ensures ChangesOk(Next(cfg, w, e).value)
  {
    NextShape(cfg, w, e);
    NextCounts(cfg, w, e);
    NextChanges(cfg, w, e);
    PendingUpdate(w.threads, e.t, Next(cfg, w, e).value.threads[e.t]);
    var p := w.threads[e.t];
    assert CountsRight(cfg, w, p) && LockMatches(w, w.membersLock, MembersLock, e.t);
    if e.Step? && p.RingHeld? {
      var front := w.log[..|w.log| - 1];
      RunExact(cfg, ids, front);
      CountsIffRingChanges(cfg, ids, Run(cfg, front), p.op);
    }
  }

  lemma {:induction false} ExecChanges(cfg: Config, ids: set<Id>, threads: set<Tid>, run: seq<Event>)
    requires Universe(cfg, ids) && cfg.vnodes > 0 && CallsNamePeers(cfg, ids, run)
    requires Exec(cfg, threads, run).Some?
    ensures PeersOnly(cfg, ids, Exec(cfg, threads, run).value) && ChangesOk(Exec(cfg, threads, run).value)
    decreases |run|
  {
    if run == [] {
      assert PendingChanges(InitialWorld(cfg, threads).threads) == {};
    } else {
      var front, last := run[..|run| - 1], run[|run| - 1];
      assert forall i :: 0 <= i < |front| ==> front[i] == run[i];
      ExecChanges(cfg, ids, threads, front);
      ExecInv(cfg, threads, front);
      ExecCount(cfg, threads, front);
      var w := Exec(cfg, threads, front).value;
      NextKeepsPeers(cfg, ids, w, last);
      NextKeepsChanges(cfg, ids, w, last);
    }
  }

  /**
   In every run without point collisions that names no local id, a free
   `members` lock means the ring is the one rebuilt from scratch, and the counter
   plus what is owed to it is the number of times the ring changed.
  */
  lemma RingAlwaysRebuilt(cfg: Config, ids: set<Id>, threads: set<Tid>, run: seq<Event>, order: seq<Id>)
    requires Universe(cfg, ids) && cfg.vnodes > 0 && CallsNamePeers(cfg, ids, run)
    requires Exec(cfg, threads, run).Some?
    requires var w := Exec(cfg, threads, run).value;
             && NoWriter(w.membersLock)
             && (set k | 0 <= k < |order| :: order[k]) == {cfg.local} + AliveIds(w.members)
    ensures var w := Exec(cfg, threads, run).value;
            && w.ring == BuiltFrom(cfg.hash, cfg.vnodes, order)
            && w.recalculations + |PendingChanges(w.threads)| == w.changes
  {
    ExecChanges(cfg, ids, threads, run);
    NoStrandedMember(cfg, threads, run);
    RunIsRebuilt(cfg, ids, Exec(cfg, threads, run).value.log, order);
  }

  /**
   In every interleaving without point collisions, whatever ids it names, a free
   `members` lock means that the ring is the rebuilt one exactly when the local worker
   was kept by the committed updates or is alive in the map.
  */
  lemma RingRebuiltIff(cfg: Config, ids: set<Id>, threads: set<Tid>, run: seq<Event>, order: seq<Id>)
    requires Universe(cfg, ids) && cfg.vnodes > 0 && Exec(cfg, threads, run).Some?
    requires var w := Exec(cfg, threads, run).value;
             && NoWriter(w.membersLock) && AllNameKnown(ids, w.log)
             && (set k | 0 <= k < |order| :: order[k]) == {cfg.local} + AliveIds(w.members)
    ensures var w := Exec(cfg, threads, run).value;
            w.ring == BuiltFrom(cfg.hash, cfg.vnodes, order) <==> Kept(cfg, w.log) || IsAlive(w.members, cfg.local)
  {
    NoStrandedMember(cfg, threads, run);
    RebuiltIff(cfg, ids, Exec(cfg, threads, run).value.log, order);
  }

  /** A writer has written the map and not yet the ring. */
  predicate RingBehind(w: World) {
    && w.membersLock.writer.Some? && w.membersLock.writer.value in w.threads
    && var p := w.threads[w.membersLock.writer.value]; p.MapWritten? || p.RingHeld?
  }

  /** The changes made so far are those of the committed operations, the last of which may still be on its way. */
  predicate HistoryOk(cfg: Config, w: World) {
    if RingBehind(w) then w.log != [] && w.changes == RingChanges(cfg, w.log[..|w.log| - 1])
    else w.changes == RingChanges(cfg, w.log)
  }

  lemma ChangesSnoc(cfg: Config, log: seq<Op>, op: Op)
    ensures var c := Run(cfg, log);
            RingChanges(cfg, log + [op]) == RingChanges(cfg, log)
              + if WritesRing(c.members, op) && RingEffect(cfg, c.ring, op) != c.ring then 1 else 0
  {
    assert (log + [op])[..|log|] == log;
    RunSnoc(cfg, log, op);
  }

  /** The writer with the ring behind, as the invariant describes it. */
  lemma BehindIs(cfg: Config, w: World, t: Tid)
    requires Inv(cfg, w) && HistoryOk(cfg, w) && t in w.threads && (w.threads[t].MapWritten? || w.threads[t].RingHeld?)
    ensures w.membersLock.writer == Some(t) && RingBehind(w) && w.log != []
    ensures var front, op := w.log[..|w.log| - 1], w.threads[t].op;
            && w.log == front + [op] && w.ring == Run(cfg, front).ring && w.changes == RingChanges(cfg, front)
            && (w.threads[t].MapWritten? ==> w.threads[t].writes == WritesRing(Run(cfg, front).members, op))
            && (w.threads[t].RingHeld? ==> WritesRing(Run(cfg, front).members, op))
  {
    assert LockMatches(w, w.membersLock, MembersLock, t);
  }

  lemma RingWriteKeepsHistory(cfg: Config, w: World, t: Tid)
    requires Inv(cfg, w) && HistoryOk(cfg, w) && t in w.threads && (w.threads[t].MapWritten? || w.threads[t].RingHeld?)
    requires Go(cfg, w, t).Some?
    ensures HistoryOk(cfg, Go(cfg, w, t).value)
  {
    BehindIs(cfg, w, t);
    ChangesSnoc(cfg, w.log[..|w.log| - 1], w.threads[t].op);
  }

  lemma MapWriteKeepsHistory(cfg: Config, w: World, t: Tid)
    requires Inv(cfg, w) && HistoryOk(cfg, w) && t in w.threads && w.threads[t].Holding?
    ensures HistoryOk(cfg, Go(cfg, w, t).value)
  {
    assert LockMatches(w, w.membersLock, MembersLock, t);
    assert (w.log + [w.threads[t].op])[..|w.log|] == w.log;
  }

  /** Every other step leaves the history as it is. */
  lemma QuietStep(cfg: Config, w: World, t: Tid)
    requires LocksOk(w) && t in w.threads && Go(cfg, w, t).Some?
    requires !w.threads[t].Holding? && !w.threads[t].MapWritten? && !w.threads[t].RingHeld?
    ensures var v := Go(cfg, w, t).value;
            v.log == w.log && v.changes == w.changes && RingBehind(v) == RingBehind(w)
  {
    assert LockMatches(w, w.membersLock, MembersLock, t);
  }

  lemma GoKeepsHistory(cfg: Config, w: World, t: Tid)
    requires Inv(cfg, w) && HistoryOk(cfg, w) && t in w.threads && Go(cfg, w, t).Some?
    ensures HistoryOk(cfg, Go(cfg, w, t).value)
  {
    if w.threads[t].Holding? {
      MapWriteKeepsHistory(cfg, w, t);
    } else if w.threads[t].MapWritten? || w.threads[t].RingHeld? {
      RingWriteKeepsHistory(cfg, w, t);
    } else {
      QuietStep(cfg, w, t);
    }
  }

  lemma {:induction false} ExecHistory(cfg: Config, threads: set<Tid>, run: seq<Event>)
    requires Exec(cfg, threads, run).Some?
    ensures HistoryOk(cfg, Exec(cfg, threads, run).value)
    decreases |run|
  {
    if run != [] {
      var w, e := Exec(cfg, threads, run[..|run| - 1]).value, run[|run| - 1];
      ExecHistory(cfg, threads, run[..|run| - 1]);
      ExecInv(cfg, threads, run[..|run| - 1]);
      if e.Step? {
        GoKeepsHistory(cfg, w, e.t);
      } else {
        assert LockMatches(w, w.membersLock, MembersLock, e.t);
      }
    }
  }

  /**
   In every interleaving without point collisions, whatever ids it names, a free `members`
   lock means that the counter, with what is owed to it, is the number of times the ring
   changed, but for the first committed update that decides about the local id.
  */
  lemma CounterDrifts(cfg: Config, ids: set<Id>, threads: set<Tid>, run: seq<Event>)
    requires Universe(cfg, ids) && cfg.vnodes > 0 && Exec(cfg, threads, run).Some?
    requires var w := Exec(cfg, threads, run).value; NoWriter(w.membersLock) && AllNameKnown(ids, w.log)
    ensures var w := Exec(cfg, threads, run).value;
            w.recalculations + |Pending(w.threads)| + Missed(cfg, w.log) == w.changes + Unearned(cfg, w.log)
  {
    ExecCount(cfg, threads, run);
    ExecHistory(cfg, threads, run);
    CounterDrift(cfg, ids, Exec(cfg, threads, run).value.log);
  }

  // ------------------------------------------------------------- every run finishes

  /** Every thread, once each. */
  predicate ListsThreads(threads: map<Tid, Phase>, order: seq<Tid>) {
    && (forall i :: 0 <= i < |order| ==> order[i] in threads)
    && (forall t :: t in threads ==> t in order)
    && (forall i, j :: 0 <= i < j < |order| ==> order[i] != order[j])
  }

  /** The steps the listed threads have left. */
  function StepsLeftIn(threads: map<Tid, Phase>, order: seq<Tid>): nat
    requires forall i :: 0 <= i < |order| ==> order[i] in threads
  {
    if order == [] then 0
    else StepsLeftIn(threads, order[..|order| - 1]) + StepsLeft(threads[order[|order| - 1]])
  }

  lemma {:induction false} SameStepsLeft(a: map<Tid, Phase>, b: map<Tid, Phase>, order: seq<Tid>)
    requires forall i :: 0 <= i < |order| ==> order[i] in a && order[i] in b && a[order[i]] == b[order[i]]
    ensures StepsLeftIn(a, order) == StepsLeftIn(b, order)
  {
    if order != [] {
      SameStepsLeft(a, b, order[..|order| - 1]);
    }
  }

  /** Lowering one thread's steps lowers the sum. */
  lemma {:induction false} SumFalls(a: map<Tid, Phase>, b: map<Tid, Phase>, order: seq<Tid>, t: Tid)
    requires forall i :: 0 <= i < |order| ==> order[i] in a && order[i] in b
    requires forall i, j :: 0 <= i < j < |order| ==> order[i] != order[j]
    requires t in order && StepsLeft(b[t]) < StepsLeft(a[t])
    requires forall u :: u in a && u in b && u != t ==> a[u] == b[u]
    ensures StepsLeftIn(b, order) < StepsLeftIn(a, order)
    decreases |order|
  {
    var front, last := order[..|order| - 1], order[|order| - 1];
    if last == t {
      SameStepsLeft(a, b, front);
    } else {
      assert t in front;
      SumFalls(a, b, front, t);
    }
  }

  lemma StepLowersSum(cfg: Config, w: World, t: Tid, order: seq<Tid>)
    requires t in w.threads && Go(cfg, w, t).Some? && ListsThreads(w.threads, order)
    ensures var v := Go(cfg, w, t).value;
            ListsThreads(v.threads, order) && StepsLeftIn(v.threads, order) < StepsLeftIn(w.threads, order)
  {
    StepsFinish(cfg, w, t);
    SumFalls(w.threads, Go(cfg, w, t).value.threads, order, t);
  }

  /** The world after some threads step in turn, or `None` when one of them cannot. */
  function GoAll(cfg: Config, w: World, steps: seq<Tid>): Option<World>
    decreases |steps|
  {
    if steps == [] then Some(w)
    else if steps[0] !in w.threads || Go(cfg, w, steps[0]).None? then None
    else GoAll(cfg, Go(cfg, w, steps[0]).value, steps[1..])
  }

  /** However threads are scheduled, what has been called takes at most the steps left. */
  lemma {:induction false} StepsBounded(cfg: Config, w: World, steps: seq<Tid>, order: seq<Tid>)
    requires ListsThreads(w.threads, order) && GoAll(cfg, w, steps).Some?
    ensures |steps| <= StepsLeftIn(w.threads, order)
    decreases |steps|
  {
    if steps != [] {
      StepLowersSum(cfg, w, steps[0], order);
      StepsBounded(cfg, Go(cfg, w, steps[0]).value, steps[1..], order);
    }
  }

  predicate AllIdle(w: World) {
    forall t :: t in w.threads ==> w.threads[t].Idle?
  }

  lemma SomeStep(cfg: Config, w: World) returns (t: Tid)
    requires Inv(cfg, w) && !AllIdle(w)
    ensures t in w.threads && Go(cfg, w, t).Some?
  {
    var busy :| busy in w.threads && !w.threads[busy].Idle?;
    InvCanMove(cfg, w, busy);
    t :| t in w.threads && Busy(w, t) && Go(cfg, w, t).Some?;
  }

  lemma GoFirst(cfg: Config, w: World, t: Tid, rest: seq<Tid>)
    requires t in w.threads && Go(cfg, w, t).Some?
    ensures GoAll(cfg, w, [t] + rest) == GoAll(cfg, Go(cfg, w, t).value, rest)
  {
    assert ([t] + rest)[1..] == rest;
  }

  lemma {:induction false} InvFinishes(cfg: Config, w: World, order: seq<Tid>) returns (steps: seq<Tid>)
    requires Inv(cfg, w) && ListsThreads(w.threads, order)
    ensures GoAll(cfg, w, steps).Some? && AllIdle(GoAll(cfg, w, steps).value)
    decreases StepsLeftIn(w.threads, order)
  {
    if AllIdle(w) {
      steps := [];
    } else {
      var t := SomeStep(cfg, w);
      StepLowersSum(cfg, w, t, order);
      NextKeepsInv(cfg, w, Step(t));
      var rest := InvFinishes(cfg, Go(cfg, w, t).value, order);
      steps := [t] + rest;
      GoFirst(cfg, w, t, rest);
    }
  }

  /**
   From every reachable world the threads can be stepped until all are idle, and no
   scheduling of them takes more than the steps left.
  */
  lemma EveryRunFinishes(cfg: Config, threads: set<Tid>, run: seq<Event>, order: seq<Tid>) returns (steps: seq<Tid>)
    requires Exec(cfg, threads, run).Some? && ListsThreads(Exec(cfg, threads, run).value.threads, order)
    ensures var w := Exec(cfg, threads, run).value;
            && GoAll(cfg, w, steps).Some? && AllIdle(GoAll(cfg, w, steps).value)
            && forall others :: GoAll(cfg, w, others).Some? ==> |others| <= StepsLeftIn(w.threads, order)
  {
    ExecInv(cfg, threads, run);
    var w := Exec(cfg, threads, run).value;
    steps := InvFinishes(cfg, w, order);
    forall others | GoAll(cfg, w, others).Some? ensures |others| <= StepsLeftIn(w.threads, order) {
      StepsBounded(cfg, w, others, order);
    }
  }

}
