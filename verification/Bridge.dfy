/**
 The loop that pumps jobs from the scheduler through the local buffer to the
 dispatcher (crates/flexiq-java/src/mesh.rs), with thieves taking from the other
 end of the buffer between any two of its steps. A counter is moved in a later
 step than the buffer operation it counts, as in crates/flexiq-mesh/src/lib.rs.
*/
module Bridge {
  import opened Wrappers
  import opened Deque

  datatype Config = Config(capacity: nat, enableStealing: bool, stealThreshold: nat)

  /** The three places where the loop empties the buffer. */
  datatype Drain = BeforeSteal | AfterSteal | AtShutdown

  datatype Pc =
    | Draining(drain: Drain)
    | Popped(drain: Drain, job: Job)
    | Sending(drain: Drain, job: Job)
    | Deciding
    | Stealing
    | Receiving
    | Prefetching(jobs: seq<Job>, next: Drain)
    | Pushed(count: nat, next: Drain)
    | Stopped

  datatype Event =
    | Pop
    | CountPop
    | Send(open: bool)
    | Decide
    | Offer(jobs: seq<Job>)
    | Receive(jobs: seq<Job>)
    | Close
    | Push(owner: Affinity)
    | CountPush
    | Thief(count: nat)
    | CountThief(count: nat)

  /** Where every job of the run has gone. */
  datatype Ledger = Ledger(
    received: seq<Job>, stolenIn: seq<Job>,
    sent: seq<Job>, given: seq<Job>, refused: seq<Job>, lost: seq<Job>)

  /** `owedOut` is what thieves have taken and not counted yet. */
  datatype Counters = Counters(prefetchJobs: nat, localPops: nat, jobsStolenOut: nat, owedOut: nat)

  /** History: one push into the buffer, and what has left the buffer at either end since. */
  datatype Round = Round(batch: seq<Job>, owner: Affinity, given: seq<Job>, popped: seq<Job>)

  datatype State = State(pc: Pc, deque: seq<Job>, ledger: Ledger, counters: Counters, rounds: seq<Round>)

  ghost const START := State(Draining(BeforeSteal), [], Ledger([], [], [], [], [], []), Counters(0, 0, 0, 0), [])

  function AfterDrain(drain: Drain): Pc {
    match drain
    case BeforeSteal => Deciding
    case AfterSteal => Receiving
    case AtShutdown => Stopped
  }

  function WithPopped(rounds: seq<Round>, job: Job): seq<Round>
    requires rounds != []
  {
    var r := rounds[|rounds| - 1];
    rounds[|rounds| - 1 := r.(popped := r.popped + [job])]
  }

  function WithGiven(rounds: seq<Round>, jobs: seq<Job>): seq<Round>
    requires rounds != []
  {
    var r := rounds[|rounds| - 1];
    rounds[|rounds| - 1 := r.(given := r.given + jobs)]
  }

  function DoPop(s: State, drain: Drain): Option<State> {
    if s.deque == [] then Some(s.(pc := AfterDrain(drain)))
    else if s.rounds == [] then None
    else
      var job := s.deque[|s.deque| - 1];
      Some(s.(pc := Popped(drain, job), deque := s.deque[..|s.deque| - 1], rounds := WithPopped(s.rounds, job)))
  }

  /** A failed send drops the job in hand and ends the run. */
  function DoSend(s: State, drain: Drain, job: Job, open: bool): State {
    if open then s.(pc := Draining(drain), ledger := s.ledger.(sent := s.ledger.sent + [job]))
    else s.(pc := Stopped, ledger := s.ledger.(lost := s.ledger.lost + [job]))
  }

  /** What a peer hands over; empty when there is no target or it has nothing. */
  function DoOffer(s: State, jobs: seq<Job>): State {
    s.(pc := if jobs == [] then Draining(AfterSteal) else Prefetching(jobs, AfterSteal),
       ledger := s.ledger.(stolenIn := s.ledger.stolenIn + jobs))
  }

  function DoReceive(s: State, jobs: seq<Job>): State {
    s.(pc := Prefetching(jobs, BeforeSteal), ledger := s.ledger.(received := s.ledger.received + jobs))
  }

  function DoPush(cfg: Config, s: State, jobs: seq<Job>, next: Drain, owner: Affinity): State {
    var kept := Admitted(jobs, |s.deque|, cfg.capacity);
    s.(pc := Pushed(|kept|, next),
       deque := s.deque + Partitioned(kept, owner),
       ledger := s.ledger.(refused := s.ledger.refused + jobs[|kept|..]),
       rounds := s.rounds + [Round(jobs, owner, [], [])])
  }

  function DoThief(s: State, count: nat): Option<State> {
    var n := Min(count, |s.deque|);
    if n == 0 then Some(s)
    else if s.rounds == [] then None
    else
      Some(s.(deque := s.deque[n..],
              ledger := s.ledger.(given := s.ledger.given + s.deque[..n]),
              counters := s.counters.(owedOut := s.counters.owedOut + n),
              rounds := WithGiven(s.rounds, s.deque[..n])))
  }

  /**
   One step of the loop, of its environment, or of a thief; `None` when it is not
   that step's turn.
  */
  function Next(cfg: Config, s: State, e: Event): Option<State> {
    match e
    case Pop => if s.pc.Draining? then DoPop(s, s.pc.drain) else None
    case CountPop =>
      if s.pc.Popped?
      then Some(s.(pc := Sending(s.pc.drain, s.pc.job),
                   counters := s.counters.(localPops := s.counters.localPops + 1)))
      else None
    case Send(open) => if s.pc.Sending? then Some(DoSend(s, s.pc.drain, s.pc.job, open)) else None
    case Decide =>
      if s.pc.Deciding?
      then Some(s.(pc := if cfg.enableStealing && |s.deque| <= cfg.stealThreshold then Stealing else Receiving))
      else None
    case Offer(jobs) => if s.pc.Stealing? then Some(DoOffer(s, jobs)) else None
    case Receive(jobs) => if s.pc.Receiving? && jobs != [] then Some(DoReceive(s, jobs)) else None
    case Close => if s.pc.Receiving? then Some(s.(pc := Draining(AtShutdown))) else None
    case Push(owner) => if s.pc.Prefetching? then Some(DoPush(cfg, s, s.pc.jobs, s.pc.next, owner)) else None
    case CountPush =>
      if s.pc.Pushed?
      then Some(s.(pc := Draining(s.pc.next),
                   counters := s.counters.(prefetchJobs := s.counters.prefetchJobs + s.pc.count)))
      else None
    case Thief(count) => DoThief(s, count)
    case CountThief(count) =>
      if count <= s.counters.owedOut
      then Some(s.(counters := s.counters.(jobsStolenOut := s.counters.jobsStolenOut + count,
                                           owedOut := s.counters.owedOut - count)))
      else None
  }

  ghost function Exec(cfg: Config, run: seq<Event>): Option<State> {
    if run == [] then Some(START)
    else
      match Exec(cfg, run[..|run| - 1])
      case None => None
      case Some(s) => Next(cfg, s, run[|run| - 1])
  }

  // ------------------------------------------------------------- every job is somewhere

  function InHand(pc: Pc): seq<Job> {
    match pc
    case Popped(_, job) => [job]
    case Sending(_, job) => [job]
    case Prefetching(jobs, _) => jobs
    case _ => []
  }

  /** Jobs received and stolen in are those sent, given away, refused, lost, buffered or in hand. */
  ghost predicate Conserved(s: State) {
    var l := s.ledger;
    multiset(l.received) + multiset(l.stolenIn)
    == multiset(l.sent) + multiset(l.given) + multiset(l.refused) + multiset(l.lost)
       + multiset(s.deque) + multiset(InHand(s.pc))
  }

  /** What is owed to `prefetch_jobs` and `local_pops` by the step under way. */
  function OwedIn(pc: Pc): nat {
    if pc.Pushed? then pc.count else 0
  }

  function OwedPops(pc: Pc): nat {
    if pc.Popped? then 1 else 0
  }

  predicate CountersOk(s: State) {
    var c := s.counters;
    c.prefetchJobs + OwedIn(s.pc) == c.localPops + OwedPops(s.pc) + c.jobsStolenOut + c.owedOut + |s.deque|
  }

  /** Outside the drain loops and a push the buffer is empty; and it never holds more than its capacity. */
  predicate BufferOk(cfg: Config, s: State) {
    && |s.deque| <= cfg.capacity
    && (s.pc.Deciding? || s.pc.Stealing? || s.pc.Receiving? || s.pc.Prefetching? ==> s.deque == [])
    && (s.pc.Stopped? && s.ledger.lost == [] ==> s.deque == [])
    && (s.ledger.lost != [] ==> s.pc.Stopped? && |s.ledger.lost| == 1)
    && (s.deque != [] ==> s.rounds != [])
  }

  /** How often `x` occurs in `jobs`. */
  function Times(jobs: seq<Job>, x: Job): nat {
    if jobs == [] then 0 else Times(jobs[..|jobs| - 1], x) + if jobs[|jobs| - 1] == x then 1 else 0
  }

  lemma {:induction false} TimesIsMultiplicity(jobs: seq<Job>, x: Job)
    ensures Times(jobs, x) == multiset(jobs)[x]
  {
    if jobs != [] {
      TimesIsMultiplicity(jobs[..|jobs| - 1], x);
      assert jobs == jobs[..|jobs| - 1] + [jobs[|jobs| - 1]];
    }
  }

  /** Conservation, one job at a time. */
  predicate ConservedFor(s: State, x: Job) {
    var l := s.ledger;
    Times(l.received, x) + Times(l.stolenIn, x)
    == Times(l.sent, x) + Times(l.given, x) + Times(l.refused, x) + Times(l.lost, x)
       + Times(s.deque, x) + Times(InHand(s.pc), x)
  }

  lemma {:induction false} TimesConcat(a: seq<Job>, b: seq<Job>, x: Job)
    ensures Times(a + b, x) == Times(a, x) + Times(b, x)
  {
    if b == [] {
      assert a + b == a;
    } else {
      TimesConcat(a, b[..|b| - 1], x);
      assert (a + b)[..|a + b| - 1] == a + b[..|b| - 1];
    }
  }

  lemma TimesPartitioned(jobs: seq<Job>, owner: Affinity, x: Job)
    ensures Times(Partitioned(jobs, owner), x) == Times(jobs, x)
  {
    PartitionedKeeps(jobs, owner);
    TimesIsMultiplicity(jobs, x);
    TimesIsMultiplicity(Partitioned(jobs, owner), x);
  }

  lemma PopConserves(s: State, drain: Drain, x: Job)
    requires s.pc == Draining(drain) && ConservedFor(s, x) && DoPop(s, drain).Some?
    ensures ConservedFor(DoPop(s, drain).value, x)
  {
    if s.deque != [] {
      var front, last := s.deque[..|s.deque| - 1], s.deque[|s.deque| - 1];
      TimesConcat(front, [last], x);
      assert s.deque == front + [last];
    }
  }

  lemma PushConserves(s: State, v: State, kept: seq<Job>, over: seq<Job>, sorted: seq<Job>, x: Job)
    requires s.pc.Prefetching? && ConservedFor(s, x) && s.pc.jobs == kept + over && Times(sorted, x) == Times(kept, x)
    requires v.deque == s.deque + sorted && v.ledger == s.ledger.(refused := s.ledger.refused + over) && v.pc.Pushed?
    ensures ConservedFor(v, x)
  {
    TimesConcat(kept, over, x);
    TimesConcat(s.deque, sorted, x);
    TimesConcat(s.ledger.refused, over, x);
  }

  lemma SendConserves(s: State, open: bool, x: Job)
    requires s.pc.Sending? && ConservedFor(s, x)
    ensures ConservedFor(DoSend(s, s.pc.drain, s.pc.job, open), x)
  {
    TimesConcat(s.ledger.sent, [s.pc.job], x);
    TimesConcat(s.ledger.lost, [s.pc.job], x);
  }

  lemma OfferConserves(s: State, jobs: seq<Job>, x: Job)
    requires s.pc.Stealing? && ConservedFor(s, x)
    ensures ConservedFor(DoOffer(s, jobs), x)
  {
    TimesConcat(s.ledger.stolenIn, jobs, x);
  }

  lemma ReceiveConserves(s: State, jobs: seq<Job>, x: Job)
    requires s.pc.Receiving? && ConservedFor(s, x)
    ensures ConservedFor(DoReceive(s, jobs), x)
  {
    TimesConcat(s.ledger.received, jobs, x);
  }

  lemma StillConserves(s: State, v: State, x: Job)
    requires ConservedFor(s, x) && v.ledger == s.ledger && v.deque == s.deque && InHand(v.pc) == InHand(s.pc)
    ensures ConservedFor(v, x)
  {
  }

  lemma ThiefConserves(s: State, count: nat, x: Job)
    requires ConservedFor(s, x) && DoThief(s, count).Some?
    ensures ConservedFor(DoThief(s, count).value, x)
  {
    var n := Min(count, |s.deque|);
    assert s.deque == s.deque[..n] + s.deque[n..];
    TimesConcat(s.deque[..n], s.deque[n..], x);
    TimesConcat(s.ledger.given, s.deque[..n], x);
  }

  lemma NextConserves(cfg: Config, s: State, e: Event, x: Job)
    requires ConservedFor(s, x) && Next(cfg, s, e).Some?
    ensures ConservedFor(Next(cfg, s, e).value, x)
  {
    match e
    case Pop => PopConserves(s, s.pc.drain, x);
    case Send(open) => SendConserves(s, open, x);
    case Offer(jobs) => OfferConserves(s, jobs, x);
    case Receive(jobs) => ReceiveConserves(s, jobs, x);
    case Push(owner) =>
      var kept := Admitted(s.pc.jobs, |s.deque|, cfg.capacity);
      TimesPartitioned(kept, owner, x);
      PushConserves(s, Next(cfg, s, e).value, kept, s.pc.jobs[|kept|..], Partitioned(kept, owner), x);
    case Thief(count) => ThiefConserves(s, count, x);
    case _ => StillConserves(s, Next(cfg, s, e).value, x);
  }

  lemma {:induction false} RunConserves(cfg: Config, run: seq<Event>, x: Job)
    requires Exec(cfg, run).Some?
    ensures ConservedFor(Exec(cfg, run).value, x)
    decreases |run|
  {
    if run != [] {
      RunConserves(cfg, run[..|run| - 1], x);
      NextConserves(cfg, Exec(cfg, run[..|run| - 1]).value, run[|run| - 1], x);
    }
  }

  lemma ConservedForAll(s: State)
    requires forall x :: ConservedFor(s, x)
    ensures Conserved(s)
  {
    var l := s.ledger;
    var ins := multiset(l.received) + multiset(l.stolenIn);
    var outs := multiset(l.sent) + multiset(l.given) + multiset(l.refused) + multiset(l.lost)
                + multiset(s.deque) + multiset(InHand(s.pc));
    forall x ensures ins[x] == outs[x] {
      assert ConservedFor(s, x);
      TimesIsMultiplicity(l.received, x);
      TimesIsMultiplicity(l.stolenIn, x);
      TimesIsMultiplicity(l.sent, x);
      TimesIsMultiplicity(l.given, x);
      TimesIsMultiplicity(l.refused, x);
      TimesIsMultiplicity(l.lost, x);
      TimesIsMultiplicity(s.deque, x);
      TimesIsMultiplicity(InHand(s.pc), x);
    }
  }

  lemma NextKeepsCounters(cfg: Config, s: State, e: Event)
    requires CountersOk(s) && Next(cfg, s, e).Some?
    ensures CountersOk(Next(cfg, s, e).value)
  {
    if e.Push? {
      PartitionedKeeps(Admitted(s.pc.jobs, |s.deque|, cfg.capacity), e.owner);
    }
  }

  lemma NextKeepsBuffer(cfg: Config, s: State, e: Event)
    requires BufferOk(cfg, s) && Next(cfg, s, e).Some?
    ensures BufferOk(cfg, Next(cfg, s, e).value)
  {
    if e.Push? {
      PartitionedKeeps(Admitted(s.pc.jobs, |s.deque|, cfg.capacity), e.owner);
    }
  }

  /**
   In every run, with thieves anywhere: no job is lost track of or handed out
   twice, the counters account for the buffer, and the buffer is empty whenever a
   batch is about to be pushed.
  */
  lemma {:induction false} BridgeSafe(cfg: Config, run: seq<Event>)
    requires Exec(cfg, run).Some?
    ensures var s := Exec(cfg, run).value; Conserved(s) && CountersOk(s) && BufferOk(cfg, s)
    decreases |run|
  {
    forall x ensures ConservedFor(Exec(cfg, run).value, x) {
      RunConserves(cfg, run, x);
    }
    ConservedForAll(Exec(cfg, run).value);
    if run != [] {
      var s := Exec(cfg, run[..|run| - 1]).value;
      BridgeSafe(cfg, run[..|run| - 1]);
      NextKeepsCounters(cfg, s, run[|run| - 1]);
      NextKeepsBuffer(cfg, s, run[|run| - 1]);
    }
  }

  // --------------------------------------------------------- what becomes of a batch

  function Reversed(s: seq<Job>): (r: seq<Job>)
    ensures |r| == |s|
  {
    if s == [] then [] else [s[|s| - 1]] + Reversed(s[..|s| - 1])
  }

  lemma {:induction false} ReversedIndex(s: seq<Job>, k: nat)
    requires k < |s|
    ensures Reversed(s)[k] == s[|s| - 1 - k]
  {
    if k > 0 {
      ReversedIndex(s[..|s| - 1], k - 1);
    }
  }

  function Loaded(cfg: Config, r: Round): seq<Job> {
    Partitioned(Admitted(r.batch, 0, cfg.capacity), r.owner)
  }

  /** A round splits its batch in three: thieves took a prefix, the owner a suffix, `left` remains. */
  predicate RoundOk(cfg: Config, r: Round, left: seq<Job>) {
    Loaded(cfg, r) == r.given + left + Reversed(r.popped)
  }

  predicate RoundsOk(cfg: Config, s: State) {
    && (forall i :: 0 <= i < |s.rounds| - 1 ==> RoundOk(cfg, s.rounds[i], []))
    && (s.rounds != [] ==> RoundOk(cfg, s.rounds[|s.rounds| - 1], s.deque))
  }

  function AllPopped(rounds: seq<Round>): seq<Job> {
    if rounds == [] then [] else AllPopped(rounds[..|rounds| - 1]) + rounds[|rounds| - 1].popped
  }

  function AllGiven(rounds: seq<Round>): seq<Job> {
    if rounds == [] then [] else AllGiven(rounds[..|rounds| - 1]) + rounds[|rounds| - 1].given
  }

  function AllRefused(cfg: Config, rounds: seq<Round>): seq<Job> {
    if rounds == [] then []
    else
      var batch := rounds[|rounds| - 1].batch;
      AllRefused(cfg, rounds[..|rounds| - 1]) + batch[Min(|batch|, cfg.capacity)..]
  }

  /** What was sent, in order, is what was popped round by round, up to the job in hand or lost. */
  predicate LogsOk(cfg: Config, s: State) {
    && AllPopped(s.rounds) == s.ledger.sent + (if s.pc.Popped? || s.pc.Sending? then [s.pc.job] else s.ledger.lost)
    && AllGiven(s.rounds) == s.ledger.given
    && AllRefused(cfg, s.rounds) == s.ledger.refused
  }

  /** Only the last round changes, to `r`, and `deque` is what it has left. */
  lemma LastRoundKeeps(cfg: Config, s: State, v: State, r: Round)
    requires s.rounds != [] && RoundsOk(cfg, s) && RoundOk(cfg, r, v.deque)
    requires v.rounds == s.rounds[|s.rounds| - 1 := r]
    ensures RoundsOk(cfg, v)
  {
  }

  lemma PopKeepsRounds(cfg: Config, s: State, drain: Drain)
    requires BufferOk(cfg, s) && RoundsOk(cfg, s) && DoPop(s, drain).Some?
    ensures RoundsOk(cfg, DoPop(s, drain).value)
  {
    if s.deque != [] {
      var r, x := s.rounds[|s.rounds| - 1], s.deque[|s.deque| - 1];
      PopKeepsRound(cfg, r, s.deque);
      LastRoundKeeps(cfg, s, DoPop(s, drain).value, r.(popped := r.popped + [x]));
    }
  }

  lemma ThiefKeepsRounds(cfg: Config, s: State, count: nat)
    requires BufferOk(cfg, s) && RoundsOk(cfg, s) && DoThief(s, count).Some?
    ensures RoundsOk(cfg, DoThief(s, count).value)
  {
    var n := Min(count, |s.deque|);
    if n > 0 {
      var r := s.rounds[|s.rounds| - 1];
      GiveKeepsRound(cfg, r, s.deque, n);
      LastRoundKeeps(cfg, s, DoThief(s, count).value, r.(given := r.given + s.deque[..n]));
    }
  }

  /** A push into an empty buffer starts a round; the one before it is over. */
  lemma PushKeepsRounds(cfg: Config, s: State, owner: Affinity)
    requires BufferOk(cfg, s) && RoundsOk(cfg, s) && s.pc.Prefetching?
    ensures RoundsOk(cfg, DoPush(cfg, s, s.pc.jobs, s.pc.next, owner))
  {
    var r := Round(s.pc.jobs, owner, [], []);
    assert Loaded(cfg, r) == [] + Loaded(cfg, r) + [];
    assert s.deque + Loaded(cfg, r) == Loaded(cfg, r);
  }

  lemma NextKeepsRounds(cfg: Config, s: State, e: Event)
    requires BufferOk(cfg, s) && RoundsOk(cfg, s) && Next(cfg, s, e).Some?
    ensures RoundsOk(cfg, Next(cfg, s, e).value)
  {
    match e
    case Pop => PopKeepsRounds(cfg, s, s.pc.drain);
    case Push(owner) => PushKeepsRounds(cfg, s, owner);
    case Thief(count) => ThiefKeepsRounds(cfg, s, count);
    case _ =>
  }

  lemma PopKeepsRound(cfg: Config, r: Round, deque: seq<Job>)
    requires deque != [] && RoundOk(cfg, r, deque)
    ensures RoundOk(cfg, r.(popped := r.popped + [deque[|deque| - 1]]), deque[..|deque| - 1])
  {
    var x, rest := deque[|deque| - 1], deque[..|deque| - 1];
    assert (r.popped + [x])[..|r.popped|] == r.popped;
    assert Reversed(r.popped + [x]) == [x] + Reversed(r.popped);
    assert deque == rest + [x];
    assert r.given + deque + Reversed(r.popped) == r.given + rest + ([x] + Reversed(r.popped));
  }

  lemma GiveKeepsRound(cfg: Config, r: Round, deque: seq<Job>, n: nat)
    requires n <= |deque| && RoundOk(cfg, r, deque)
    ensures RoundOk(cfg, r.(given := r.given + deque[..n]), deque[n..])
  {
    assert deque == deque[..n] + deque[n..];
    assert r.given + deque + Reversed(r.popped) == (r.given + deque[..n]) + deque[n..] + Reversed(r.popped);
  }

  lemma PoppedLogged(cfg: Config, rounds: seq<Round>, job: Job)
    requires rounds != []
    ensures AllPopped(WithPopped(rounds, job)) == AllPopped(rounds) + [job]
    ensures AllGiven(WithPopped(rounds, job)) == AllGiven(rounds)
    ensures AllRefused(cfg, WithPopped(rounds, job)) == AllRefused(cfg, rounds)
  {
    assert WithPopped(rounds, job)[..|rounds| - 1] == rounds[..|rounds| - 1];
  }

  lemma GivenLogged(cfg: Config, rounds: seq<Round>, jobs: seq<Job>)
    requires rounds != []
    ensures AllGiven(WithGiven(rounds, jobs)) == AllGiven(rounds) + jobs
    ensures AllPopped(WithGiven(rounds, jobs)) == AllPopped(rounds)
    ensures AllRefused(cfg, WithGiven(rounds, jobs)) == AllRefused(cfg, rounds)
  {
    assert WithGiven(rounds, jobs)[..|rounds| - 1] == rounds[..|rounds| - 1];
  }

  lemma PushLogged(cfg: Config, rounds: seq<Round>, r: Round)
    requires r.given == [] && r.popped == []
    ensures AllGiven(rounds + [r]) == AllGiven(rounds) && AllPopped(rounds + [r]) == AllPopped(rounds)
    ensures AllRefused(cfg, rounds + [r]) == AllRefused(cfg, rounds) + r.batch[Min(|r.batch|, cfg.capacity)..]
  {
    assert (rounds + [r])[..|rounds|] == rounds;
  }

  lemma PopKeepsLogs(cfg: Config, s: State, drain: Drain)
    requires BufferOk(cfg, s) && LogsOk(cfg, s) && s.pc == Draining(drain) && DoPop(s, drain).Some?
    ensures LogsOk(cfg, DoPop(s, drain).value)
  {
    if s.deque != [] {
      PoppedLogged(cfg, s.rounds, s.deque[|s.deque| - 1]);
    }
  }

  lemma PushKeepsLogs(cfg: Config, s: State, owner: Affinity)
    requires BufferOk(cfg, s) && LogsOk(cfg, s) && s.pc.Prefetching?
    ensures LogsOk(cfg, DoPush(cfg, s, s.pc.jobs, s.pc.next, owner))
  {
    PushLogged(cfg, s.rounds, Round(s.pc.jobs, owner, [], []));
  }

  lemma ThiefKeepsLogs(cfg: Config, s: State, count: nat)
    requires BufferOk(cfg, s) && LogsOk(cfg, s) && DoThief(s, count).Some?
    ensures LogsOk(cfg, DoThief(s, count).value)
  {
    var n := Min(count, |s.deque|);
    if n > 0 {
      GivenLogged(cfg, s.rounds, s.deque[..n]);
    }
  }

  lemma NextKeepsLogs(cfg: Config, s: State, e: Event)
    requires BufferOk(cfg, s) && LogsOk(cfg, s) && Next(cfg, s, e).Some?
    ensures LogsOk(cfg, Next(cfg, s, e).value)
  {
    match e
    case Pop => PopKeepsLogs(cfg, s, s.pc.drain);
    case Push(owner) => PushKeepsLogs(cfg, s, owner);
    case Thief(count) => ThiefKeepsLogs(cfg, s, count);
    case _ =>
  }

  /** In every run each batch is split between thieves and owner, and the logs are the rounds in order. */
  lemma {:induction false} BridgeOrdered(cfg: Config, run: seq<Event>)
    requires Exec(cfg, run).Some?
    ensures var s := Exec(cfg, run).value; RoundsOk(cfg, s) && LogsOk(cfg, s)
    decreases |run|
  {
    if run != [] {
      var s := Exec(cfg, run[..|run| - 1]).value;
      BridgeOrdered(cfg, run[..|run| - 1]);
      BridgeSafe(cfg, run[..|run| - 1]);
      NextKeepsRounds(cfg, s, run[|run| - 1]);
      NextKeepsLogs(cfg, s, run[|run| - 1]);
    }
  }

  lemma SuffixIndex(front: seq<Job>, popped: seq<Job>, i: nat)
    requires i < |popped|
    ensures (front + Reversed(popped))[|front| + |popped| - 1 - i] == popped[i]
  {
    ReversedIndex(popped, |popped| - 1 - i);
  }

  lemma SuffixOwnedFirst(loaded: seq<Job>, front: seq<Job>, popped: seq<Job>, owner: Affinity, i: nat, j: nat)
    requires KeySorted(loaded, owner) && loaded == front + Reversed(popped)
    requires i < j < |popped| && owner(popped[j].task)
    ensures owner(popped[i].task)
  {
    SuffixIndex(front, popped, i);
    SuffixIndex(front, popped, j);
  }

  /** Whatever thieves do, the owner dispatches a batch's owned jobs before its non-owned ones. */
  lemma OwnedFirst(cfg: Config, run: seq<Event>, k: nat, i: nat, j: nat)
    requires Exec(cfg, run).Some? && k < |Exec(cfg, run).value.rounds|
    requires var r := Exec(cfg, run).value.rounds[k]; i < j < |r.popped| && r.owner(r.popped[j].task)
    ensures var r := Exec(cfg, run).value.rounds[k]; r.owner(r.popped[i].task)
  {
    BridgeOrdered(cfg, run);
    var s := Exec(cfg, run).value;
    var r := s.rounds[k];
    var left := if k == |s.rounds| - 1 then s.deque else [];
    assert RoundOk(cfg, r, left);
    PartitionedSorted(Admitted(r.batch, 0, cfg.capacity), r.owner);
    SuffixOwnedFirst(Loaded(cfg, r), r.given + left, r.popped, r.owner, i, j);
  }

  lemma {:induction false} NothingRefused(cfg: Config, rounds: seq<Round>)
    ensures AllRefused(cfg, rounds) == [] <==> forall i :: 0 <= i < |rounds| ==> |rounds[i].batch| <= cfg.capacity
  {
    if rounds != [] {
      var front := rounds[..|rounds| - 1];
      NothingRefused(cfg, front);
      assert forall i :: 0 <= i < |front| ==> front[i] == rounds[i];
      assert forall i :: 0 <= i < |rounds| ==> i == |front| || rounds[i] == front[i];
    }
  }

  /** A run refuses a job exactly when one of its batches was larger than the whole buffer. */
  lemma RefusesIffTooBig(cfg: Config, run: seq<Event>)
    requires Exec(cfg, run).Some?
    ensures var s := Exec(cfg, run).value;
            s.ledger.refused == [] <==> forall i :: 0 <= i < |s.rounds| ==> |s.rounds[i].batch| <= cfg.capacity
  {
    BridgeOrdered(cfg, run);
    NothingRefused(cfg, Exec(cfg, run).value.rounds);
  }

  /**
   A run that ends with the channel open has handed over every job: what came in
   is what was sent, stolen away or refused.
  */
  lemma CleanShutdown(cfg: Config, run: seq<Event>)
    requires Exec(cfg, run).Some?
    requires var s := Exec(cfg, run).value; s.pc.Stopped? && s.ledger.lost == []
    ensures var l := Exec(cfg, run).value.ledger;
            multiset(l.received) + multiset(l.stolenIn) == multiset(l.sent) + multiset(l.given) + multiset(l.refused)
  {
    BridgeSafe(cfg, run);
  }
}
