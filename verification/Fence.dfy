/**
 One job under the lease fence: storage's claim row, one scheduler's dispatch
 records and lease book, the executors it handed the job to, and other schedulers
 sharing the database. Every lock operation and every storage statement is a step
 of its own.

 The design promises that the report of a superseded dispatch is never applied, and
 that a claim ends in one applied report. A frame is checked against the book when
 it arrives, but the result made from it names only the job, so the record it is
 later fenced on may be another dispatch's; the row it is fenced against may be
 absent, or put back by a superseded dispatch; and the job may move on between the
 fence and the write. The theorems say exactly what gets through.
*/
module Fence {
  import opened Wrappers
  import opened Lease

  datatype Owner = Me | Other
  datatype Claim = Claim(owner: Owner, epoch: Epoch)
  datatype Status = Pending | Running | Done

  /** What a scheduler dispatched the job as. */
  datatype Record = Record(attempt: nat, epoch: Epoch)

  /** A claim won here. A rescue is settled here and reaches no executor. */
  datatype Hold = Hold(record: Record, rescue: bool)

  datatype Origin = Executor(epoch: Epoch) | Reaper

  /** What a result asks for; `Archive` is a cancellation or a dead-lettering. */
  datatype Outcome = Complete | Retry | Archive

  /** The job's rows in the database. */
  datatype Store = Store(status: Status, attempt: nat, claim: Option<Claim>)

  /** Where the scheduler's one loop is with the job; `Tracked` has a record and no lease issued yet. */
  datatype Poller = Idle | Dequeued(attempt: nat) | Claimed(hold: Hold) | Tracked(hold: Hold)

  /** The scheduler's memory of the job: its dispatch records and its entry in the lease book. */
  datatype Scheduler = Scheduler(
    poller: Poller,
    live: Option<Record>, retired: Option<Record>,
    book: Option<Epoch>, retiring: set<Epoch>)

  /** A result past the fence, with the record it was fenced on and what stood when it was. */
  datatype Grant = Grant(record: Option<Record>, row: Option<Claim>, revived: bool, force: Option<Epoch>)

  /**
   What is on its way: executors and the writes they have queued, results checked,
   results with the record they took, results past the fence; and the dispatches of
   other schedulers.
  */
  datatype Traffic = Traffic(
    out: map<Epoch, nat>, writes: set<Record>,
    inbox: set<Epoch>, judged: map<Origin, Option<Record>>, granted: map<Origin, Grant>,
    foreign: map<Epoch, nat>, foreignWrites: set<Record>)

  /** An applied result, with the claim then in force and the claim last won. */
  datatype Applied = Applied(origin: Origin, current: Option<Epoch>, last: Option<Epoch>)

  /**
   History. `last` is the claim won last, at attempt `wonAt`. `current` is the claim in
   force: the last one, until a requeue, a rollback or an applied result gives it up;
   losing the row to the age sweep does not. `revived` says that the row was put back
   by a dispatch not in force. `answered` are the executors whose result was applied.
  */
  datatype History = History(
    used: set<Epoch>, last: Option<Epoch>, wonAt: nat, current: Option<Epoch>, revived: bool,
    answered: set<Epoch>, applied: seq<Applied>)

  datatype State = State(db: Store, sched: Scheduler, work: Traffic, past: History)

  datatype Event =
    | Dequeue(mine: bool)
    | Defer
    | WinClaim(epoch: Epoch)
    | Reclaim(record: Record)
    | Track
    | Issue
    | Rollback
    | Requeue
    | Cancel
    | Purge
    | Trim
    | Commit(epoch: Epoch)
    | Reassert(record: Record)
    | Check(epoch: Epoch)
    | Release(epoch: Epoch)
    | Reap
    | Retire(epoch: Epoch)
    | Authorize(origin: Origin)
    | Write(origin: Origin, outcome: Outcome)
    | ForeignClaim(record: Record)
    | ForeignReassert(record: Record)
    | ForeignFinish(epoch: Epoch, outcome: Outcome)
    | ForeignReap(outcome: Outcome)

  /** A run, last event outermost. */
  datatype Run = Start | Then(before: Run, event: Event)

  const INITIAL := State(
    Store(Pending, 0, None),
    Scheduler(Idle, None, None, None, {}),
    Traffic(map[], {}, {}, map[], map[], map[], {}),
    History({}, None, 0, None, false, {}, []))

  // ------------------------------------------------------------------- the steps

  /** The loop is at rest: it polls, rescues and reaps one thing at a time. */
  predicate LoopFree(s: State) {
    s.sched.poller.Idle? && Reaper !in s.work.judged && Reaper !in s.work.granted
  }

  /** The row becomes a claim that was just won. */
  function Won(s: State, claim: Claim): State {
    s.(db := s.db.(claim := Some(claim)),
       past := s.past.(used := s.past.used + {claim.epoch}, last := Some(claim.epoch), wonAt := s.db.attempt,
                       current := Some(claim.epoch), revived := false))
  }

  /** The row is put back for the dispatch of `record`, as long as the job runs at its attempt. */
  predicate CanReassert(db: Store, record: Record) {
    db.status.Running? && db.attempt == record.attempt && db.claim.None?
  }

  function Reasserted(s: State, owner: Owner, epoch: Epoch): State {
    s.(db := s.db.(claim := Some(Claim(owner, epoch))), past := s.past.(revived := s.past.current != Some(epoch)))
  }

  /** The claim is given up: no row, and nothing in force. */
  function GivenUp(s: State, status: Status): State {
    s.(db := Store(status, s.db.attempt, None), past := s.past.(current := None, revived := false))
  }

  /** A frame is refused only when the book has an entry and it is another one. */
  predicate FrameIsCurrent(s: Scheduler, epoch: Epoch) {
    s.book.None? || s.book.value == epoch
  }

  function LastRecord(s: Scheduler): Option<Record> {
    if s.live.Some? then s.live else s.retired
  }

  /** Frees the slot: the record is retired, and its lease is to be retired from the book. */
  function Released(s: Scheduler): Scheduler {
    if s.live.None? then s
    else s.(live := None, retired := s.live, retiring := s.retiring + {s.live.value.epoch})
  }

  /** Whether a result fenced on `record` still speaks for the job. An absent claim is no evidence. */
  predicate Authorized(db: Store, record: Record) {
    && db.status.Running? && db.attempt == record.attempt
    && (db.claim.Some? ==>
          db.claim.value.owner.Me? && EpochsAgree(Some(db.claim.value.epoch), Some(record.epoch)))
  }

  /** A result without a record has nothing to be checked against. */
  predicate Passes(db: Store, record: Option<Record>) {
    record.Some? ==> Authorized(db, record.value)
  }

  /** Completing a job needs it running; retrying or archiving it only needs it to be there. */
  predicate CanWrite(db: Store, outcome: Outcome) {
    if outcome.Complete? then db.status.Running? else !db.status.Done?
  }

  function Written(db: Store, outcome: Outcome): Store {
    if outcome.Retry? then Store(Pending, db.attempt + 1, None) else Store(Done, db.attempt, None)
  }

  function Apply(s: State, origin: Origin, outcome: Outcome): State {
    s.(db := Written(s.db, outcome),
       past := s.past.(current := None, revived := false,
                       answered := s.past.answered + (if origin.Executor? then {origin.epoch} else {}),
                       applied := s.past.applied + [Applied(origin, s.past.current, s.past.last)]))
  }

  function AfterDefer(db: Store): Status {
    if db.status.Done? then Done else Pending
  }

  /** The loop's own steps: polling, rescuing and giving up. */
  function Loop(s: State, e: Event): Option<State>
    requires e.Dequeue? || e.Defer? || e.WinClaim? || e.Reclaim? || e.Track? || e.Issue? || e.Rollback?
  {
    match e
    case Dequeue(mine) =>
      if !s.db.status.Pending? || (mine && !LoopFree(s)) then None
      else
        var sched := if mine then s.sched.(poller := Dequeued(s.db.attempt)) else s.sched;
        Some(s.(db := s.db.(status := Running), sched := sched))
    case Defer =>
      if !s.sched.poller.Dequeued? then None
      else Some(s.(db := s.db.(status := AfterDefer(s.db)), sched := s.sched.(poller := Idle)))
    case WinClaim(epoch) =>
      if !s.sched.poller.Dequeued? || epoch in s.past.used then None
      else if s.db.claim.Some? then Some(s.(sched := s.sched.(poller := Idle)))
      else
        var hold := Hold(Record(s.sched.poller.attempt, epoch), false);
        Some(Won(s.(sched := s.sched.(poller := Claimed(hold))), Claim(Me, epoch)))
    case Reclaim(record) =>
      if !LoopFree(s) || s.db.claim.None? || s.db.claim.value.owner.Me? then None
      else if record.epoch in s.past.used || record.attempt > s.db.attempt then None
      else Some(Won(s.(sched := s.sched.(poller := Claimed(Hold(record, true)))), Claim(Me, record.epoch)))
    case Track =>
      if !s.sched.poller.Claimed? then None
      else
        var hold := s.sched.poller.hold;
        Some(s.(sched := s.sched.(poller := Tracked(hold), live := Some(hold.record), retired := None)))
    case Issue =>
      if !s.sched.poller.Tracked? then None
      else
        var hold := s.sched.poller.hold;
        var work := if hold.rescue then s.work else s.work.(out := s.work.out[hold.record.epoch := hold.record.attempt]);
        Some(s.(sched := s.sched.(poller := Idle, book := Some(hold.record.epoch)), work := work))
    case Rollback =>
      if s.sched.poller.Claimed? then Some(GivenUp(s.(sched := s.sched.(poller := Idle)), AfterDefer(s.db)))
      else if s.sched.poller.Tracked?
      then Some(GivenUp(s.(sched := Scheduler(Idle, None, None, None, s.sched.retiring)), AfterDefer(s.db)))
      else None
  }

  /** A result on its way, from the frame to the write. */
  function Settle(s: State, e: Event): Option<State>
    requires e.Check? || e.Release? || e.Reap? || e.Retire? || e.Authorize? || e.Write?
  {
    match e
    case Check(epoch) =>
      if epoch !in s.work.out then None
      else
        var work := s.work.(out := s.work.out - {epoch});
        Some(s.(work := if FrameIsCurrent(s.sched, epoch) then work.(inbox := work.inbox + {epoch}) else work))
    case Release(epoch) =>
      if epoch !in s.work.inbox then None
      else Some(s.(sched := Released(s.sched),
                   work := s.work.(inbox := s.work.inbox - {epoch},
                                   judged := s.work.judged[Executor(epoch) := LastRecord(s.sched)])))
    case Reap =>
      if !LoopFree(s) then None
      else Some(s.(sched := Released(s.sched),
                   work := s.work.(judged := s.work.judged[Reaper := LastRecord(s.sched)])))
    case Retire(epoch) =>
      if epoch !in s.sched.retiring then None
      else Some(s.(sched := s.sched.(retiring := s.sched.retiring - {epoch},
                                     book := if s.sched.book == Some(epoch) then None else s.sched.book)))
    case Authorize(origin) =>
      if origin !in s.work.judged then None
      else
        var record := s.work.judged[origin];
        var work := s.work.(judged := s.work.judged - {origin});
        if !Passes(s.db, record) then Some(s.(work := work))
        else
          var grant := Grant(record, s.db.claim, s.past.revived, s.past.current);
          Some(s.(work := work.(granted := work.granted[origin := grant])))
    case Write(origin, outcome) =>
      if origin !in s.work.granted then None
      else
        var t := s.(work := s.work.(granted := s.work.granted - {origin}));
        Some(if CanWrite(s.db, outcome) then Apply(t, origin, outcome) else t)
  }

  /**
   What storage, executors and other schedulers do. Only a pending job can be cancelled
   outright. A queued step write may land at any time and more than once. Another
   scheduler applies the result of any dispatch of its own, whatever the row says, and its
   reaper, which may hold no record of the job, settles the job whatever has become of it.
  */
  function Around(s: State, e: Event): Option<State>
    requires e.Requeue? || e.Cancel? || e.Purge? || e.Trim? || e.Commit? || e.Reassert?
             || e.ForeignClaim? || e.ForeignReassert? || e.ForeignFinish? || e.ForeignReap?
  {
    match e
    case Requeue => if s.db.status.Running? then Some(GivenUp(s, Pending)) else None
    case Cancel => if s.db.status.Pending? then Some(GivenUp(s, Done)) else None
    case Purge => Some(s.(db := s.db.(claim := None), past := s.past.(revived := false)))
    case Trim => Some(s.(sched := s.sched.(retired := None)))
    case Commit(epoch) =>
      if epoch !in s.work.out || !FrameIsCurrent(s.sched, epoch) then None
      else Some(s.(work := s.work.(writes := s.work.writes + {Record(s.work.out[epoch], epoch)})))
    case Reassert(record) =>
      if record !in s.work.writes || !CanReassert(s.db, record) then None
      else Some(Reasserted(s, Me, record.epoch))
    case ForeignClaim(record) =>
      if record.epoch in s.past.used || record.attempt > s.db.attempt then None
      else
        var work := s.work.(foreign := s.work.foreign[record.epoch := record.attempt],
                            foreignWrites := s.work.foreignWrites + {record});
        Some(Won(s.(work := work), Claim(Other, record.epoch)))
    case ForeignReassert(record) =>
      if record !in s.work.foreignWrites || !CanReassert(s.db, record) then None
      else Some(Reasserted(s, Other, record.epoch))
    case ForeignFinish(epoch, outcome) =>
      if epoch !in s.work.foreign then None
      else
        var t := s.(work := s.work.(foreign := s.work.foreign - {epoch}));
        Some(if CanWrite(s.db, outcome) then Apply(t, Executor(epoch), outcome) else t)
    case ForeignReap(outcome) => Some(if CanWrite(s.db, outcome) then Apply(s, Reaper, outcome) else s)
  }

  predicate OfLoop(e: Event) {
    e.Dequeue? || e.Defer? || e.WinClaim? || e.Reclaim? || e.Track? || e.Issue? || e.Rollback?
  }

  predicate OfResult(e: Event) {
    e.Check? || e.Release? || e.Reap? || e.Retire? || e.Authorize? || e.Write?
  }

  function Next(s: State, e: Event): Option<State> {
    if OfLoop(e) then Loop(s, e) else if OfResult(e) then Settle(s, e) else Around(s, e)
  }

  function Exec(run: Run): Option<State> {
    match run
    case Start => Some(INITIAL)
    case Then(before, e) =>
      match Exec(before)
      case None => None
      case Some(s) => Next(s, e)
  }

  // ------------------------------------------------------------ what every run keeps

  /** The claim in force is the last one won, and the row names it unless it was put back by another. */
  predicate ClaimOk(s: State) {
    && (s.past.current.Some? ==> s.past.current == s.past.last)
    && (s.past.last.Some? ==> s.past.last.value in s.past.used)
    && (s.db.claim.None? ==> !s.past.revived)
    && (s.db.claim.Some? ==>
          (s.past.current == Some(s.db.claim.value.epoch) <==> !s.past.revived))
  }

  function HoldOf(p: Poller): Option<Hold> {
    if p.Claimed? || p.Tracked? then Some(p.hold) else None
  }

  /** A record that is live is in the book, nobody will retire it, and it is not the claim still held. */
  predicate BookOk(s: State) {
    && (s.sched.live.Some? && !s.sched.poller.Tracked? ==> s.sched.book == Some(s.sched.live.value.epoch))
    && (s.sched.live.Some? ==> s.sched.live.value.epoch !in s.sched.retiring)
    && (s.sched.live.Some? ==> s.sched.live.value.epoch in s.past.used)
    && s.sched.retiring <= s.past.used
    && (HoldOf(s.sched.poller).Some? ==> HoldOf(s.sched.poller).value.record.epoch in s.past.used)
    && (s.sched.poller.Claimed? ==>
          && s.sched.poller.hold.record.epoch !in s.sched.retiring
          && (s.sched.live.Some? ==> s.sched.live.value.epoch != s.sched.poller.hold.record.epoch))
    && (s.sched.poller.Tracked? && LastRecord(s.sched).Some? ==>
          LastRecord(s.sched).value == s.sched.poller.hold.record)
  }

  function Count(b: bool): nat {
    if b then 1 else 0
  }

  /** In how many places the dispatch of `e` is: held, executing, checked, judged, granted, answered, elsewhere. */
  function Places(s: State, e: Epoch): nat {
    Count(HoldOf(s.sched.poller).Some? && HoldOf(s.sched.poller).value.record.epoch == e)
    + Count(e in s.work.out) + Count(e in s.work.inbox)
    + Count(Executor(e) in s.work.judged) + Count(Executor(e) in s.work.granted)
    + Count(e in s.work.foreign) + Count(e in s.past.answered)
  }

  /** No dispatch is in two places, and every one in some place was minted. */
  ghost predicate PlacesOk(s: State) {
    forall e: Epoch :: Places(s, e) <= 1 && (Places(s, e) == 1 ==> e in s.past.used)
  }

  /** Each executor's result is in the log at most once. */
  predicate LogOk(h: History) {
    && (forall i :: 0 <= i < |h.applied| && h.applied[i].origin.Executor? ==> h.applied[i].origin.epoch in h.answered)
    && (forall i, j :: 0 <= i < j < |h.applied| && h.applied[i].origin.Executor? ==>
          h.applied[i].origin != h.applied[j].origin)
    && (forall i :: 0 <= i < |h.applied| && h.applied[i].last.Some? ==> h.applied[i].last.value in h.used)
  }

  /** Some result was already applied under the claim won last. */
  predicate Answered(h: History) {
    h.last.Some? && exists i :: 0 <= i < |h.applied| && h.applied[i].last == h.last
  }

  /** The retry count tells whether the last claim has ended in an applied result. */
  predicate AttemptOk(s: State) {
    && s.past.wonAt <= s.db.attempt
    && (s.past.last.Some? && !s.db.status.Done? ==> (Answered(s.past) <==> s.db.attempt > s.past.wonAt))
  }

  /** The dispatch of `e` has reached an executor and its result has not been written. */
  predicate Dispatched(s: State, e: Epoch) {
    e in s.work.out || e in s.work.inbox || Executor(e) in s.work.judged || Executor(e) in s.work.granted
  }

  /** If the claim won last was dispatched here, no newer claim is held and its record is its own. */
  predicate OrderOk(s: State) {
    s.past.last.Some? && Dispatched(s, s.past.last.value) ==>
      && HoldOf(s.sched.poller).None?
      && Own(LastRecord(s.sched), s.past.last.value)
      && (Executor(s.past.last.value) in s.work.judged ==>
            Own(s.work.judged[Executor(s.past.last.value)], s.past.last.value))
      && (Executor(s.past.last.value) in s.work.granted ==>
            Own(s.work.granted[Executor(s.past.last.value)].record, s.past.last.value))
  }

  predicate Own(record: Option<Record>, e: Epoch) {
    record.Some? ==> record.value.epoch == e
  }

  /** What the fence saw, and that a claim once given up is never in force again. */
  predicate GrantOk(s: State, o: Origin)
    requires o in s.work.granted
  {
    var g := s.work.granted[o];
    && (o.Executor? && s.past.current == Some(o.epoch) ==> g.force == Some(o.epoch))
    && (g.record.Some? && g.row.Some? ==> (g.force == Some(g.record.value.epoch) <==> !g.revived))
  }

  predicate GrantsOk(s: State) {
    forall o :: o in s.work.granted ==> GrantOk(s, o)
  }

  ghost predicate Inv(s: State) {
    && ClaimOk(s) && BookOk(s) && PlacesOk(s) && LogOk(s.past) && AttemptOk(s) && OrderOk(s) && GrantsOk(s)
  }

  lemma NextKeepsClaim(s: State, e: Event)
    requires ClaimOk(s) && Next(s, e).Some?
    ensures ClaimOk(Next(s, e).value)
  {
  }

  /** In particular no `Retire` takes a dispatch out of the book that is still live. */
  lemma NextKeepsBook(s: State, e: Event)
    requires BookOk(s) && Next(s, e).Some?
    ensures BookOk(Next(s, e).value)
  {
  }

  lemma LoopKeepsPlaces(s: State, e: Event)
    requires BookOk(s) && PlacesOk(s) && OfLoop(e) && Loop(s, e).Some?
    ensures PlacesOk(Loop(s, e).value)
  {
    var v := Loop(s, e).value;
    forall x: Epoch ensures Places(v, x) <= 1 && (Places(v, x) == 1 ==> x in v.past.used) {
      assert Places(s, x) <= 1;
    }
  }

  lemma SettleKeepsPlaces(s: State, e: Event)
    requires PlacesOk(s) && OfResult(e) && Settle(s, e).Some?
    ensures PlacesOk(Settle(s, e).value)
  {
    var v := Settle(s, e).value;
    forall x: Epoch ensures Places(v, x) <= 1 && (Places(v, x) == 1 ==> x in v.past.used) {
      assert Places(s, x) <= 1;
    }
  }

  lemma AroundKeepsPlaces(s: State, e: Event)
    requires PlacesOk(s) && !OfLoop(e) && !OfResult(e) && Around(s, e).Some?
    ensures PlacesOk(Around(s, e).value)
  {
    var v := Around(s, e).value;
    forall x: Epoch ensures Places(v, x) <= 1 && (Places(v, x) == 1 ==> x in v.past.used) {
      assert Places(s, x) <= 1;
    }
  }

  lemma NextKeepsPlaces(s: State, e: Event)
    requires BookOk(s) && PlacesOk(s) && Next(s, e).Some?
    ensures PlacesOk(Next(s, e).value)
  {
    if OfLoop(e) {
      LoopKeepsPlaces(s, e);
    } else if OfResult(e) {
      SettleKeepsPlaces(s, e);
    } else {
      AroundKeepsPlaces(s, e);
    }
  }

  lemma ApplyKeepsLog(s: State, origin: Origin, outcome: Outcome)
    requires ClaimOk(s) && LogOk(s.past) && (origin.Executor? ==> origin.epoch !in s.past.answered)
    ensures LogOk(Apply(s, origin, outcome).past)
  {
  }

  /** The steps that may apply a result. */
  predicate Writes(e: Event) {
    e.Write? || e.ForeignFinish? || e.ForeignReap?
  }

  /** Only writes answer anything; every other step at most mints an epoch. */
  lemma NextLog(s: State, e: Event)
    requires Next(s, e).Some? && !Writes(e)
    ensures var v := Next(s, e).value;
            v.past.applied == s.past.applied && v.past.answered == s.past.answered && s.past.used <= v.past.used
  {
  }

  lemma NextKeepsLog(s: State, e: Event)
    requires ClaimOk(s) && PlacesOk(s) && LogOk(s.past) && Next(s, e).Some?
    ensures LogOk(Next(s, e).value.past)
  {
    if !Writes(e) {
      NextLog(s, e);
    } else if e.ForeignReap? {
      ApplyKeepsLog(s, Reaper, e.outcome);
    } else if e.Write? {
      if e.origin.Executor? {
        assert Places(s, e.origin.epoch) <= 1;
      }
      ApplyKeepsLog(s.(work := s.work.(granted := s.work.granted - {e.origin})), e.origin, e.outcome);
    } else {
      assert Places(s, e.epoch) <= 1;
      ApplyKeepsLog(s.(work := s.work.(foreign := s.work.foreign - {e.epoch})), Executor(e.epoch), e.outcome);
    }
  }

  lemma ApplyKeepsAttempt(s: State, origin: Origin, outcome: Outcome)
    requires AttemptOk(s)
    ensures AttemptOk(Apply(s, origin, outcome))
  {
    var h := Apply(s, origin, outcome).past;
    assert h.applied[|s.past.applied|].last == s.past.last;
  }

  /** Every other step keeps the retry count, and the claim won last unless it wins a new one. */
  lemma NextAttempt(s: State, e: Event)
    requires Next(s, e).Some? && !Writes(e)
    ensures var v := Next(s, e).value;
            && v.db.attempt == s.db.attempt && v.past.applied == s.past.applied
            && (s.db.status.Done? ==> v.db.status.Done?)
            && (|| (v.past.last == s.past.last && v.past.wonAt == s.past.wonAt)
                || (v.past.last.Some? && v.past.last.value !in s.past.used && v.past.wonAt == s.db.attempt))
  {
  }

  lemma NextKeepsAttempt(s: State, e: Event)
    requires LogOk(s.past) && AttemptOk(s) && Next(s, e).Some?
    ensures AttemptOk(Next(s, e).value)
  {
    if !Writes(e) {
      NextAttempt(s, e);
    } else if e.Write? {
      ApplyKeepsAttempt(s.(work := s.work.(granted := s.work.granted - {e.origin})), e.origin, e.outcome);
    } else if e.ForeignFinish? {
      ApplyKeepsAttempt(s.(work := s.work.(foreign := s.work.foreign - {e.epoch})), Executor(e.epoch), e.outcome);
    } else {
      ApplyKeepsAttempt(s, Reaper, e.outcome);
    }
  }

  lemma LoopKeepsOrder(s: State, e: Event)
    requires ClaimOk(s) && BookOk(s) && PlacesOk(s) && OrderOk(s) && OfLoop(e) && Loop(s, e).Some?
    ensures OrderOk(Loop(s, e).value)
  {
    var v := Loop(s, e).value;
    assert v.past.last.Some? ==> Places(s, v.past.last.value) <= 1;
  }

  lemma SettleKeepsOrder(s: State, e: Event)
    requires OrderOk(s) && OfResult(e) && Settle(s, e).Some?
    ensures OrderOk(Settle(s, e).value)
  {
  }

  lemma AroundKeepsOrder(s: State, e: Event)
    requires PlacesOk(s) && OrderOk(s) && !OfLoop(e) && !OfResult(e) && Around(s, e).Some?
    ensures OrderOk(Around(s, e).value)
  {
    var v := Around(s, e).value;
    assert v.past.last.Some? ==> Places(s, v.past.last.value) <= 1;
  }

  lemma NextKeepsOrder(s: State, e: Event)
    requires ClaimOk(s) && BookOk(s) && PlacesOk(s) && OrderOk(s) && Next(s, e).Some?
    ensures OrderOk(Next(s, e).value)
  {
    if OfLoop(e) {
      LoopKeepsOrder(s, e);
    } else if OfResult(e) {
      SettleKeepsOrder(s, e);
    } else {
      AroundKeepsOrder(s, e);
    }
  }

  /** Nothing that was granted before is in force again after a claim is won or given up. */
  lemma StillGranted(s: State, v: State, o: Origin)
    requires PlacesOk(s) && o in s.work.granted && GrantOk(s, o)
    requires o in v.work.granted && v.work.granted[o] == s.work.granted[o]
    requires v.past.current == s.past.current || v.past.current.None? || v.past.current.value !in s.past.used
    ensures GrantOk(v, o)
  {
    if o.Executor? {
      assert Places(s, o.epoch) <= 1;
    }
  }

  lemma NextForce(s: State, e: Event)
    requires Next(s, e).Some?
    ensures var v := Next(s, e).value;
            v.past.current == s.past.current || v.past.current.None? || v.past.current.value !in s.past.used
  {
  }

  lemma NextGrants(s: State, e: Event)
    requires Next(s, e).Some?
    ensures var v := Next(s, e).value;
            forall o :: o in v.work.granted ==>
              || (o in s.work.granted && v.work.granted[o] == s.work.granted[o])
              || (&& e == Authorize(o) && v.past == s.past && o in s.work.judged && Passes(s.db, s.work.judged[o])
                  && v.work.granted[o] == Grant(s.work.judged[o], s.db.claim, s.past.revived, s.past.current))
  {
  }

  lemma NextKeepsGrants(s: State, e: Event)
    requires ClaimOk(s) && PlacesOk(s) && GrantsOk(s) && Next(s, e).Some?
    ensures GrantsOk(Next(s, e).value)
  {
    var v := Next(s, e).value;
    NextForce(s, e);
    NextGrants(s, e);
    forall o | o in v.work.granted ensures GrantOk(v, o) {
      if o in s.work.granted && v.work.granted[o] == s.work.granted[o] {
        StillGranted(s, v, o);
      }
    }
  }

  lemma {:induction false} ExecInv(run: Run)
    requires Exec(run).Some?
    ensures Inv(Exec(run).value)
  {
    if run.Then? {
      var s, e := Exec(run.before).value, run.event;
      ExecInv(run.before);
      NextKeepsClaim(s, e);
      NextKeepsBook(s, e);
      NextKeepsPlaces(s, e);
      NextKeepsLog(s, e);
      NextKeepsAttempt(s, e);
      NextKeepsOrder(s, e);
      NextKeepsGrants(s, e);
    }
  }

  // ------------------------------------------------------------- one report per claim

  /** In every run, each executor's result is applied at most once. */
  lemma OncePerExecutor(run: Run, i: nat, j: nat)
    requires Exec(run).Some?
    requires var log := Exec(run).value.past.applied; i < j < |log| && log[i].origin.Executor?
    ensures var log := Exec(run).value.past.applied; log[i].origin != log[j].origin
  {
    ExecInv(run);
  }

  /** The write is applied under a claim that an earlier result was already applied under. */
  predicate AppliesSecond(s: State, t: State) {
    |t.past.applied| > |s.past.applied| && Answered(s.past)
  }

  /**
   A write is the second one under its claim exactly when the job can be written and its
   retry count has moved since the claim was won.
  */
  lemma SecondWriteIff(run: Run, origin: Origin, outcome: Outcome)
    requires Exec(run).Some? && origin in Exec(run).value.work.granted && Exec(run).value.past.last.Some?
    ensures var s := Exec(run).value;
            AppliesSecond(s, Next(s, Write(origin, outcome)).value) <==>
              CanWrite(s.db, outcome) && s.db.attempt > s.past.wonAt
  {
    ExecInv(run);
  }

  // ------------------------------------------------------------------- the book

  /** A straggler's `Retire` never evicts the entry of a dispatch that is still live. */
  lemma RetireSparesLive(run: Run, epoch: Epoch)
    requires Exec(run).Some? && Next(Exec(run).value, Retire(epoch)).Some?
    requires var s := Exec(run).value.sched; s.live.Some? && !s.poller.Tracked?
    ensures var s := Exec(run).value.sched;
            Next(Exec(run).value, Retire(epoch)).value.sched.book == Some(s.live.value.epoch)
  {
    ExecInv(run);
  }

  /**
   Releasing the slot for the result of `epoch` is what lets the lease of `other` be
   retired, and retiring it takes it out of the book.
  */
  predicate EvictsAnother(s: State, epoch: Epoch, other: Epoch) {
    && other != epoch && s.sched.book == Some(other) && Next(s, Retire(other)).None?
    && Next(s, Release(epoch)).Some?
    && var v := Next(s, Release(epoch)).value;
       Next(v, Retire(other)).Some? && Next(v, Retire(other)).value.sched.book == None
  }

  /**
   In every run, a result takes another dispatch's lease out of the book exactly when that
   dispatch is live as the result releases the slot; and the result is then a superseded
   one, a newer claim having been won since its own.
  */
  lemma EvictsAnotherIff(run: Run, epoch: Epoch, other: Epoch)
    requires Exec(run).Some? && epoch in Exec(run).value.work.inbox && !Exec(run).value.sched.poller.Tracked?
    ensures var s := Exec(run).value;
            && (EvictsAnother(s, epoch, other) <==>
                  other != epoch && s.sched.live.Some? && s.sched.live.value.epoch == other)
            && (EvictsAnother(s, epoch, other) ==> s.past.last != Some(epoch))
  {
    ExecInv(run);
  }

  // ------------------------------------------------------- when a stale report gets through

  /** The step applies the report of a dispatch that is not the claim in force. */
  predicate AppliesStale(s: State, t: State, epoch: Epoch) {
    && t.past.applied == s.past.applied + [Applied(Executor(epoch), s.past.current, s.past.last)]
    && s.past.current != Some(epoch)
  }

  /**
   In every run, a result fenced on its own record against a row that was not put back
   was the claim in force when it was fenced.
  */
  lemma FencedOnOwnRecord(run: Run, epoch: Epoch)
    requires Exec(run).Some? && Executor(epoch) in Exec(run).value.work.granted
    requires var g := Exec(run).value.work.granted[Executor(epoch)];
             g.record.Some? && g.record.value.epoch == epoch && g.row.Some? && !g.revived
    ensures Exec(run).value.work.granted[Executor(epoch)].force == Some(epoch)
  {
    ExecInv(run);
    assert GrantOk(Exec(run).value, Executor(epoch));
  }

  /**
   In every run, a result past the fence is applied stale exactly when the job can be
   written and either the claim in force has changed since the fence, or what it was
   fenced on did not vouch for it: another dispatch's record or a row put back, and,
   without a record or a row, any claim in force but its own.
  */
  lemma WriteStaleIff(run: Run, epoch: Epoch, outcome: Outcome)
    requires Exec(run).Some? && Executor(epoch) in Exec(run).value.work.granted
    ensures var s := Exec(run).value;
            var g := s.work.granted[Executor(epoch)];
            AppliesStale(s, Next(s, Write(Executor(epoch), outcome)).value, epoch) <==>
              && CanWrite(s.db, outcome)
              && (|| s.past.current != g.force
                  || (if g.record.Some? && g.row.Some? then g.record.value.epoch != epoch || g.revived
                      else g.force != Some(epoch)))
  {
    ExecInv(run);
    var s := Exec(run).value;
    assert GrantOk(s, Executor(epoch)) && Dispatched(s, epoch);
  }

  // --------------------------------------------------- reports settled where they are checked

  /** Fencing a result and writing what it asks for, with nothing in between. */
  function Settled(s: State, origin: Origin, outcome: Outcome): State
    requires origin in s.work.judged
  {
    var a := Settle(s, Authorize(origin)).value;
    if Passes(s.db, s.work.judged[origin]) then Settle(a, Write(origin, outcome)).value else a
  }

  /** The slot is freed and the freed lease retired, with nothing in between. */
  function Freed(s: Scheduler): Scheduler {
    if s.live.None? then s
    else
      var e := s.live.value.epoch;
      s.(live := None, retired := s.live, book := if s.book == Some(e) then None else s.book)
  }

  /** Checking a frame and settling its result, with nothing in between. */
  function Report(s: State, epoch: Epoch, outcome: Outcome): State
    requires epoch in s.work.out
  {
    var a := Settle(s, Check(epoch)).value;
    if !FrameIsCurrent(s.sched, epoch) then a
    else
      var b := Settle(a, Release(epoch)).value;
      var c := if s.sched.live.None? then b else Settle(b, Retire(s.sched.live.value.epoch)).value;
      Settled(c, Executor(epoch), outcome)
  }

  lemma SettledWrites(s: State, origin: Origin, outcome: Outcome)
    requires origin in s.work.judged
    ensures var t := Settled(s, origin, outcome);
            && t.sched == s.sched && t.work.judged == s.work.judged - {origin}
            && t.work.out == s.work.out && t.work.inbox == s.work.inbox && t.work.writes == s.work.writes
            && (origin !in s.work.granted ==> t.work.granted == s.work.granted)
            && if Passes(s.db, s.work.judged[origin]) && CanWrite(s.db, outcome)
               then t.db == Written(s.db, outcome) && t.past == Apply(s, origin, outcome).past
               else t.db == s.db && t.past == s.past
  {
  }

  /** A report is fenced on the rows and the record as they were when it was checked. */
  lemma ReportWrites(s: State, epoch: Epoch, outcome: Outcome)
    requires epoch in s.work.out
    ensures var t := Report(s, epoch, outcome);
            if FrameIsCurrent(s.sched, epoch) && Passes(s.db, LastRecord(s.sched)) && CanWrite(s.db, outcome)
            then t.db == Written(s.db, outcome) && t.past == Apply(s, Executor(epoch), outcome).past
            else t.db == s.db && t.past == s.past
  {
    if FrameIsCurrent(s.sched, epoch) {
      var a := Settle(s, Check(epoch)).value;
      var b := Settle(a, Release(epoch)).value;
      var c := if s.sched.live.None? then b else Settle(b, Retire(s.sched.live.value.epoch)).value;
      SettledWrites(c, Executor(epoch), outcome);
    }
  }

  /**
   When nothing comes between the check and the settling, the book rules the overtaken
   case out. What is left: no record, no claim row, a row put back by a superseded
   dispatch, or a slot that was freed while its claim stayed in force.
  */
  lemma ReportStaleIff(run: Run, epoch: Epoch, outcome: Outcome)
    requires Exec(run).Some? && epoch in Exec(run).value.work.out && !Exec(run).value.sched.poller.Tracked?
    ensures var s := Exec(run).value;
            var record := LastRecord(s.sched);
            AppliesStale(s, Report(s, epoch, outcome), epoch) <==>
              && FrameIsCurrent(s.sched, epoch) && s.past.current != Some(epoch)
              && if record.None? then CanWrite(s.db, outcome)
                 else s.db.status.Running? && record.value.attempt == s.db.attempt
                      && (s.db.claim.None? ||
                          (s.db.claim == Some(Claim(Me, record.value.epoch)) && (s.past.revived || s.sched.live.None?)))
  {
    ExecInv(run);
    ReportWrites(Exec(run).value, epoch, outcome);
  }

  /**
   So while the job has a live dispatch record and a claim row that was not put back, a
   report settled where it is checked is applied only if it is the claim in force's own.
  */
  lemma LiveReportsAreCurrent(run: Run, epoch: Epoch, outcome: Outcome)
    requires Exec(run).Some? && epoch in Exec(run).value.work.out
    requires var s := Exec(run).value;
             !s.sched.poller.Tracked? && s.sched.live.Some? && s.db.claim.Some? && !s.past.revived
    ensures var s := Exec(run).value;
            Report(s, epoch, outcome).past.applied != s.past.applied ==> s.past.current == Some(epoch)
  {
    ExecInv(run);
    ReportWrites(Exec(run).value, epoch, outcome);
  }
}
