/** Each way a stale or a second result gets past the fence, as a run that ends in it. */
module FenceRuns {
  import opened Fence
  import opened Lease
  import opened Wrappers

  const FIRST := Record(0, 1)
  const SECOND := Record(0, 2)

  lemma Step(run: Run, s: State, e: Event) returns (longer: Run, t: State)
    requires Exec(run) == Some(s) && Next(s, e).Some?
    ensures longer == Then(run, e) && Exec(longer) == Some(t) && Next(s, e) == Some(t)
  {
    longer, t := Then(run, e), Next(s, e).value;
  }

  /** The dispatch of `record` is tracked, in the book and in force. */
  predicate InForce(s: State, record: Record) {
    && s.db == Store(Running, record.attempt, Some(Claim(Me, record.epoch)))
    && s.sched.poller.Idle? && s.sched.live == Some(record) && s.sched.book == Some(record.epoch)
    && s.past.current == s.past.last == Some(record.epoch) && s.past.wonAt == record.attempt && !s.past.revived
  }

  /** Dequeued, claimed, tracked and handed out. */
  lemma DispatchWhole(run: Run, s: State, epoch: Epoch) returns (longer: Run, t: State)
    requires Exec(run) == Some(s)
    requires s.db.status.Pending? && s.db.claim.None? && epoch !in s.past.used && LoopFree(s)
    ensures Exec(longer) == Some(t) && InForce(t, Record(s.db.attempt, epoch))
    ensures t.work == s.work.(out := s.work.out[epoch := s.db.attempt])
    ensures t.past.used == s.past.used + {epoch} && t.past.applied == s.past.applied
  {
    longer, t := Step(run, s, Dequeue(true));
    longer, t := Step(longer, t, WinClaim(epoch));
    longer, t := Step(longer, t, Track);
    longer, t := Step(longer, t, Issue);
  }

  /** The result of dispatch 1 has taken `record`, and fencing and writing it now applies it stale. */
  predicate StaleNow(s: State, record: Option<Record>) {
    && Executor(1) in s.work.judged && s.work.judged[Executor(1)] == record
    && AppliesStale(s, Settled(s, Executor(1), Complete), 1)
  }

  /** The first frame has passed the check when the job is requeued and dispatched again. */
  lemma DispatchedAgain() returns (run: Run, s: State)
    ensures Exec(run) == Some(s) && InForce(s, SECOND) && 1 in s.work.inbox
  {
    run, s := DispatchWhole(Start, INITIAL, 1);
    run, s := Step(run, s, Check(1));
    run, s := Step(run, s, Requeue);
    run, s := DispatchWhole(run, s, 2);
  }

  /**
   Overtaken: the first frame passes the check, the job is requeued and dispatched
   again, and the first result is fenced on the second dispatch's record. The
   second dispatch loses its lease and the job to the first one's answer.
  */
  lemma OvertakenAppliesStale() returns (run: Run, s: State)
    ensures Exec(run) == Some(s) && StaleNow(s, Some(SECOND)) && s.past.current == Some(2)
    ensures s.sched.book == Some(2) && 2 in s.sched.retiring
  {
    run, s := DispatchedAgain();
    run, s := Step(run, s, Release(1));
  }

  /** Unclaimed: between a dequeue and its claim the job runs with no row to disagree with. */
  lemma UnclaimedAppliesStale() returns (run: Run, s: State)
    ensures Exec(run) == Some(s) && StaleNow(s, Some(FIRST)) && s.past.current == None && s.db.claim == None
  {
    run, s := DispatchWhole(Start, INITIAL, 1);
    run, s := Step(run, s, Requeue);
    run, s := Step(run, s, Dequeue(true));
    run, s := Step(run, s, Check(1));
    run, s := Step(run, s, Release(1));
  }

  /**
   Revived: in that same gap the requeued dispatch commits a step, which puts its row
   back. Record, book and row then all name it, and its report is applied.
  */
  lemma RevivedAppliesStale() returns (run: Run, s: State)
    ensures Exec(run) == Some(s) && 1 in s.work.out && !s.sched.poller.Tracked? && s.past.current != Some(1)
    ensures s.sched.live == Some(FIRST) && s.sched.book == Some(1) && s.db.claim == Some(Claim(Me, 1))
    ensures AppliesStale(s, Report(s, 1, Complete), 1)
  {
    run, s := DispatchWhole(Start, INITIAL, 1);
    run, s := Step(run, s, Requeue);
    run, s := Step(run, s, Dequeue(true));
    run, s := Step(run, s, Commit(1));
    run, s := Step(run, s, Reassert(FIRST));
    ReportWrites(s, 1, Complete);
  }

  /** Purged: another scheduler runs the job, and the age sweep has dropped its claim row. */
  lemma PurgedAppliesStale() returns (run: Run, s: State)
    ensures Exec(run) == Some(s) && StaleNow(s, Some(FIRST)) && s.past.current == Some(2) && s.db.claim == None
  {
    run, s := DispatchWhole(Start, INITIAL, 1);
    run, s := Step(run, s, Requeue);
    run, s := Step(run, s, Dequeue(false));
    run, s := Step(run, s, ForeignClaim(SECOND));
    run, s := Step(run, s, Purge);
    run, s := Step(run, s, Check(1));
    run, s := Step(run, s, Release(1));
  }

  lemma ReapJudged() returns (run: Run, s: State)
    ensures Exec(run) == Some(s) && s.work.judged == map[Reaper := Some(FIRST)] && s.work.granted == map[]
    ensures s.db == Store(Running, 0, Some(Claim(Me, 1))) && s.sched.live.None? && s.sched.book.None?
    ensures 1 in s.work.out && s.past.used == {1}
  {
    run, s := DispatchWhole(Start, INITIAL, 1);
    run, s := Step(run, s, Reap);
    run, s := Step(run, s, Retire(1));
  }

  /** The reaper settles the first dispatch, and the job waits for its retry. */
  lemma ReapedWhole() returns (run: Run, s: State)
    ensures Exec(run) == Some(s)
    ensures s.db == Store(Pending, 1, None) && s.sched.live.None? && s.sched.book.None?
    ensures 1 in s.work.out && s.past.used == {1}
  {
    run, s := ReapJudged();
    run, s := Step(run, s, Authorize(Reaper));
    run, s := Step(run, s, Write(Reaper, Retry));
  }

  lemma RetriedElsewhere() returns (run: Run, s: State)
    ensures Exec(run) == Some(s)
    ensures s.db == Store(Running, 1, Some(Claim(Other, 2))) && s.sched.live.None? && s.sched.book.None?
    ensures 1 in s.work.out && s.past.current == Some(2)
  {
    run, s := ReapedWhole();
    run, s := Step(run, s, Dequeue(false));
    run, s := Step(run, s, ForeignClaim(Record(1, 2)));
  }

  /** Forgotten: after the reaper, the record was trimmed, and another scheduler runs the retry. */
  lemma ForgottenAppliesStale() returns (run: Run, s: State)
    ensures Exec(run) == Some(s) && StaleNow(s, None) && s.past.current == Some(2)
  {
    run, s := RetriedElsewhere();
    run, s := Step(run, s, Trim);
    run, s := Step(run, s, Check(1));
    run, s := Step(run, s, Release(1));
  }

  /** The first dispatch has reported and is past the fence. */
  lemma GrantedFirst() returns (run: Run, s: State)
    ensures Exec(run) == Some(s) && Executor(1) in s.work.granted && s.past.used == {1}
    ensures s.work.granted[Executor(1)] == Grant(Some(FIRST), Some(Claim(Me, 1)), false, Some(1))
    ensures s.db == Store(Running, 0, Some(Claim(Me, 1)))
  {
    run, s := DispatchWhole(Start, INITIAL, 1);
    run, s := Step(run, s, Check(1));
    run, s := Step(run, s, Release(1));
    run, s := Step(run, s, Authorize(Executor(1)));
  }

  /** Too late: the fence was right when it passed the result, and the job moved on before the write. */
  lemma LateWriteAppliesStale() returns (run: Run, s: State)
    ensures Exec(run) == Some(s) && Executor(1) in s.work.granted && s.past.current == Some(2)
    ensures s.work.granted[Executor(1)] == Grant(Some(FIRST), Some(Claim(Me, 1)), false, Some(1))
    ensures AppliesStale(s, Next(s, Write(Executor(1), Complete)).value, 1)
  {
    run, s := GrantedFirst();
    run, s := Step(run, s, Requeue);
    run, s := Step(run, s, Dequeue(false));
    run, s := Step(run, s, ForeignClaim(SECOND));
  }

  /** The reaper takes the record of a dispatch whose result has been checked, and then the result does. */
  lemma BothJudged() returns (run: Run, s: State)
    ensures Exec(run) == Some(s)
    ensures s.work.judged == map[Reaper := Some(FIRST), Executor(1) := Some(FIRST)] && s.work.granted == map[]
    ensures s.db == Store(Running, 0, Some(Claim(Me, 1))) && s.past.applied == []
    ensures s.past.used == {1} && s.past.last == Some(1) && s.past.current == Some(1)
  {
    run, s := DispatchWhole(Start, INITIAL, 1);
    run, s := Step(run, s, Check(1));
    run, s := Step(run, s, Reap);
    run, s := Step(run, s, Release(1));
  }

  /** The executor and the reaper have both passed the fence on the same record. */
  lemma BothGranted() returns (run: Run, s: State)
    ensures Exec(run) == Some(s) && Executor(1) in s.work.granted && Reaper in s.work.granted
    ensures s.db == Store(Running, 0, Some(Claim(Me, 1))) && s.past.applied == []
    ensures s.past.used == {1} && s.past.last == Some(1) && s.past.current == Some(1)
  {
    run, s := BothJudged();
    run, s := Step(run, s, Authorize(Reaper));
    run, s := Step(run, s, Authorize(Executor(1)));
  }

  /** One claim, two applied results: the executor's failure and the reaper's, each bumping the retry count. */
  lemma TwiceUnderOneClaim() returns (run: Run, s: State)
    ensures Exec(run) == Some(s) && s.past.used == {1} && s.db.attempt == 2
    ensures s.past.applied == [Applied(Executor(1), Some(1), Some(1)), Applied(Reaper, None, Some(1))]
  {
    run, s := BothGranted();
    run, s := Step(run, s, Write(Executor(1), Retry));
    run, s := Step(run, s, Write(Reaper, Retry));
  }
}
