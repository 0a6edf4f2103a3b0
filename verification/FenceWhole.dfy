/** The fence when nothing comes between the steps of a dispatch, a reap, a step commit or a report. */
module FenceWhole {
  import opened Fence
  import opened Lease
  import opened Wrappers

  /** The protocol with its steps whole: dispatch, requeue, cancellation, reap, step commit, report. */
  datatype Act =
    | DispatchJob(epoch: Epoch)
    | PutBack
    | CallOff
    | ReapStale
    | CommitStep(epoch: Epoch)
    | Answer(epoch: Epoch, outcome: Outcome)

  function DoDispatch(s: State, epoch: Epoch): Option<State> {
    if !s.db.status.Pending? || s.db.claim.Some? || epoch in s.past.used || !LoopFree(s) then None
    else
      var a := Loop(s, Dequeue(true)).value;
      var b := Loop(a, WinClaim(epoch)).value;
      var c := Loop(b, Track).value;
      Loop(c, Issue)
  }

  /** The reaper settles what it finds running, and the failed attempt is retried. */
  function DoReap(s: State): Option<State> {
    if !s.db.status.Running? || !LoopFree(s) then None
    else
      var a := Settle(s, Reap).value;
      var b := if s.sched.live.None? then a else Settle(a, Retire(s.sched.live.value.epoch)).value;
      Some(Settled(b, Reaper, Retry))
  }

  /** A step commit that passes the check lands at once, and puts the row back if it may. */
  function DoCommit(s: State, epoch: Epoch): Option<State> {
    if epoch !in s.work.out || !FrameIsCurrent(s.sched, epoch) then None
    else
      var a := Around(s, Commit(epoch)).value;
      var b := Around(a, Reassert(Record(s.work.out[epoch], epoch)));
      Some(if b.Some? then b.value else a)
  }

  function Do(s: State, act: Act): Option<State> {
    match act
    case DispatchJob(epoch) => DoDispatch(s, epoch)
    case PutBack => Around(s, Requeue)
    case CallOff => Around(s, Cancel)
    case ReapStale => DoReap(s)
    case CommitStep(epoch) => DoCommit(s, epoch)
    case Answer(epoch, outcome) => if epoch in s.work.out then Some(Report(s, epoch, outcome)) else None
  }

  function DoAll(acts: seq<Act>): Option<State> {
    if acts == [] then Some(INITIAL)
    else
      match DoAll(acts[..|acts| - 1])
      case None => None
      case Some(t) => Do(t, acts[|acts| - 1])
  }

  /** Between whole steps a running job is claimed by its live record, and every executor is on record. */
  predicate Tidy(s: State) {
    && LoopFree(s) && s.work.judged == map[] && s.work.granted == map[] && s.work.inbox == {}
    && ClaimOk(s) && !s.past.revived
    && (s.db.status.Running? <==> s.db.claim.Some?)
    && (s.db.claim.Some? ==> s.db.claim.value.owner.Me?
                             && s.sched.live == Some(Record(s.db.attempt, s.db.claim.value.epoch)))
    && (s.work.out != map[] ==> LastRecord(s.sched).Some?)
    && s.sched.retiring == {}
    && s.sched.book == if s.sched.live.Some? then Some(s.sched.live.value.epoch) else None
  }

  /** Every applied result had a claim in force, an executor's its own, and no two had the same. */
  predicate OneEach(h: History) {
    && (forall i :: 0 <= i < |h.applied| ==> h.applied[i].current.Some? && h.applied[i].current.value in h.used)
    && (forall i :: 0 <= i < |h.applied| && h.applied[i].origin.Executor? ==>
          h.applied[i].current == Some(h.applied[i].origin.epoch))
    && (forall i :: 0 <= i < |h.applied| ==> h.applied[i].current != h.current)
    && (forall i, j :: 0 <= i < j < |h.applied| ==> h.applied[i].current != h.applied[j].current)
  }

  lemma DispatchKeepsTidy(s: State, epoch: Epoch)
    requires Tidy(s) && OneEach(s.past) && DoDispatch(s, epoch).Some?
    ensures Tidy(DoDispatch(s, epoch).value) && OneEach(DoDispatch(s, epoch).value.past)
  {
  }

  lemma ReapKeepsTidy(s: State)
    requires Tidy(s) && OneEach(s.past) && DoReap(s).Some?
    ensures Tidy(DoReap(s).value) && OneEach(DoReap(s).value.past)
  {
    var a := Settle(s, Reap).value;
    var b := if s.sched.live.None? then a else Settle(a, Retire(s.sched.live.value.epoch)).value;
    SettledWrites(b, Reaper, Retry);
    assert b.work.judged - {Reaper} == map[];
  }

  /** Between whole steps a running job has its row, so a commit puts nothing back. */
  lemma CommitKeepsTidy(s: State, epoch: Epoch)
    requires Tidy(s) && DoCommit(s, epoch).Some?
    ensures Tidy(DoCommit(s, epoch).value) && DoCommit(s, epoch).value.past == s.past
    ensures DoCommit(s, epoch).value.db == s.db
  {
  }

  /** A report settled whole leaves nothing behind and frees exactly the slot it was fenced on. */
  lemma ReportLeaves(s: State, epoch: Epoch, outcome: Outcome)
    requires epoch in s.work.out && Tidy(s)
    ensures var t := Report(s, epoch, outcome);
            && t.sched == (if FrameIsCurrent(s.sched, epoch) then Freed(s.sched) else s.sched)
            && t.work == s.work.(out := s.work.out - {epoch})
  {
    if FrameIsCurrent(s.sched, epoch) {
      var a := Settle(s, Check(epoch)).value;
      var b := Settle(a, Release(epoch)).value;
      var c := if s.sched.live.None? then b else Settle(b, Retire(s.sched.live.value.epoch)).value;
      SettledWrites(c, Executor(epoch), outcome);
      assert c.work.judged - {Executor(epoch)} == map[] && c.work.inbox == {};
    }
  }

  lemma ReportKeepsTidy(s: State, epoch: Epoch, outcome: Outcome)
    requires Tidy(s) && OneEach(s.past) && epoch in s.work.out
    ensures Tidy(Report(s, epoch, outcome)) && OneEach(Report(s, epoch, outcome).past)
  {
    ReportLeaves(s, epoch, outcome);
    ReportWrites(s, epoch, outcome);
  }

  /**
   In every run of whole steps, with epochs that never repeat: a report is applied only
   when its dispatch is the claim in force, every applied result ends a claim and no two
   end the same one, and the book holds exactly the live dispatch's lease.
  */
  lemma {:induction false} WholeStepsNeverStale(acts: seq<Act>)
    requires DoAll(acts).Some?
    ensures var s := DoAll(acts).value; Tidy(s) && OneEach(s.past)
    decreases |acts|
  {
    if acts != [] {
      var front, act := acts[..|acts| - 1], acts[|acts| - 1];
      WholeStepsNeverStale(front);
      var s := DoAll(front).value;
      match act
      case DispatchJob(epoch) => DispatchKeepsTidy(s, epoch);
      case PutBack =>
      case CallOff =>
      case ReapStale => ReapKeepsTidy(s);
      case CommitStep(epoch) => CommitKeepsTidy(s, epoch);
      case Answer(epoch, outcome) => ReportKeepsTidy(s, epoch, outcome);
    }
  }
}
