/**
 Running jobs by calling back into Java (crates/flexiq-java/src/dispatcher.rs):
 a completion registry, and one task per job that registers a token, submits the
 job, waits for its completion or its timeout, and reports. Tasks, completions and
 cancel signals interleave in any way.
*/
module Dispatcher {
  import opened Text
  import opened Wrappers

  datatype Job = Job(id: Str, timeoutMs: int)

  datatype TaskOutcome =
    | Success(result: Str)
    | Failure(error: Str, retryable: bool)
    | Cancelled
    | Slept(wakeAt: int)

  datatype JobResult =
    | Succeeded(id: Str, result: Str)
    | Failed(id: Str, error: Str, timedOut: bool, shouldRetry: bool)
    | WasCancelled(id: Str)
    | FellAsleep(id: Str, wakeAt: int)

  // ---------------------------------------------------------- the completion registry

  /**
   Which tokens have a sender, and what was sent. A receiver whose token is in
   neither has lost its sender.
  */
  datatype Book = Book(pending: set<nat>, mail: map<nat, TaskOutcome>, next: nat)

  function Registering(b: Book): Book {
    b.(pending := b.pending + {b.next}, next := b.next + 1)
  }

  function Forgetting(b: Book, token: nat): Book {
    b.(pending := b.pending - {token})
  }

  function Completing(b: Book, token: nat, outcome: TaskOutcome): Book {
    if token in b.pending then b.(pending := b.pending - {token}, mail := b.mail[token := outcome]) else b
  }

  class Registry {
    var pending: set<nat>
    var mail: map<nat, TaskOutcome>
    var nextToken: nat

    function View(): Book
      reads this
    {
      Book(pending, mail, nextToken)
    }

    constructor ()
      ensures View() == Book({}, map[], 0)
    {
      pending, mail, nextToken := {}, map[], 0;
    }

    method Register() returns (token: nat)
      modifies this
      ensures token == old(nextToken) && View() == Registering(old(View()))
    {
      token := nextToken;
      nextToken := nextToken + 1;
      pending := pending + {token};
    }

    method Forget(token: nat)
      modifies `pending
      ensures View() == Forgetting(old(View()), token)
    {
      pending := pending - {token};
    }

    /** Resolves a pending job; a token that already completed or timed out is left alone. */
    method Complete(token: nat, outcome: TaskOutcome)
      modifies `pending, `mail
      ensures View() == Completing(old(View()), token, outcome)
      ensures token !in old(pending) ==> View() == old(View())
    {
      if token in pending {
        pending := pending - {token};
        mail := mail[token := outcome];
      }
    }
  }

  // ------------------------------------------------------------------- one task per job

  datatype Phase =
    | Spawned
    | Registered(token: nat)
    | Entered(token: nat)
    | Waiting(token: nat)
    | Abandoning(token: nat, why: Ending)
    | Finished(why: Ending)
    | Unguarded(why: Ending)
    | Uncancelled(why: Ending)
    | Reported

  /** How an attempt ended, and so what it reports. */
  datatype Ending =
    | NotSubmitted(error: Str)
    | TimedOut
    | Completed(token: nat, outcome: TaskOutcome, cancelled: bool)
    | ChannelDropped

  function ResultOf(id: Str, why: Ending): JobResult {
    match why
    case NotSubmitted(error) => Failed(id, error, false, true)
    case TimedOut => Failed(id, Lit("task timed out"), true, true)
    case ChannelDropped => Failed(id, Lit("java task channel dropped"), false, true)
    case Completed(_, Success(result), _) => Succeeded(id, result)
    case Completed(_, Slept(wakeAt), _) => FellAsleep(id, wakeAt)
    case Completed(_, Cancelled, _) => WasCancelled(id)
    case Completed(_, Failure(error, retryable), cancelled) =>
      if cancelled then WasCancelled(id) else Failed(id, error, false, retryable)
  }

  type Tid = nat

  /** `own` is history: the token it registered. */
  datatype Task = Task(job: Job, phase: Phase, own: Option<nat>)

  datatype Report = Report(task: Tid, why: Ending, result: JobResult)

  /** `first` is history: the first completion of each token after it was registered. */
  datatype State = State(
    book: Book, tasks: seq<Task>, guards: set<Tid>, cancelled: set<Str>,
    reports: seq<Report>, first: map<nat, TaskOutcome>)

  datatype Event =
    | Receive(job: Job)
    | Register(t: Tid)
    | Enter(t: Tid)
    | Submit(t: Tid, error: Option<Str>)
    | Wake(t: Tid)
    | Timeout(t: Tid)
    | Forget(t: Tid)
    | DropGuard(t: Tid)
    | ForgetCancel(t: Tid)
    | Send(t: Tid)
    | Complete(token: nat, outcome: TaskOutcome)
    | Signal(id: Str)

  const EMPTY := State(Book({}, map[], 0), [], {}, {}, [], map[])

  function At(s: State, t: Tid, phase: Phase): State
    requires t < |s.tasks|
  {
    s.(tasks := s.tasks[t := s.tasks[t].(phase := phase)])
  }

  /** What a waiting task finds when its receiver is polled, if anything. */
  function Polled(s: State, t: Tid, token: nat): Option<Ending>
    requires t < |s.tasks|
  {
    if token in s.book.mail then Some(Completed(token, s.book.mail[token], s.tasks[t].job.id in s.cancelled))
    else if token in s.book.pending then None
    else Some(ChannelDropped)
  }

  function Step(s: State, t: Tid, e: Event): Option<State>
    requires t < |s.tasks|
  {
    match (e, s.tasks[t].phase)
    case (Register(_), Spawned) =>
      Some(s.(book := Registering(s.book),
              tasks := s.tasks[t := Task(s.tasks[t].job, Registered(s.book.next), Some(s.book.next))]))
    case (Enter(_), Registered(token)) => Some(At(s.(guards := s.guards + {t}), t, Entered(token)))
    case (Submit(_, None), Entered(token)) => Some(At(s, t, Waiting(token)))
    case (Submit(_, Some(error)), Entered(token)) => Some(At(s, t, Abandoning(token, NotSubmitted(error))))
    case (Wake(_), Waiting(token)) =>
      (match Polled(s, t, token)
       case None => None
       case Some(why) => Some(At(s, t, Finished(why))))
    case (Timeout(_), Waiting(token)) =>
      if s.tasks[t].job.timeoutMs > 0 && Polled(s, t, token).None?
      then Some(At(s, t, Abandoning(token, TimedOut))) else None
    case (Forget(_), Abandoning(token, why)) => Some(At(s.(book := Forgetting(s.book, token)), t, Finished(why)))
    case (DropGuard(_), Finished(why)) => Some(At(s.(guards := s.guards - {t}), t, Unguarded(why)))
    case (ForgetCancel(_), Unguarded(why)) =>
      Some(At(s.(cancelled := s.cancelled - {s.tasks[t].job.id}), t, Uncancelled(why)))
    case (Send(_), Uncancelled(why)) =>
      Some(At(s.(reports := s.reports + [Report(t, why, ResultOf(s.tasks[t].job.id, why))]), t, Reported))
    case _ => None
  }

  function Next(s: State, e: Event): Option<State> {
    match e
    case Receive(job) => Some(s.(tasks := s.tasks + [Task(job, Spawned, None)]))
    case Complete(token, outcome) =>
      var first := if token < s.book.next && token !in s.first then s.first[token := outcome] else s.first;
      Some(s.(book := Completing(s.book, token, outcome), first := first))
    case Signal(id) => Some(s.(cancelled := s.cancelled + {id}))
    case _ => if e.t < |s.tasks| then Step(s, e.t, e) else None
  }

  function Exec(run: seq<Event>): Option<State> {
    if run == [] then Some(EMPTY)
    else
      match Exec(run[..|run| - 1])
      case None => None
      case Some(s) => Next(s, run[|run| - 1])
  }

  // ------------------------------------------------------------ what every run keeps

  /** The token of an attempt that has not settled yet. */
  function TokenOf(p: Phase): Option<nat> {
    match p
    case Registered(token) => Some(token)
    case Entered(token) => Some(token)
    case Waiting(token) => Some(token)
    case Abandoning(token, _) => Some(token)
    case _ => None
  }

  function EndingOf(p: Phase): Option<Ending> {
    match p
    case Abandoning(_, why) => Some(why)
    case Finished(why) => Some(why)
    case Unguarded(why) => Some(why)
    case Uncancelled(why) => Some(why)
    case _ => None
  }

  /** Every token handed out has a sender or a delivery, until a task abandons it. */
  predicate BookOk(s: State) {
    && (forall k :: k in s.book.pending ==> k < s.book.next && k !in s.book.mail)
    && (forall k :: k in s.book.mail ==> k < s.book.next && k in s.first && s.first[k] == s.book.mail[k])
    && (forall k :: k in s.first ==> k < s.book.next && k !in s.book.pending)
  }

  predicate TaskOk(s: State, t: Tid)
    requires t < |s.tasks|
  {
    var task := s.tasks[t];
    && (task.own.Some? <==> !task.phase.Spawned?)
    && (task.own.Some? ==> task.own.value < s.book.next)
    && (TokenOf(task.phase).Some? ==> task.own == TokenOf(task.phase) && Reachable(s.book, task.own.value))
    && (Settled(task.phase) ==> task.own.value !in s.book.pending)
    && (EndingOf(task.phase).Some? ==> EndingOk(s, task, EndingOf(task.phase).value))
    && (t in s.guards <==> task.phase.Entered? || task.phase.Waiting? || task.phase.Abandoning? || task.phase.Finished?)
  }

  predicate Reachable(b: Book, token: nat) {
    token in b.pending || token in b.mail
  }

  predicate Settled(p: Phase) {
    p.Finished? || p.Unguarded? || p.Uncancelled? || p.Reported?
  }

  /** A task never finds its channel dropped, and a completion it took was its own token's first. */
  predicate EndingOk(s: State, task: Task, why: Ending) {
    && !why.ChannelDropped?
    && (why.TimedOut? ==> task.job.timeoutMs > 0)
    && (why.Completed? ==>
          task.own == Some(why.token) && why.token in s.first && s.first[why.token] == why.outcome)
  }

  /** No two tasks have one token. */
  predicate TokensDistinct(s: State) {
    forall t, u :: 0 <= t < |s.tasks| && 0 <= u < |s.tasks| && t != u && s.tasks[t].own.Some? ==>
      s.tasks[t].own != s.tasks[u].own
  }

  predicate TasksOk(s: State) {
    && BookOk(s) && TokensDistinct(s)
    && (forall t :: t in s.guards ==> t < |s.tasks|)
    && (forall t :: 0 <= t < |s.tasks| ==> TaskOk(s, t))
  }

  /** What a step that is no completion does to the registry. */
  lemma NextBook(s: State, e: Event)
    requires Next(s, e).Some? && !e.Complete?
    ensures var v := Next(s, e).value;
            && v.first == s.first
            && (|| v.book == s.book || v.book == Registering(s.book)
                || (v.book.next == s.book.next && v.book.mail == s.book.mail && v.book.pending <= s.book.pending))
  {
  }

  lemma NextKeepsBook(s: State, e: Event)
    requires BookOk(s) && Next(s, e).Some?
    ensures BookOk(Next(s, e).value)
  {
    if !e.Complete? {
      NextBook(s, e);
    }
  }

  lemma NextKeepsTokens(s: State, e: Event)
    requires TasksOk(s) && Next(s, e).Some?
    ensures TokensDistinct(Next(s, e).value)
  {
    var v := Next(s, e).value;
    forall t, u | 0 <= t < |v.tasks| && 0 <= u < |v.tasks| && t != u && v.tasks[t].own.Some?
      ensures v.tasks[t].own != v.tasks[u].own
    {
      assert t < |s.tasks| ==> TaskOk(s, t);
      assert u < |s.tasks| ==> TaskOk(s, u);
    }
  }

  /** A task, while a job arrives, a completion comes in or a cancel is signalled. */
  lemma EnvironmentKeepsTask(s: State, e: Event, t: Tid)
    requires TasksOk(s) && (e.Receive? || e.Complete? || e.Signal?) && t < |s.tasks|
    ensures TaskOk(Next(s, e).value, t)
  {
    assert TaskOk(s, t);
  }

  /** A task, while another one steps. */
  lemma OthersKeepTask(s: State, e: Event, t: Tid)
    requires TasksOk(s) && Next(s, e).Some? && !e.Receive? && !e.Complete? && !e.Signal?
    requires t < |s.tasks| && e.t != t
    ensures TaskOk(Next(s, e).value, t)
  {
    assert TaskOk(s, t) && TaskOk(s, e.t);
  }

  lemma StepKeepsTask(s: State, e: Event)
    requires TasksOk(s) && Next(s, e).Some? && !e.Receive? && !e.Complete? && !e.Signal?
    ensures e.t < |Next(s, e).value.tasks| && TaskOk(Next(s, e).value, e.t)
  {
    assert TaskOk(s, e.t);
  }

  lemma NextKeepsTasks(s: State, e: Event)
    requires TasksOk(s) && Next(s, e).Some?
    ensures TasksOk(Next(s, e).value)
  {
    var v := Next(s, e).value;
    NextKeepsBook(s, e);
    NextKeepsTokens(s, e);
    forall t | 0 <= t < |v.tasks| ensures TaskOk(v, t) {
      if t == |s.tasks| {
        assert e.Receive?;
      } else if e.Receive? || e.Complete? || e.Signal? {
        EnvironmentKeepsTask(s, e, t);
      } else if e.t != t {
        OthersKeepTask(s, e, t);
      } else {
        StepKeepsTask(s, e);
      }
    }
  }

  /** One report per task that has reported, none for any other, and each says how its task ended. */
  predicate ReportsOk(s: State) {
    && (forall i :: 0 <= i < |s.reports| ==> ReportOk(s, s.reports[i]))
    && (forall i, j :: 0 <= i < j < |s.reports| ==> s.reports[i].task != s.reports[j].task)
    && (forall t :: 0 <= t < |s.tasks| && s.tasks[t].phase.Reported? ==> HasReport(s, t))
  }

  predicate ReportOk(s: State, r: Report) {
    && r.task < |s.tasks| && s.tasks[r.task].phase.Reported? && r.task !in s.guards
    && r.result == ResultOf(s.tasks[r.task].job.id, r.why)
    && EndingOk(s, s.tasks[r.task], r.why)
  }

  predicate HasReport(s: State, t: Tid) {
    exists i :: 0 <= i < |s.reports| && s.reports[i].task == t
  }

  lemma NextKeepsReport(s: State, e: Event, r: Report)
    requires TasksOk(s) && Next(s, e).Some? && ReportOk(s, r)
    ensures ReportOk(Next(s, e).value, r)
  {
    assert TaskOk(s, r.task);
  }

  /** A step adds a report exactly when its task becomes reported, and takes none back. */
  lemma NextShape(s: State, e: Event)
    requires Next(s, e).Some?
    ensures var v := Next(s, e).value;
            if e.Send?
            then && e.t < |s.tasks| && !s.tasks[e.t].phase.Reported? && |v.reports| == |s.reports| + 1
                 && v.reports[..|s.reports|] == s.reports && v.reports[|s.reports|].task == e.t
            else v.reports == s.reports
    ensures var v := Next(s, e).value;
            && |s.tasks| <= |v.tasks|
            && forall t :: 0 <= t < |v.tasks| ==>
                 (v.tasks[t].phase.Reported? <==>
                    (t < |s.tasks| && s.tasks[t].phase.Reported?) || (e.Send? && t == e.t))
  {
  }

  lemma NewReport(s: State, t: Tid)
    requires TasksOk(s) && Next(s, Send(t)).Some?
    ensures var v := Next(s, Send(t)).value; |v.reports| > 0 && ReportOk(v, v.reports[|v.reports| - 1])
  {
    assert TaskOk(s, t);
  }

  lemma NextReports(s: State, e: Event)
    requires TasksOk(s) && ReportsOk(s) && Next(s, e).Some?
    ensures ReportsOk(Next(s, e).value)
  {
    var v := Next(s, e).value;
    NextShape(s, e);
    assert forall i :: 0 <= i < |s.reports| ==> v.reports[i] == v.reports[..|s.reports|][i];
    forall i | 0 <= i < |v.reports| ensures ReportOk(v, v.reports[i]) {
      if i < |s.reports| {
        NextKeepsReport(s, e, s.reports[i]);
      } else {
        NewReport(s, e.t);
      }
    }
    forall t | 0 <= t < |v.tasks| && v.tasks[t].phase.Reported? ensures HasReport(v, t) {
      if e.Send? && t == e.t {
        assert v.reports[|s.reports|].task == t;
      } else {
        assert HasReport(s, t);
        var i :| 0 <= i < |s.reports| && s.reports[i].task == t;
        assert v.reports[i].task == t;
      }
    }
  }

  /**
   In every run: a task has one report once it has reported and none before; the
   report says how that ended, never that its channel was dropped; a completion
   it reports is the first its token received; and its guard is gone.
  */
  lemma {:induction false} ExactlyOneReport(run: seq<Event>)
    requires Exec(run).Some?
    ensures TasksOk(Exec(run).value) && ReportsOk(Exec(run).value)
    decreases |run|
  {
    if run != [] {
      ExactlyOneReport(run[..|run| - 1]);
      NextKeepsTasks(Exec(run[..|run| - 1]).value, run[|run| - 1]);
      NextReports(Exec(run[..|run| - 1]).value, run[|run| - 1]);
    }
  }

  /**
   In every run, what a report says is what its job's first completion was: its bytes,
   its deadline, its refusal to be retried. A cancellation was reported as one or was a
   failure; a timeout needs a limit; and a job that was never completed has failed and
   may be retried.
  */
  lemma ReportTellsFirstCompletion(run: seq<Event>, i: nat)
    requires Exec(run).Some? && i < |Exec(run).value.reports|
    ensures var s := Exec(run).value;
            var r := s.reports[i].result;
            && s.reports[i].task < |s.tasks|
            && var task := s.tasks[s.reports[i].task];
               && task.own.Some? && r.id == task.job.id
               && var first := if task.own.value in s.first then Some(s.first[task.own.value]) else None;
                  && (r.Succeeded? ==> first == Some(Success(r.result)))
                  && (r.FellAsleep? ==> first == Some(Slept(r.wakeAt)))
                  && (r.WasCancelled? ==> first.Some? && (first.value.Cancelled? || first.value.Failure?))
                  && (r.Failed? && r.timedOut ==> task.job.timeoutMs > 0)
                  && (r.Failed? && !r.shouldRetry ==> first == Some(Failure(r.error, false)))
                  && (first.None? ==> r.Failed? && r.shouldRetry)
  {
    ExactlyOneReport(run);
    var s := Exec(run).value;
    assert ReportOk(s, s.reports[i]) && TaskOk(s, s.reports[i].task);
  }

  /** The guard of an attempt is dropped before its report is sent. */
  lemma GuardGoneBeforeSend(run: seq<Event>, t: Tid)
    requires Exec(run).Some? && Next(Exec(run).value, Send(t)).Some?
    ensures t !in Exec(run).value.guards
  {
    ExactlyOneReport(run);
    assert TaskOk(Exec(run).value, t);
  }

  /** Once an attempt has timed out or otherwise settled, completing its token does nothing. */
  lemma LateCompletionIgnored(run: seq<Event>, t: Tid, outcome: TaskOutcome)
    requires Exec(run).Some? && t < |Exec(run).value.tasks| && Settled(Exec(run).value.tasks[t].phase)
    ensures var s := Exec(run).value;
            s.tasks[t].own.Some? && Completing(s.book, s.tasks[t].own.value, outcome) == s.book
  {
    ExactlyOneReport(run);
    assert TaskOk(Exec(run).value, t);
  }

  /** The step a task is ready to take. */
  function Ready(s: State, t: Tid): Event
    requires t < |s.tasks|
  {
    match s.tasks[t].phase
    case Spawned => Register(t)
    case Registered(_) => Enter(t)
    case Entered(_) => Submit(t, None)
    case Waiting(token) => if Polled(s, t, token).Some? then Wake(t) else Timeout(t)
    case Abandoning(_, _) => Forget(t)
    case Finished(_) => DropGuard(t)
    case Unguarded(_) => ForgetCancel(t)
    case _ => Send(t)
  }

  /** A task that has not reported can go on, unless it waits without a limit for a completion. */
  lemma OnlyWaitingBlocks(run: seq<Event>, t: Tid)
    requires Exec(run).Some? && t < |Exec(run).value.tasks| && !Exec(run).value.tasks[t].phase.Reported?
    ensures var s := Exec(run).value;
            Next(s, Ready(s, t)).Some? <==>
              !(s.tasks[t].phase.Waiting? && s.tasks[t].job.timeoutMs <= 0 && s.tasks[t].phase.token in s.book.pending)
  {
    ExactlyOneReport(run);
    assert TaskOk(Exec(run).value, t);
  }

  // ------------------------------------------------------------- every task finishes

  predicate OfTask(e: Event) {
    !e.Receive? && !e.Complete? && !e.Signal?
  }

  /** A task that waits without a limit for a completion that has not come. */
  predicate Blocked(s: State, t: Tid)
    requires t < |s.tasks|
  {
    var task := s.tasks[t];
    task.phase.Waiting? && task.job.timeoutMs <= 0 && task.phase.token in s.book.pending
  }

  predicate AllThrough(s: State) {
    forall t :: 0 <= t < |s.tasks| ==> s.tasks[t].phase.Reported? || Blocked(s, t)
  }

  /** The state after some tasks step in turn, or `None` when one of them cannot. */
  function StepAll(s: State, steps: seq<Event>): Option<State>
    decreases |steps|
  {
    if steps == [] then Some(s)
    else if !OfTask(steps[0]) || Next(s, steps[0]).None? then None
    else StepAll(Next(s, steps[0]).value, steps[1..])
  }

  function Left(p: Phase): nat {
    match p
    case Spawned => 8
    case Registered(_) => 7
    case Entered(_) => 6
    case Waiting(_) => 5
    case Abandoning(_, _) => 4
    case Finished(_) => 3
    case Unguarded(_) => 2
    case Uncancelled(_) => 1
    case Reported => 0
  }

  /** The steps the tasks have left, at most. */
  function LeftIn(tasks: seq<Task>): nat {
    if tasks == [] then 0 else LeftIn(tasks[..|tasks| - 1]) + Left(tasks[|tasks| - 1].phase)
  }

  lemma {:induction false} SumFalls(a: seq<Task>, b: seq<Task>, t: Tid)
    requires |a| == |b| && t < |a| && Left(b[t].phase) < Left(a[t].phase)
    requires forall u :: 0 <= u < |a| && u != t ==> a[u] == b[u]
    ensures LeftIn(b) < LeftIn(a)
    decreases |a|
  {
    var n := |a| - 1;
    if t == n {
      assert a[..n] == b[..n];
    } else {
      SumFalls(a[..n], b[..n], t);
    }
  }

  lemma StepLowersSum(s: State, e: Event)
    requires OfTask(e) && Next(s, e).Some?
    ensures LeftIn(Next(s, e).value.tasks) < LeftIn(s.tasks)
  {
    SumFalls(s.tasks, Next(s, e).value.tasks, e.t);
  }

  /** Only tasks that have reported or are blocked cannot step. */
  lemma ThroughIff(s: State)
    requires TasksOk(s)
    ensures AllThrough(s) <==> forall e :: OfTask(e) ==> Next(s, e).None?
  {
    if !AllThrough(s) {
      var t :| 0 <= t < |s.tasks| && !(s.tasks[t].phase.Reported? || Blocked(s, t));
      assert TaskOk(s, t);
      assert OfTask(Ready(s, t)) && Next(s, Ready(s, t)).Some?;
    }
  }

  lemma {:induction false} StepAllKeeps(s: State, steps: seq<Event>)
    requires TasksOk(s) && StepAll(s, steps).Some?
    ensures TasksOk(StepAll(s, steps).value) && |steps| + LeftIn(StepAll(s, steps).value.tasks) <= LeftIn(s.tasks)
    decreases |steps|
  {
    if steps != [] {
      NextKeepsTasks(s, steps[0]);
      StepLowersSum(s, steps[0]);
      StepAllKeeps(Next(s, steps[0]).value, steps[1..]);
    }
  }

  lemma {:induction false} FinishesFrom(s: State) returns (steps: seq<Event>)
    requires TasksOk(s)
    ensures StepAll(s, steps).Some? && AllThrough(StepAll(s, steps).value)
    decreases LeftIn(s.tasks)
  {
    ThroughIff(s);
    if AllThrough(s) {
      steps := [];
    } else {
      var e :| OfTask(e) && Next(s, e).Some?;
      NextKeepsTasks(s, e);
      StepLowersSum(s, e);
      var rest := FinishesFrom(Next(s, e).value);
      steps := [e] + rest;
      assert steps[1..] == rest;
    }
  }

  /**
   From every reachable state the tasks can be stepped until each has reported or waits
   without a limit for a completion that has not come. No schedule takes more steps than
   they have left, and one that cannot be continued has brought them all there.
  */
  lemma EveryTaskFinishes(run: seq<Event>) returns (steps: seq<Event>)
    requires Exec(run).Some?
    ensures var s := Exec(run).value;
            && StepAll(s, steps).Some? && AllThrough(StepAll(s, steps).value)
            && forall others :: StepAll(s, others).Some? ==>
                 && |others| <= LeftIn(s.tasks)
                 && var v := StepAll(s, others).value;
                    AllThrough(v) <==> forall e :: OfTask(e) ==> Next(v, e).None?
  {
    ExactlyOneReport(run);
    var s := Exec(run).value;
    steps := FinishesFrom(s);
    forall others | StepAll(s, others).Some?
      ensures |others| <= LeftIn(s.tasks)
      ensures var v := StepAll(s, others).value; AllThrough(v) <==> forall e :: OfTask(e) ==> Next(v, e).None?
    {
      StepAllKeeps(s, others);
      ThroughIff(StepAll(s, others).value);
    }
  }
}
