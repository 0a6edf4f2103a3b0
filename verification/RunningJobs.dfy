/**
 The registry of attempts an attached executor is running
 (crates/flexiq-java/src/attached_steps.rs). Two dispatches of one job can overlap,
 so an entry belongs to the guard whose token it carries.
*/
module RunningJobs {
  import opened Text
  import opened Wrappers

  /** What the registry reads of a dispatched job. */
  datatype Dispatch = Dispatch(id: Str, retryCount: int)

  datatype Registered = Registered(token: nat, job: Dispatch)

  type Entries = map<Str, Registered>

  /** The newest attempt for an id wins; an equal one counts as newer. */
  predicate Supersedes(jobs: Entries, job: Dispatch) {
    job.id in jobs ==> job.retryCount >= jobs[job.id].job.retryCount
  }

  function Entered(jobs: Entries, token: nat, job: Dispatch): Entries {
    if Supersedes(jobs, job) then jobs[job.id := Registered(token, job)] else jobs
  }

  function Dropped(jobs: Entries, id: Str, token: nat): Entries {
    if id in jobs && jobs[id].token == token then jobs - {id} else jobs
  }

  datatype Opened = Session(job: Dispatch) | ClaimLost

  /** A session is opened only against the registered attempt. */
  function OpenStepSession(jobs: Entries, id: Str, attempt: int): Opened {
    if id !in jobs then ClaimLost
    else if jobs[id].job.retryCount != attempt then ClaimLost
    else Session(jobs[id].job)
  }

  class Registry {
    var jobs: Entries
    var nextToken: nat

    constructor ()
      ensures jobs == map[] && nextToken == 0
    {
      jobs, nextToken := map[], 0;
    }

    /** Returns the token of the guard for this attempt. */
    method Enter(job: Dispatch) returns (token: nat)
      modifies this
      ensures token == old(nextToken) && nextToken == old(nextToken) + 1
      ensures jobs == Entered(old(jobs), token, job)
    {
      token := nextToken;
      nextToken := nextToken + 1;
      var supersedes := if job.id in jobs then job.retryCount >= jobs[job.id].job.retryCount else true;
      if supersedes {
        jobs := jobs[job.id := Registered(token, job)];
      }
    }

    method DropGuard(id: Str, token: nat)
      modifies `jobs
      ensures jobs == Dropped(old(jobs), id, token)
    {
      if id in jobs && jobs[id].token == token {
        jobs := jobs - {id};
      }
    }
  }

  // ------------------------------------------------------------ overlapping attempts

  /** `arriving` attempts hold a token and have not reached the map; `guards` are alive. */
  datatype State = State(jobs: Entries, next: nat, arriving: map<nat, Dispatch>, guards: map<nat, Dispatch>)

  datatype Event = TakeToken(job: Dispatch) | Register(token: nat) | Drop(token: nat)

  const EMPTY := State(map[], 0, map[], map[])

  function Next(s: State, e: Event): Option<State> {
    match e
    case TakeToken(job) => Some(s.(next := s.next + 1, arriving := s.arriving[s.next := job]))
    case Register(token) =>
      if token !in s.arriving then None
      else Some(s.(jobs := Entered(s.jobs, token, s.arriving[token]),
                   arriving := s.arriving - {token},
                   guards := s.guards[token := s.arriving[token]]))
    case Drop(token) =>
      if token !in s.guards then None
      else Some(s.(jobs := Dropped(s.jobs, s.guards[token].id, token), guards := s.guards - {token}))
  }

  function Exec(s: State, run: seq<Event>): Option<State> {
    if run == [] then Some(s)
    else
      match Exec(s, run[..|run| - 1])
      case None => None
      case Some(t) => Next(t, run[|run| - 1])
  }

  /** Every entry is a live guard's own, and tokens are handed out once. */
  predicate Inv(s: State) {
    && (forall id :: id in s.jobs ==> Owned(s, id))
    && (forall t :: t in s.arriving ==> t < s.next && t !in s.guards)
    && (forall t :: t in s.guards ==> t < s.next)
  }

  predicate Owned(s: State, id: Str)
    requires id in s.jobs
  {
    && s.jobs[id].job.id == id
    && s.jobs[id].token in s.guards && s.guards[s.jobs[id].token] == s.jobs[id].job
  }

  lemma NextKeepsInv(s: State, e: Event)
    requires Inv(s) && Next(s, e).Some?
    ensures Inv(Next(s, e).value)
  {
    var t := Next(s, e).value;
    forall id | id in t.jobs ensures Owned(t, id) {
      assert id in s.jobs ==> Owned(s, id);
    }
  }

  lemma {:induction false} ExecInv(s: State, run: seq<Event>)
    requires Inv(s) && Exec(s, run).Some?
    ensures Inv(Exec(s, run).value)
    decreases |run|
  {
    if run != [] {
      ExecInv(s, run[..|run| - 1]);
      NextKeepsInv(Exec(s, run[..|run| - 1]).value, run[|run| - 1]);
    }
  }

  /** In every interleaving, an id with no live guard has no entry, so its session is refused. */
  lemma NoGuardNoEntry(run: seq<Event>, id: Str, attempt: int)
    requires Exec(EMPTY, run).Some?
    requires forall t :: t in Exec(EMPTY, run).value.guards ==> Exec(EMPTY, run).value.guards[t].id != id
    ensures id !in Exec(EMPTY, run).value.jobs
    ensures OpenStepSession(Exec(EMPTY, run).value.jobs, id, attempt) == ClaimLost
  {
    ExecInv(EMPTY, run);
    var s := Exec(EMPTY, run).value;
    assert id in s.jobs ==> Owned(s, id);
  }

  /** Whoever gets a session is an attempt whose guard is alive. */
  lemma SessionHasGuard(run: seq<Event>, id: Str, attempt: int)
    requires Exec(EMPTY, run).Some? && OpenStepSession(Exec(EMPTY, run).value.jobs, id, attempt).Session?
    ensures exists t :: t in Exec(EMPTY, run).value.guards
                        && Exec(EMPTY, run).value.guards[t] == Dispatch(id, attempt)
  {
    ExecInv(EMPTY, run);
    assert Owned(Exec(EMPTY, run).value, id);
  }

  // ---------------------------------------------------- who keeps the entry, and when

  /** Token `t` is not dropped in the run, and what is registered meanwhile for its id is older. */
  predicate Undisturbed(s: State, run: seq<Event>, t: nat, job: Dispatch)
    decreases |run|
  {
    run == [] ||
    (&& Undisturbed(s, run[..|run| - 1], t, job)
     && run[|run| - 1] != Drop(t)
     && match Exec(s, run[..|run| - 1])
        case None => true
        case Some(u) => !Displaces(u, run[|run| - 1], job))
  }

  /** The event registers an attempt of the same job that is at least as new. */
  predicate Displaces(s: State, e: Event, job: Dispatch) {
    && e.Register? && e.token in s.arriving
    && s.arriving[e.token].id == job.id && s.arriving[e.token].retryCount >= job.retryCount
  }

  predicate Holds(s: State, t: nat, job: Dispatch) {
    job.id in s.jobs && s.jobs[job.id] == Registered(t, job)
  }

  lemma {:induction false} Keeps(s: State, run: seq<Event>, t: nat, job: Dispatch)
    requires Inv(s) && Holds(s, t, job) && Exec(s, run).Some? && Undisturbed(s, run, t, job)
    ensures Holds(Exec(s, run).value, t, job)
    decreases |run|
  {
    if run != [] {
      var u := Exec(s, run[..|run| - 1]).value;
      Keeps(s, run[..|run| - 1], t, job);
      ExecInv(s, run[..|run| - 1]);
      assert Owned(u, job.id);
    }
  }

  /** While its guard lives, an entry is kept exactly as long as nothing as new is registered for its id. */
  lemma {:induction false} KeepsIff(s: State, run: seq<Event>, t: nat, job: Dispatch)
    requires Inv(s) && Holds(s, t, job) && Exec(s, run).Some?
    ensures Holds(Exec(s, run).value, t, job) <==> Undisturbed(s, run, t, job)
    decreases |run|
  {
    if Undisturbed(s, run, t, job) {
      Keeps(s, run, t, job);
    } else {
      var front, last := run[..|run| - 1], run[|run| - 1];
      var u := Exec(s, front).value;
      KeepsIff(s, front, t, job);
      ExecInv(s, front);
      assert Owned(s, job.id);
      HeldOrArrived(s, front, t);
    }
  }

  /** A token that has a guard never arrives again. */
  lemma {:induction false} HeldOrArrived(s: State, run: seq<Event>, t: nat)
    requires Inv(s) && t in s.guards && Exec(s, run).Some?
    ensures t !in Exec(s, run).value.arriving && t < Exec(s, run).value.next
    decreases |run|
  {
    if run != [] {
      HeldOrArrived(s, run[..|run| - 1], t);
    }
  }

  /**
   A registration at least as new as the entry it found, in any run, keeps its
   entry exactly until its own guard drops or an attempt as new is registered.
  */
  lemma NewestKeepsEntry(before: seq<Event>, t: nat, after: seq<Event>)
    requires Exec(EMPTY, before).Some? && t in Exec(EMPTY, before).value.arriving
    requires Supersedes(Exec(EMPTY, before).value.jobs, Exec(EMPTY, before).value.arriving[t])
    requires Exec(Next(Exec(EMPTY, before).value, Register(t)).value, after).Some?
    ensures var job := Exec(EMPTY, before).value.arriving[t];
            var s := Next(Exec(EMPTY, before).value, Register(t)).value;
            Holds(Exec(s, after).value, t, job) <==> Undisturbed(s, after, t, job)
  {
    var u := Exec(EMPTY, before).value;
    ExecInv(EMPTY, before);
    NextKeepsInv(u, Register(t));
    KeepsIff(Next(u, Register(t)).value, after, t, u.arriving[t]);
  }
}
