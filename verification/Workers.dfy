/** The job loop as a worker of the teardown model: the lease calls that a job makes are one run of
    such a worker. */
module Workers {
  import opened Basics
  import opened PoolStates
  import opened PoolRuns
  import T = Teardown
  import opened JobTraces

  /** How one lease call changes what a worker holds; None if a worker may not make it. */
  function Made(w: T.Job, c: Call): Option<T.Job> {
    match c
    case Acquires(t) => if w.phase.Idle? then Some(T.Job(T.Holding, Some(t))) else None
    case Registers(t) => if w == T.Job(T.Holding, Some(t)) then Some(w) else None
    case Quarantines(_) => if w.phase.Holding? then Some(w) else None
    case Releases(t) => if w == T.Job(T.Holding, Some(t)) then Some(w.(phase := T.Idle)) else None
  }

  function MadeAll(w: T.Job, calls: seq<Call>): Option<T.Job> {
    if calls == [] then Some(w)
    else
      match MadeAll(w, calls[..|calls| - 1])
      case None => None
      case Some(v) => Made(v, calls[|calls| - 1])
  }

  /** The event that the call c of the worker k is, in a state where the pool has this to grant. */
  ghost predicate Matches(s: T.System, k: T.Key, c: Call, e: T.Event)
    requires s.pool.Valid()
  {
    match c
    case Acquires(t) =>
      && e.JobAcquires? && e.key == k
      && var grant := Acquired(s.pool, T.AttemptId(k), e.exclude, e.now).1;
      grant.Granted? && grant.lease.token == t
    case Registers(_) => e.JobRegisters? && e.key == k
    case Quarantines(h) => e == T.JobQuarantines(k, h)
    case Releases(_) => e == T.JobReleases(k)
  }

  /** The operation that the call is for the pool. */
  function OpFor(k: T.Key, c: Call, e: T.Event): Op
    requires c.Acquires? ==> e.JobAcquires?
    requires c.Registers? ==> e.JobRegisters?
  {
    match c
    case Acquires(_) => Acquire(T.AttemptId(k), e.exclude, e.now)
    case Registers(t) => RegisterPid(t, e.path)
    case Quarantines(h) => Quarantine(h)
    case Releases(t) => Release(t)
  }

  /** A call that the worker may make is an enabled event; it does to the pool what the call does, and
      leaves the worker as the call does. */
  lemma CallIsEvent(s: T.System, k: T.Key, c: Call, e: T.Event)
    requires s.pool.Valid() && s.alive && k in s.jobs && Matches(s, k, c, e) && Made(s.jobs[k], c).Some?
    ensures T.Enabled(s, e)
    ensures T.Next(s, e).jobs == s.jobs[k := Made(s.jobs[k], c).value]
    ensures T.Next(s, e).pool == Step(s.pool, OpFor(k, c, e))
  {
  }

  /** An event of another worker, of the sweeper or of teardown leaves the worker as it is. */
  lemma OthersLeaveWorker(s: T.System, k: T.Key, e: T.Event)
    requires s.pool.Valid() && T.Enabled(s, e) && k in s.jobs
    requires e.JobAcquires? || e.JobReleases? || e.JobEnds? ==> e.key != k
    ensures k in T.Next(s, e).jobs && T.Next(s, e).jobs[k] == s.jobs[k]
  {
  }

  /** The state of a worker that made these calls is where their bracket stands. */
  lemma {:induction false} BracketIsWorker(w: T.Job, calls: seq<Call>)
    requires w.phase.Idle?
    ensures match BracketOf(calls)
            case Idle => MadeAll(w, calls).Some? && MadeAll(w, calls).value.phase.Idle?
            case Holding(t) => MadeAll(w, calls) == Some(T.Job(T.Holding, Some(t)))
            case Broken => MadeAll(w, calls).None?
  {
    if calls != [] { BracketIsWorker(w, calls[..|calls| - 1]); }
  }

  /** The lease calls of a whole job are one run of an idle worker, every call in a state where the
      worker may make it, and leave the worker idle. */
  lemma {:induction false} JobIsWorker(j: Job, trace: seq<Record>, w: T.Job, n: nat)
    requires w.phase.Idle? && n < |AllCalls(j, trace)|
    ensures MadeAll(w, AllCalls(j, trace)).Some? && MadeAll(w, AllCalls(j, trace)).value.phase.Idle?
    ensures var before := MadeAll(w, AllCalls(j, trace)[..n]);
            before.Some? && Made(before.value, AllCalls(j, trace)[n]).Some?
  {
    CallsBalanced(j, trace);
    BracketIsWorker(w, AllCalls(j, trace));
    EarlierMade(w, AllCalls(j, trace), n + 1);
    assert AllCalls(j, trace)[..n + 1][..n] == AllCalls(j, trace)[..n];
  }

  lemma {:induction false} EarlierMade(w: T.Job, calls: seq<Call>, n: nat)
    requires MadeAll(w, calls).Some? && n <= |calls|
    ensures MadeAll(w, calls[..n]).Some?
    decreases |calls|
  {
    if n < |calls| {
      EarlierMade(w, calls[..|calls| - 1], n);
      assert calls[..|calls| - 1][..n] == calls[..n];
    } else {
      assert calls[..n] == calls;
    }
  }
}
