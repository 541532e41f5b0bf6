/** The retry loop of one job, run against the lease pool while other clients use the pool too. */
module Jobs {
  import opened Basics
  import opened PoolStates
  import opened PoolRuns
  import opened LeasePools
  import opened Remotes
  import opened Attempts
  import opened JobTraces

  /** Look for a slot, again after each wait, until there is one or no host is live.  A waiting
      acquisition has looked in vain at every turn. */
  method AcquireLease(pool: LeasePool, attemptId: string, tried: set<Host>, e: Surroundings)
    returns (a: Acquisition, ghost waits: nat)
    requires pool.Valid() && attemptId != "" && Possible(e)
    modifies pool
    ensures pool.Valid() && Searched(old(pool.State()), attemptId, tried, e, waits, a, pool.State())
    ensures a.Waiting? ==> waits == |e.waits|
  {
    ghost var p := pool.State();
    a := LookFirst(pool, attemptId, tried, e);
    waits := 0;
    var left := e.waits;
    while a.Waiting? && left != []
      invariant pool.Valid() && waits <= |e.waits| && left == e.waits[waits..]
      invariant Searched(p, attemptId, tried, e, waits, a, pool.State())
      decreases |left|
    {
      a := LookAgain(pool, attemptId, tried, e, p, waits, a, left[0]);
      waits, left := waits + 1, left[1..];
    }
  }

  /** Look for a slot when the call arrives. */
  method LookFirst(pool: LeasePool, attemptId: string, tried: set<Host>, e: Surroundings) returns (a: Acquisition)
    requires pool.Valid() && attemptId != "" && Possible(e)
    modifies pool
    ensures pool.Valid() && Searched(old(pool.State()), attemptId, tried, e, 0, a, pool.State())
  {
    ghost var p := pool.State();
    pool.ServeAll(e.arriving);
    a := Look(pool, attemptId, tried, e, p, 0);
  }

  /** One look for a slot. */
  method Look(pool: LeasePool, attemptId: string, tried: set<Host>, e: Surroundings, ghost p: Pool, ghost i: nat)
    returns (a: Acquisition)
    requires pool.Valid() && p.Valid() && attemptId != "" && Possible(e) && i <= |e.waits|
    requires ProperRun(Arriving(attemptId, tried, e, i)) && pool.State() == After(p, Arriving(attemptId, tried, e, i))
    requires InVain(p, attemptId, tried, e, i)
    modifies pool
    ensures pool.Valid() && Searched(p, attemptId, tried, e, i, a, pool.State())
  {
    LookedIsStep(p, attemptId, tried, e, i);
    AcquiredChoice(pool.State(), attemptId, tried, e.now);
    var grant := pool.Acquire(attemptId, tried, e.now);
    if grant.Granted? { return Leased(grant.lease); }
    var count := pool.HealthyHostCount();
    a := if count == 0 then NoHosts else Waiting;
  }

  /** After looking in vain, wait while the pool serves other clients, and look again. */
  method LookAgain(pool: LeasePool, attemptId: string, tried: set<Host>, e: Surroundings, ghost p: Pool, ghost i: nat,
                   ghost before: Acquisition, wait: seq<Op>)
    returns (a: Acquisition)
    requires pool.Valid() && p.Valid() && attemptId != "" && Possible(e) && i < |e.waits| && wait == e.waits[i]
    requires before.Waiting? && Searched(p, attemptId, tried, e, i, before, pool.State())
    modifies pool
    ensures pool.Valid() && Searched(p, attemptId, tried, e, i + 1, a, pool.State())
  {
    pool.ServeAll(wait);
    AfterConcat(p, Looked(attemptId, tried, e, i), wait);
    InVainAgain(p, attemptId, tried, e, i);
    a := Look(pool, attemptId, tried, e, p, i + 1);
  }

  /** The body of the try block: register the pid path, then run the attempt. */
  method TryAttempt(pool: LeasePool, remote: Remote, lease: Lease, n: nat, e: Surroundings, pidPath: string,
                    timeout: Option<Time>)
    returns (outcome: AttemptOutcome, fate: Fate, run: Option<RunOutcome>, published: bool, calls: seq<Call>,
             ghost sent: seq<Issued>)
    requires pool.Valid() && remote.Valid() && Possible(e) && HeldOrGone(pool.State(), lease)
    modifies pool, remote
    ensures pool.Valid() && HeldOrGone(pool.State(), lease)
    ensures ProperRun(Trying(lease, e, pidPath)) && pool.State() == After(old(pool.State()), Trying(lease, e, pidPath))
    ensures remote.Valid() && remote.issued == old(remote.issued) + sent
    ensures calls == Registering(lease, e)
    ensures run.None? <==> Prevented(e).Some?
    ensures run.None? ==> outcome == Raises(Prevented(e).value) && fate == NeverStarted && sent == [] && !published
    ensures run.Some? ==>
              && outcome == Concluded(e.script, run.value, n, lease.host, timeout)
              && published == Publishes(e.script, run.value)
              && exists cleaned :: Supervised(e.script.run, timeout, sent, pidPath, cleaned, run.value, fate)
  {
    fate, run, published, calls, sent := NeverStarted, None, false, [], [];
    if e.lookup.Some? { outcome := Raises(e.lookup.value); return; }
    if e.register.Some? { outcome := Raises(e.register.value); return; }
    ghost var before := pool.State();
    RegisterPath(pool, lease, e, pidPath);
    ghost var registered := e.registering + [RegisterPid(lease.token, pidPath)];
    calls := [Registers(lease.token)];
    if e.connect.Some? {
      assert Trying(lease, e, pidPath) == registered;
      outcome := Raises(e.connect.value);
      return;
    }
    pool.ServeAll(e.running);
    AfterConcat(before, registered, e.running);
    NeverReissued(before, registered + e.running, lease);
    outcome, fate, run, published, sent := ExecuteAttempt(remote, pidPath, e.script, n, lease.host, timeout);
  }

  method RegisterPath(pool: LeasePool, lease: Lease, e: Surroundings, pidPath: string)
    requires pool.Valid() && Possible(e) && HeldOrGone(pool.State(), lease)
    modifies pool
    ensures pool.Valid() && HeldOrGone(pool.State(), lease)
    ensures var ops := e.registering + [RegisterPid(lease.token, pidPath)];
            ProperRun(ops) && pool.State() == After(old(pool.State()), ops)
  {
    pool.ServeAll(e.registering);
    pool.RegisterPid(lease.token, pidPath);
    AfterThen(old(pool.State()), e.registering, RegisterPid(lease.token, pidPath));
    NeverReissued(old(pool.State()), e.registering + [RegisterPid(lease.token, pidPath)], lease);
  }

  /** Quarantine the host if asked to, and release the lease, which is gone then in either case; the
      slot is freed exactly if the lease was still held, which it is not after a quarantine. */
  method LetGo(pool: LeasePool, lease: Lease, quarantine: bool, e: Surroundings)
    returns (freed: bool, calls: seq<Call>)
    requires pool.Valid() && Possible(e) && HeldOrGone(pool.State(), lease)
    modifies pool
    ensures pool.Valid() && HeldOrGone(pool.State(), lease) && lease.token !in pool.State().leases
    ensures ProperRun(Parting(lease, quarantine, e))
    ensures var p := After(old(pool.State()), Parting(lease, quarantine, e));
            pool.State() == Released(p, lease.token) && (freed <==> lease.token in p.leases)
    ensures quarantine ==> !freed
    ensures calls == LettingGo(lease, quarantine)
  {
    ghost var start := pool.State();
    ghost var ops: seq<Op> := [];
    if quarantine {
      pool.ServeAll(e.quarantining);
      pool.Quarantine(lease.host);
      ops := e.quarantining + [Quarantine(lease.host)];
      AfterThen(start, e.quarantining, Quarantine(lease.host));
      NeverReissued(start, e.quarantining, lease);
      StaysHeldOrGone(After(start, e.quarantining), Quarantine(lease.host), lease);
    }
    ghost var before := pool.State();
    pool.ServeAll(e.releasing);
    NeverReissued(before, e.releasing, lease);
    AfterConcat(start, ops, e.releasing);
    freed := pool.Release(lease.token);
    calls := LettingGo(lease, quarantine);
  }

  /** One attempt under the lease that the acquisition found. */
  method UnderLease(pool: LeasePool, remote: Remote, j: Job, n: nat, lease: Lease, tried: set<Host>,
                    ghost start: Pool, ghost waits: nat)
    returns (h: Handling, calls: seq<Call>, ghost r: Record)
    requires pool.Valid() && remote.Valid() && j.attemptId != "" && Possible(j.around(n)) && start.Valid()
    requires Searched(start, j.attemptId, tried, j.around(n), waits, Leased(lease), pool.State())
    modifies pool, remote
    ensures pool.Valid() && HeldOrGone(pool.State(), lease) && lease.token !in pool.State().leases
    ensures remote.Valid() && remote.issued == old(remote.issued) + r.sent
    ensures r.lease == lease && r.tried == tried && r.start == start && r.waits == waits && r.handling == h
    ensures Went(j, r, n) && [Acquires(lease.token)] + calls == CallsOf(j, r)
    ensures ProperRun(OpsOf(j, r)) && pool.State() == After(start, OpsOf(j, r))
  {
    var e := j.around(n);
    ghost var looked := pool.State();
    FoundIsHeld(start, j.attemptId, tried, e, waits, lease);
    var outcome, fate, run, published; ghost var sent;
    outcome, fate, run, published, calls, sent := TryAttempt(pool, remote, lease, n, e, j.pidPath(n), j.timeout);
    ghost var attempted := pool.State();
    h := Handled(outcome, n, lease.host, e.unrecorded);
    var freed, more := LetGo(pool, lease, h.quarantine, e);
    r := Record(n, lease, tried, start, waits, run, fate, sent, published, h, freed);
    RunsTogether(j, r, looked, attempted, After(attempted, Parting(lease, h.quarantine, e)));
    WentHolds(j, r, n, outcome);
    calls := calls + more;
  }

  /** Acquire a lease, and run one attempt under it if there is one. */
  method NextAttempt(pool: LeasePool, remote: Remote, j: Job, tried: set<Host>, n: nat)
    returns (a: Acquisition, h: Handling, calls: seq<Call>, ghost r: Record, ghost waits: nat)
    requires pool.Valid() && remote.Valid() && Runnable(j)
    modifies pool, remote
    ensures pool.Valid() && remote.Valid()
    ensures a.Leased? ==>
              && r.lease == a.lease && r.tried == tried && r.start == old(pool.State()) && r.handling == h
              && Went(j, r, n) && calls == CallsOf(j, r)
              && ProperRun(OpsOf(j, r)) && pool.State() == After(old(pool.State()), OpsOf(j, r))
              && HeldOrGone(pool.State(), a.lease) && a.lease.token !in pool.State().leases
              && remote.issued == old(remote.issued) + r.sent
    ensures !a.Leased? ==>
              && calls == [] && remote.issued == old(remote.issued)
              && TurnedAway(j, old(pool.State()), tried, n, waits, a, pool.State())
  {
    assert Possible(j.around(n));
    ghost var start := pool.State();
    a, waits := AcquireLease(pool, j.attemptId, tried, j.around(n));
    calls, h := [], Handling(false, None, None);
    if a.Leased? {
      h, calls, r := UnderLease(pool, remote, j, n, a.lease, tried, start, waits);
      calls := [Acquires(a.lease.token)] + calls;
    } else {
      r := *;
    }
  }

  /** Run one job to its end, retrying as the policy says; each attempt has a connection of its own.
      There is a trace of attempts that tells everything: how the job ended, which lease calls it
      made, how the pool came from its first state to its last, and what each connection carried. */
  method RunJob(pool: LeasePool, remotes: seq<Remote>, j: Job) returns (out: JobOutcome, calls: seq<Call>)
    requires pool.Valid() && Runnable(j)
    requires |remotes| >= j.policy.maxAttempts && Apart(remotes) && Sent(remotes, [])
    modifies pool, remotes
    ensures pool.Valid() && Told(j, old(pool.State()), out, calls, pool.State(), remotes)
  {
    calls := [];
    var attempts: seq<AttemptResult> := [];
    var tried: set<Host> := {};
    ghost var start := pool.State();
    NothingYet(j, start, remotes);
    while true
      invariant pool.Valid() && |attempts| < j.policy.maxAttempts
      invariant OnTheWay(j, start, attempts, tried, calls, pool.State(), remotes)
      decreases j.policy.maxAttempts - |attempts|
    {
      var ended;
      ended, attempts, tried, calls := Turn(pool, remotes, j, attempts, tried, calls, start);
      if ended.Some? { return ended.value, calls; }
    }
  }

  /** One turn of the loop: one more attempt, and either the end of the job or the attempts, the
      hosts tried and the calls for the next turn. */
  method Turn(pool: LeasePool, remotes: seq<Remote>, j: Job, attempts: seq<AttemptResult>, tried: set<Host>,
              calls: seq<Call>, ghost start: Pool)
    returns (ended: Option<JobOutcome>, longer: seq<AttemptResult>, triedNow: set<Host>, callsNow: seq<Call>)
    requires pool.Valid() && Runnable(j) && |attempts| < j.policy.maxAttempts <= |remotes| && Apart(remotes)
    requires start.Valid() && OnTheWay(j, start, attempts, tried, calls, pool.State(), remotes)
    modifies pool, remotes[|attempts|]
    ensures pool.Valid()
    ensures ended.Some? ==> Told(j, start, ended.value, callsNow, pool.State(), remotes)
    ensures ended.None? ==>
              && |attempts| < |longer| < j.policy.maxAttempts
              && OnTheWay(j, start, longer, triedNow, callsNow, pool.State(), remotes)
  {
    var a, h, more := FurtherAttempt(pool, remotes, j, attempts, tried, calls, start);
    callsNow := calls + more;
    ended, longer, triedNow := Decide(j, attempts, tried, a, h);
  }

  /** What run_job makes of the acquisition a and the handling h of the attempt after it. */
  method Decide(j: Job, attempts: seq<AttemptResult>, tried: set<Host>, a: Acquisition, h: Handling)
    returns (ended: Option<JobOutcome>, longer: seq<AttemptResult>, triedNow: set<Host>)
    requires a.Leased? ==> (h.raised.None? <==> h.result.Some?)
    ensures ended == Ending(j, attempts, a, h)
    ensures ended.None? ==>
              a.Leased? && h.result.Some? && longer == attempts + [h.result.value] && triedNow == tried + {a.lease.host}
  {
    longer, triedNow := attempts, tried;
    if a.Waiting? { return Some(StillWaiting), longer, triedNow; }
    if a.NoHosts? {
      if attempts == [] { return Some(JobRaised(Exc(Dispatcher, NO_HOSTS))), longer, triedNow; }
      return Some(Finished(OutOfHosts(attempts, j.outputs))), longer, triedNow;
    }
    if h.raised.Some? { return Some(JobRaised(h.raised.value)), longer, triedNow; }
    var result := h.result.value;
    longer, triedNow := attempts + [result], tried + {a.lease.host};
    if result.status == Succeeded || !ShouldRetry(j.policy, result.failure, |longer|) {
      return Some(Finished(Assembled(longer, j.outputs))), longer, triedNow;
    }
    return None, longer, triedNow;
  }

  /** The next attempt, after which the job has ended or is under way again. */
  method FurtherAttempt(pool: LeasePool, remotes: seq<Remote>, j: Job, attempts: seq<AttemptResult>, tried: set<Host>,
                        ghost calls: seq<Call>, ghost start: Pool)
    returns (a: Acquisition, h: Handling, more: seq<Call>)
    requires pool.Valid() && Runnable(j) && |attempts| < j.policy.maxAttempts <= |remotes| && Apart(remotes)
    requires start.Valid() && OnTheWay(j, start, attempts, tried, calls, pool.State(), remotes)
    modifies pool, remotes[|attempts|]
    ensures pool.Valid() && (a.Leased? ==> (h.raised.None? <==> h.result.Some?))
    ensures var ending := Ending(j, attempts, a, h);
            if ending.Some?
            then Told(j, start, ending.value, calls + more, pool.State(), remotes)
            else a.Leased? && h.result.Some? && |attempts| + 1 < j.policy.maxAttempts
                 && OnTheWay(j, start, attempts + [h.result.value], tried + {a.lease.host}, calls + more,
                             pool.State(), remotes)
  {
    ghost var trace :| Underway(j, start, attempts, tried, calls, trace, pool.State()) && Sent(remotes, trace);
    ghost var p, r, waits := pool.State(), *, *;
    a, h, more, r, waits := ConnectedAttempt(pool, remotes, j, tried, |attempts|, trace);
    if a.Leased? {
      Advance(j, start, attempts, tried, calls, trace, p, r, pool.State(), remotes);
    } else {
      Stops(j, start, attempts, tried, calls, more, trace, p, waits, a, pool.State(), remotes);
    }
  }

  /** The next attempt over the next connection. */
  method ConnectedAttempt(pool: LeasePool, remotes: seq<Remote>, j: Job, tried: set<Host>, k: nat,
                          ghost trace: seq<Record>)
    returns (a: Acquisition, h: Handling, calls: seq<Call>, ghost r: Record, ghost waits: nat)
    requires pool.Valid() && Runnable(j) && k == |trace| < |remotes| && Apart(remotes) && Sent(remotes, trace)
    modifies pool, remotes[k]
    ensures pool.Valid() && Sent(remotes, if a.Leased? then trace + [r] else trace)
    ensures a.Leased? ==>
              && r.lease == a.lease && r.tried == tried && r.start == old(pool.State()) && r.handling == h
              && Went(j, r, k + 1) && calls == CallsOf(j, r)
              && ProperRun(OpsOf(j, r)) && pool.State() == After(old(pool.State()), OpsOf(j, r))
              && HeldOrGone(pool.State(), a.lease) && a.lease.token !in pool.State().leases
    ensures !a.Leased? ==> calls == [] && TurnedAway(j, old(pool.State()), tried, k + 1, waits, a, pool.State())
  {
    a, h, calls, r, waits := NextAttempt(pool, remotes[k], j, tried, k + 1);
    ghost var longer := if a.Leased? then trace + [r] else trace;
    forall i: nat | i < |remotes| ensures remotes[i].Valid() && remotes[i].issued == CommandsAt(longer, i) {
      if a.Leased? { CommandsMore(trace, r, i); }
      assert i != k ==> remotes[i] != remotes[k];
    }
  }
}
