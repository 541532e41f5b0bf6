/** The backend around the lease pool: submitted jobs, the sweeper, the view of running hosts, and
    the drain that must end before session ownership is given up. */
module Teardown {
  import opened Basics
  import opened PoolStates
  import opened PoolRuns

  // --- attempt ids -------------------------------------------------------------------

  datatype Key = Key(batch: string, job: string)

  predicate Alphanumeric(c: char) { 'A' <= c <= 'Z' || 'a' <= c <= 'z' || '0' <= c <= '9' }

  predicate ValidId(s: string) {
    && 1 <= |s| <= 128 && Alphanumeric(s[0])
    && forall i :: 0 < i < |s| ==> Alphanumeric(s[i]) || s[i] == '.' || s[i] == '_' || s[i] == '-'
  }

  predicate ValidKey(k: Key) { ValidId(k.batch) && ValidId(k.job) }

  function AttemptId(k: Key): string { k.batch + "/" + k.job }

  /** Split at the first slash. */
  function Split(s: string): Option<Key> {
    if s == "" then None
    else if s[0] == '/' then Some(Key("", s[1..]))
    else match Split(s[1..]) case None => None case Some(k) => Some(Key([s[0]] + k.batch, k.job))
  }

  lemma {:induction false} SplitJoin(batch: string, job: string)
    requires '/' !in batch
    ensures Split(batch + "/" + job) == Some(Key(batch, job))
  {
    var s := batch + "/" + job;
    if batch == "" {
      assert s == "/" + job;
    } else {
      assert s[1..] == batch[1..] + "/" + job;
      SplitJoin(batch[1..], job);
      assert batch == [batch[0]] + batch[1..];
    }
  }

  /** Ids contain no slash, so the attempt id gives back the exact pair. */
  lemma AttemptIdDecodes(k: Key)
    requires ValidKey(k)
    ensures Split(AttemptId(k)) == Some(k)
  {
    SplitJoin(k.batch, k.job);
  }

  lemma {:induction false} SplitIsJoin(s: string)
    requires Split(s).Some?
    ensures AttemptId(Split(s).value) == s
  {
    if s[0] != '/' { SplitIsJoin(s[1..]); }
  }

  /** The host of each running (batch, job) pair, decoded from the view of the lease actor: one
      entry for each entry of the view, or an error if some entry has no slash. */
  method RunningHosts(snapshot: map<string, Host>) returns (result: Option<map<Key, Host>>)
    ensures result.None? <==> exists a :: a in snapshot && Split(a).None?
    ensures result.Some? ==> forall a :: a in snapshot ==>
              Split(a).value in result.value && result.value[Split(a).value] == snapshot[a]
    ensures result.Some? ==> forall k :: k in result.value ==> AttemptId(k) in snapshot
  {
    var hosts: map<Key, Host> := map[];
    var rest := snapshot.Keys;
    while rest != {}
      invariant rest <= snapshot.Keys
      invariant forall a :: a in snapshot && a !in rest ==>
                  Split(a).Some? && Split(a).value in hosts && hosts[Split(a).value] == snapshot[a]
      invariant forall k :: k in hosts ==> AttemptId(k) in snapshot
      decreases rest
    {
      var a :| a in rest;
      if Split(a).None? { return None; }
      SplitIsJoin(a);
      forall b | b in snapshot && b != a && Split(b).Some? ensures Split(b) != Split(a) { SplitIsJoin(b); }
      hosts := hosts[Split(a).value := snapshot[a]];
      rest := rest - {a};
    }
    return Some(hosts);
  }

  // --- the system ----------------------------------------------------------------------

  /** last: the token most recently granted to the job. */
  datatype Phase = Idle | Holding | Finished

  datatype Job = Job(phase: Phase, last: Option<Token>)

  /** Where the drain loop is: about to look at the workers, at the leases, or at the quarantined
      hosts (idle: it saw no lease). */
  datatype Loop = AtWorkers | AtLeases | AtQuarantine(idle: bool)

  /** Where teardown is: not called; inside the drain; after it, about to stop the sweeper; about to
      kill the lease actor; about to give up session ownership; or through. */
  datatype Point = Outside | InDrain(loop: Loop) | StopsSweeper | KillsActor | GivesUp | Through

  /** pending: the workers the drain has not seen finished; sweeping: the sweeper thread runs; alive:
      the lease actor runs; owning: session ownership is held. */
  datatype System = System(pool: Pool, jobs: map<Key, Job>, draining: bool, pending: set<Key>,
                           point: Point, sweeping: bool, alive: bool, owning: bool)

  datatype Event =
    | Submit(key: Key)
    | JobAcquires(key: Key, exclude: set<Host>, now: Time)
    | JobReleases(key: Key)
    | JobRegisters(key: Key, path: string)
    | JobBeats(key: Key, now: Time)
    | JobQuarantines(key: Key, host: Host)
    | JobEnds(key: Key)
    | Sweeps(now: Time)
    | Reconciles(host: Host)
    | TeardownBegins
    | SeesWorkers(finished: set<Key>)
    | SeesLeases
    | SeesQuarantine
    | TeardownRaises
    | Proceeds

  predicate In(s: System, k: Key, p: Phase) { k in s.jobs && s.jobs[k].phase == p }

  /** A submission names a new (batch, job) pair and is refused while draining; a worker acquires
      only when it holds nothing; a worker may end at any time, even while it holds a lease.  Teardown
      may raise until it starts to stop things; after that it goes on. */
  predicate Enabled(s: System, e: Event) {
    match e
    case Submit(k) => !s.draining && ValidKey(k) && k !in s.jobs
    case JobAcquires(k, _, _) => s.alive && In(s, k, Idle)
    case JobReleases(k) => s.alive && In(s, k, Holding) && s.jobs[k].last.Some?
    case JobRegisters(k, _) => s.alive && In(s, k, Holding) && s.jobs[k].last.Some?
    case JobBeats(k, _) => s.alive && In(s, k, Holding) && s.jobs[k].last.Some?
    case JobQuarantines(k, _) => s.alive && In(s, k, Holding)
    case JobEnds(k) => k in s.jobs && s.jobs[k].phase != Finished
    case Sweeps(_) => s.alive && (s.sweeping || s.point.InDrain?)
    case Reconciles(_) => s.alive && (s.sweeping || s.point.InDrain?)
    case TeardownBegins => s.point == Outside && s.alive
    case SeesWorkers(done) => s.point == InDrain(AtWorkers) && forall k :: k in done ==> In(s, k, Finished)
    case SeesLeases => s.point == InDrain(AtLeases)
    case SeesQuarantine => s.point.InDrain? && s.point.loop.AtQuarantine?
    case TeardownRaises => s.point.InDrain? || s.point == StopsSweeper
    case Proceeds => s.point == StopsSweeper || s.point == KillsActor || s.point == GivesUp
  }

  ghost function PoolNext(s: System, e: Event): Pool
    requires s.pool.Valid() && Enabled(s, e)
  {
    match e
    case JobAcquires(k, exclude, now) => Acquired(s.pool, AttemptId(k), exclude, now).0
    case JobReleases(k) => Released(s.pool, s.jobs[k].last.value)
    case JobRegisters(k, path) => Registered(s.pool, s.jobs[k].last.value, path)
    case JobBeats(k, now) => Beaten(s.pool, s.jobs[k].last.value, now)
    case JobQuarantines(_, h) => Isolated(s.pool, {h})
    case Sweeps(now) => Swept(s.pool, now)
    case Reconciles(h) => Readmitted(s.pool, h)
    case _ => s.pool
  }

  ghost function JobsNext(s: System, e: Event): map<Key, Job>
    requires s.pool.Valid() && Enabled(s, e)
  {
    match e
    case Submit(k) => s.jobs[k := Job(Idle, None)]
    case JobAcquires(k, exclude, now) =>
      var grant := Acquired(s.pool, AttemptId(k), exclude, now).1;
      if grant.Granted? then s.jobs[k := Job(Holding, Some(grant.lease.token))] else s.jobs
    case JobReleases(k) => s.jobs[k := s.jobs[k].(phase := Idle)]
    case JobEnds(k) => s.jobs[k := s.jobs[k].(phase := Finished)]
    case _ => s.jobs
  }

  /** What the event does to everything but the pool and the workers. */
  function Controlled(s: System, e: Event): System
    requires Enabled(s, e)
  {
    match e
    case TeardownBegins => s.(draining := true, pending := s.jobs.Keys, point := InDrain(AtWorkers))
    case SeesWorkers(done) => s.(pending := s.pending - done, point := InDrain(AtLeases))
    case SeesLeases => s.(point := InDrain(AtQuarantine(s.pool.leases == map[])))
    case SeesQuarantine =>
      s.(point := if s.pending == {} && s.point.loop.idle && s.pool.quarantined == {} then StopsSweeper
                  else InDrain(AtWorkers))
    case TeardownRaises => s.(point := Outside)
    case Proceeds =>
      (match s.point
       case StopsSweeper => s.(sweeping := false, point := KillsActor)
       case KillsActor => s.(alive := false, point := GivesUp)
       case _ => s.(owning := false, point := Through))
    case _ => s
  }

  ghost function Next(s: System, e: Event): System
    requires s.pool.Valid() && Enabled(s, e)
  {
    Controlled(s, e).(pool := PoolNext(s, e), jobs := JobsNext(s, e))
  }

  // --- the invariant ---------------------------------------------------------------------

  /** The lease t was granted to the job k, most recently. */
  predicate Owner(s: System, t: Token, k: Key)
    requires t in s.pool.leases
  {
    && k in s.jobs && ValidKey(k) && s.jobs[k].last == Some(t)
    && s.jobs[k].phase != Idle && s.pool.leases[t].attemptId == AttemptId(k)
  }

  ghost predicate Owned(s: System) {
    && (forall t :: t in s.pool.leases ==> exists k :: Owner(s, t, k))
    && (forall k :: k in s.jobs ==> ValidKey(k) && (s.jobs[k].phase == Holding ==> s.jobs[k].last.Some?))
  }

  predicate AllFinished(s: System) { forall k :: k in s.jobs ==> s.jobs[k].phase == Finished }

  /** No worker is left, no lease is live, and no host awaits reconciliation. */
  predicate Quiet(s: System) { AllFinished(s) && s.pool.leases == map[] && s.pool.quarantined == {} }

  /** Teardown is past its drain. */
  predicate Past(p: Point) { !p.Outside? && !p.InDrain? }

  ghost predicate Draining(s: System) {
    && (s.point != Outside ==>
          s.draining && forall k :: k in s.jobs && s.jobs[k].phase != Finished ==> k in s.pending)
    && (s.point.InDrain? && s.point.loop.AtQuarantine? && s.point.loop.idle && s.pending == {} ==>
          s.pool.leases == map[])
    && (Past(s.point) ==> Quiet(s))
    && (!s.alive ==> s.point == GivesUp || s.point == Through)
    && (!s.owning ==> s.point == Through)
  }

  ghost predicate Inv(s: System) { s.pool.Valid() && Owned(s) && Draining(s) }

  lemma ValidKept(s: System, e: Event)
    requires Inv(s) && Enabled(s, e)
    ensures Next(s, e).pool.Valid()
  {
    match e
    case JobAcquires(k, x, now) => AcquiredValid(s.pool, AttemptId(k), x, now);
    case JobReleases(k) => ReleasedValid(s.pool, s.jobs[k].last.value);
    case JobRegisters(k, path) => RegisteredValid(s.pool, s.jobs[k].last.value, path);
    case JobBeats(k, now) => BeatenValid(s.pool, s.jobs[k].last.value, now);
    case JobQuarantines(_, h) => IsolatedValid(s.pool, {h});
    case Sweeps(now) => IsolatedValid(s.pool, s.pool.ExpiredHosts(now));
    case Reconciles(h) => ReadmittedValid(s.pool, h);
    case _ =>
  }

  /** Apart from a grant, every lease is one that was there before, for the same attempt. */
  lemma LeaseOrigin(s: System, e: Event, t: Token)
    requires s.pool.Valid() && Enabled(s, e) && t in Next(s, e).pool.leases
    requires e.JobAcquires? ==> ValidKey(e.key)
    ensures t in s.pool.leases || (e.JobAcquires? && Owner(Next(s, e), t, e.key))
  {}

  lemma OwnerKept(s: System, e: Event, t: Token, k: Key)
    requires s.pool.Valid() && Enabled(s, e) && t in s.pool.leases && Owner(s, t, k)
    requires t in Next(s, e).pool.leases
    ensures Owner(Next(s, e), t, k)
  {
    if e.JobAcquires? { assert e.key != k; }
  }

  lemma OwnersKept(s: System, e: Event, t: Token)
    requires s.pool.Valid() && Owned(s) && Enabled(s, e) && t in Next(s, e).pool.leases
    ensures exists k :: Owner(Next(s, e), t, k)
  {
    LeaseOrigin(s, e, t);
    if t in s.pool.leases {
      var k :| Owner(s, t, k);
      OwnerKept(s, e, t, k);
    }
  }

  lemma KeysKept(s: System, e: Event, k: Key)
    requires s.pool.Valid() && Owned(s) && Enabled(s, e) && k in Next(s, e).jobs
    ensures ValidKey(k) && (Next(s, e).jobs[k].phase == Holding ==> Next(s, e).jobs[k].last.Some?)
  {}

  lemma OwnedKept(s: System, e: Event)
    requires s.pool.Valid() && Owned(s) && Enabled(s, e)
    ensures Owned(Next(s, e))
  {
    forall t | t in Next(s, e).pool.leases ensures exists k :: Owner(Next(s, e), t, k) { OwnersKept(s, e, t); }
    forall k | k in Next(s, e).jobs
      ensures ValidKey(k) && (Next(s, e).jobs[k].phase == Holding ==> Next(s, e).jobs[k].last.Some?)
    {
      KeysKept(s, e, k);
    }
  }

  lemma {:induction false} DrainingKept(s: System, e: Event)
    requires Inv(s) && Enabled(s, e)
    ensures Draining(Next(s, e))
  {
    var r := Next(s, e);
    if s.pool.leases == map[] && !e.JobAcquires? { assert r.pool.leases == map[]; }
    if s.pool.leases == map[] && e.Sweeps? { assert s.pool.ExpiredHosts(e.now) == {}; }
    if Past(s.point) && e.Sweeps? { assert r.pool.quarantined == {}; }
  }

  // --- all runs ------------------------------------------------------------------------------

  /** Before any submission: an empty pool over the given hosts. */
  ghost predicate Initial(s: System) {
    && s.pool.Valid() && s.pool.leases == map[] && s.jobs == map[] && !s.draining
    && s.point == Outside && s.sweeping && s.alive && s.owning
  }

  ghost predicate Run(s: System, es: seq<Event>)
    requires Inv(s)
    decreases |es|
  {
    es == [] || (Enabled(s, es[0]) && (NextKept(s, es[0]); Run(Next(s, es[0]), es[1..])))
  }

  ghost function Reached(s: System, es: seq<Event>): (r: System)
    requires Inv(s) && Run(s, es)
    ensures Inv(r)
    decreases |es|
  {
    if es == [] then s
    else
      NextKept(s, es[0]);
      Reached(Next(s, es[0]), es[1..])
  }

  lemma NextKept(s: System, e: Event)
    requires Inv(s) && Enabled(s, e)
    ensures Inv(Next(s, e))
  {
    ValidKept(s, e);
    OwnedKept(s, e);
    DrainingKept(s, e);
  }

  /** When the drain has returned, no worker is unfinished, no lease is live and no host is
      quarantined, and nothing that can happen afterwards changes that, not even if teardown raises
      and is called again.  In every run the lease actor is gone and session ownership is given up
      only in that state. */
  lemma {:induction false} DrainIsStable(s: System, es: seq<Event>, later: seq<Event>)
    requires Initial(s) && Run(s, es) && Run(Reached(s, es), later)
    ensures var r := Reached(s, es); var z := Reached(r, later);
            && (Past(r.point) ==> Quiet(r) && Quiet(z))
            && (!r.alive || !r.owning ==> Past(r.point))
  {
    if Past(Reached(s, es).point) { StaysQuiet(Reached(s, es), later); }
  }

  /** Even if teardown raises after its drain: no new job is let in, so all stays quiet. */
  lemma {:induction false} StaysQuiet(s: System, es: seq<Event>)
    requires Inv(s) && Run(s, es) && s.draining && Quiet(s)
    ensures Quiet(Reached(s, es)) && Reached(s, es).draining
    decreases |es|
  {
    if es != [] {
      NextKept(s, es[0]);
      QuietKept(s, es[0]);
      StaysQuiet(Next(s, es[0]), es[1..]);
    }
  }

  lemma QuietKept(s: System, e: Event)
    requires Inv(s) && Enabled(s, e) && s.draining && Quiet(s)
    ensures Quiet(Next(s, e)) && Next(s, e).draining
  {
    if e.Sweeps? { assert s.pool.ExpiredHosts(e.now) == {}; }
  }

  lemma {:induction false} StepFirst(s: System, e: Event, z: System, es: seq<Event>)
    requires Inv(s) && Enabled(s, e) && z == Next(s, e) && Inv(z) && Run(z, es)
    ensures Run(s, [e] + es) && Reached(s, [e] + es) == Reached(z, es)
  {
    assert ([e] + es)[1..] == es;
  }

  /** A drain that finds every worker finished, no lease and no quarantined host returns, and teardown
      then stops the sweeper, kills the lease actor and gives up session ownership. */
  lemma DrainReturns(s: System, finished: set<Key>)
    requires Inv(s) && s.point == InDrain(AtWorkers) && Quiet(s) && s.owning
    requires s.pending <= finished <= s.jobs.Keys
    ensures var es := [SeesWorkers(finished)] + ([SeesLeases] + ([SeesQuarantine] + Stops()));
            Run(s, es) && Reached(s, es) == s.(pending := {}, point := Through, sweeping := false, alive := false,
                                               owning := false)
  {
    var a := s.(pending := {}, point := InDrain(AtLeases));
    assert Enabled(s, SeesWorkers(finished));
    assert s.pending - finished == {};
    assert Next(s, SeesWorkers(finished)) == a;
    NextKept(s, SeesWorkers(finished));
    LooksDone(a);
    StepFirst(s, SeesWorkers(finished), a, [SeesLeases] + ([SeesQuarantine] + Stops()));
  }

  lemma LooksDone(s: System)
    requires Inv(s) && s.point == InDrain(AtLeases) && s.pending == {} && Quiet(s)
    ensures var es := [SeesLeases] + ([SeesQuarantine] + Stops());
            Run(s, es) && Reached(s, es) == s.(point := Through, sweeping := false, alive := false, owning := false)
  {
    var b := s.(point := InDrain(AtQuarantine(true)));
    var c := b.(point := StopsSweeper);
    assert Next(s, SeesLeases) == b;
    NextKept(s, SeesLeases);
    assert Next(b, SeesQuarantine) == c;
    NextKept(b, SeesQuarantine);
    Stopping(c);
    StepFirst(b, SeesQuarantine, c, Stops());
    StepFirst(s, SeesLeases, b, [SeesQuarantine] + Stops());
  }

  /** The last three steps of teardown. */
  function Stops(): seq<Event> { [Proceeds] + ([Proceeds] + ([Proceeds] + [])) }

  lemma Stopping(s: System)
    requires Inv(s) && s.point == StopsSweeper
    ensures Run(s, Stops())
    ensures Reached(s, Stops()) == s.(point := Through, sweeping := false, alive := false, owning := false)
  {
    var a := s.(sweeping := false, point := KillsActor);
    var b := a.(alive := false, point := GivesUp);
    assert Next(s, Proceeds) == a;
    NextKept(s, Proceeds);
    assert Next(a, Proceeds) == b;
    NextKept(a, Proceeds);
    assert Next(b, Proceeds) == b.(owning := false, point := Through);
    NextKept(b, Proceeds);
    StepFirst(b, Proceeds, b.(owning := false, point := Through), []);
    StepFirst(a, Proceeds, b, [Proceeds] + []);
    StepFirst(s, Proceeds, a, [Proceeds] + ([Proceeds] + []));
  }

  /** A drain that finds a worker unfinished, a lease or a quarantined host begins another round. */
  lemma DrainGoesOn(s: System)
    requires Inv(s) && s.point.InDrain? && s.point.loop.AtQuarantine?
    requires s.pending != {} || !s.point.loop.idle || s.pool.quarantined != {}
    ensures Next(s, SeesQuarantine).point == InDrain(AtWorkers)
  {}

  /** A job once submitted stays known, and each event changes the worker that it names, and only that:
      to idle by a submission or a release, to holding by a grant, to finished by its end. */
  lemma WorkersMove(s: System, e: Event, k: Key)
    requires s.pool.Valid() && Enabled(s, e)
    ensures k in s.jobs ==> k in Next(s, e).jobs
    ensures var named := (e.Submit? || e.JobAcquires? || e.JobReleases? || e.JobEnds?) && e.key == k;
            && (!named ==>
                  (k in Next(s, e).jobs ==> k in s.jobs) && (k in s.jobs ==> Next(s, e).jobs[k] == s.jobs[k]))
            && (named ==>
                  && k in Next(s, e).jobs && var phase := Next(s, e).jobs[k].phase;
                  && (e.Submit? || e.JobReleases? ==> phase == Idle) && (e.JobEnds? ==> phase == Finished)
                  && (e.JobAcquires? ==> (phase == Holding <==>
                        Acquired(s.pool, AttemptId(k), e.exclude, e.now).1.Granted?)))
  {}

  /** The call for the pool that an event is, if it is one. */
  function OpOf(s: System, e: Event): seq<Op>
    requires Enabled(s, e)
  {
    match e
    case JobAcquires(k, exclude, now) => [Acquire(AttemptId(k), exclude, now)]
    case JobReleases(k) => [Release(s.jobs[k].last.value)]
    case JobRegisters(k, path) => [RegisterPid(s.jobs[k].last.value, path)]
    case JobBeats(k, now) => [PoolStates.Heartbeat(s.jobs[k].last.value, now)]
    case JobQuarantines(_, h) => [Quarantine(h)]
    case Sweeps(now) => [Sweep(now)]
    case Reconciles(h) => [MarkReconciled(h)]
    case _ => []
  }

  ghost function OpsOf(s: System, es: seq<Event>): seq<Op>
    requires Inv(s) && Run(s, es)
    decreases |es|
  {
    if es == [] then []
    else
      NextKept(s, es[0]);
      OpOf(s, es[0]) + OpsOf(Next(s, es[0]), es[1..])
  }

  /** In every run of workers, sweeper and teardown, the pool goes through the calls that were made. */
  lemma {:induction false} PoolIsRun(s: System, es: seq<Event>)
    requires Inv(s) && Run(s, es)
    ensures ProperRun(OpsOf(s, es)) && Reached(s, es).pool == After(s.pool, OpsOf(s, es))
    decreases |es|
  {
    if es != [] {
      NextKept(s, es[0]);
      PoolIsRun(Next(s, es[0]), es[1..]);
      EventIsCall(s, es[0]);
      AfterConcat(s.pool, OpOf(s, es[0]), OpsOf(Next(s, es[0]), es[1..]));
    }
  }

  lemma EventIsCall(s: System, e: Event)
    requires Inv(s) && Enabled(s, e)
    ensures ProperRun(OpOf(s, e)) && Next(s, e).pool == After(s.pool, OpOf(s, e))
  {
    var ops := OpOf(s, e);
    if ops != [] {
      StepValid(s.pool, ops[0]);
      assert ops[1..] == [];
      assert After(s.pool, ops) == Step(s.pool, ops[0]);
    }
  }

  /** At most one lease names any attempt, so the lease actor's view has one entry per lease, and
      each entry decodes to the (batch, job) pair whose job was granted that lease. */
  lemma {:induction false} ViewIsExact(s: System)
    requires Inv(s)
    ensures AttemptsDistinct(s.pool)
    ensures |HostsUpTo(s.pool, s.pool.minted)| == |s.pool.leases|
    ensures forall t :: t in s.pool.leases ==>
              exists k :: Owner(s, t, k) && Split(s.pool.leases[t].attemptId) == Some(k)
                          && AttemptId(k) in HostsUpTo(s.pool, s.pool.minted)
                          && HostsUpTo(s.pool, s.pool.minted)[AttemptId(k)] == s.pool.leases[t].host
    ensures forall a :: a in HostsUpTo(s.pool, s.pool.minted) ==> Split(a).Some? && Split(a).value in s.jobs
  {
    forall t, u | t in s.pool.leases && u in s.pool.leases && s.pool.leases[t].attemptId == s.pool.leases[u].attemptId
      ensures t == u
    {
      var j :| Owner(s, t, j);
      var k :| Owner(s, u, k);
      AttemptIdDecodes(j);
      AttemptIdDecodes(k);
    }
    ViewLosesNothing(s.pool);
    forall t | t in s.pool.leases
      ensures exists k :: Owner(s, t, k) && Split(s.pool.leases[t].attemptId) == Some(k)
                          && AttemptId(k) in HostsUpTo(s.pool, s.pool.minted)
                          && HostsUpTo(s.pool, s.pool.minted)[AttemptId(k)] == s.pool.leases[t].host
    {
      var k :| Owner(s, t, k);
      AttemptIdDecodes(k);
    }
  }
}
