/** What the attempts of a job do to the lease pool and over their connections, as data, and what
    follows from it for the whole job. */
module JobTraces {
  import opened Basics
  import opened PoolStates
  import opened PoolRuns
  import opened LeasePools
  import opened Remotes
  import opened Attempts

  // --- retries and results ---------------------------------------------------------

  datatype RetryPolicy = RetryPolicy(maxAttempts: nat, retryOn: set<FailureKind>)

  predicate ShouldRetry(policy: RetryPolicy, kind: Option<FailureKind>, completed: nat) {
    kind.Some? && kind.value in policy.retryOn && completed < policy.maxAttempts
  }

  datatype JobResult = JobResult(status: Status, code: Option<int>, duration: Time, host: string,
                                 outputDir: Option<string>, attempts: seq<AttemptResult>, error: Option<string>)

  function Total(attempts: seq<AttemptResult>): Time {
    if attempts == [] then 0.0 else Total(attempts[..|attempts| - 1]) + attempts[|attempts| - 1].duration
  }

  function Assembled(attempts: seq<AttemptResult>, outputs: string): JobResult
    requires attempts != []
  {
    var final := attempts[|attempts| - 1];
    JobResult(final.status, final.code, Total(attempts), final.host,
              if final.status == Succeeded then Some(outputs) else None, attempts, final.error)
  }

  // --- what run_job does about the outcome of an attempt -----------------------------

  /** quarantine: the host is quarantined before the lease is released; then either a result is
      kept, or an exception leaves the job. */
  datatype Handling = Handling(quarantine: bool, result: Option<AttemptResult>, raised: Option<Exc>)

  function FailedAttempt(n: nat, host: string, kind: FailureKind, error: string): AttemptResult {
    AttemptResult(n, host, Failed, None, 0.0, Some(kind), Some(error))
  }

  function CancelledAttempt(n: nat, host: string): AttemptResult {
    AttemptResult(n, host, Cancelled, None, 0.0, None, Some("cancelled"))
  }

  function ResultFor(e: Exc, n: nat, host: string): Option<AttemptResult> {
    match e.kind
    case LeaseLost => Some(FailedAttempt(n, host, HostLost, e.message))
    case Transport => Some(FailedAttempt(n, host, SshFailure, e.message))
    case Dispatcher => Some(FailedAttempt(n, host, Internal, e.message))
    case Keyboard => Some(CancelledAttempt(n, host))
    case _ => None
  }

  /** unrecorded: the failure to write the record of a failed attempt, if there is one. */
  function Handled(o: AttemptOutcome, n: nat, host: string, unrecorded: Option<string>): Handling {
    match o
    case Produced(r) => Handling(false, Some(r), None)
    case CleanupRaised(Some(r), _) => Handling(true, Some(r), None)
    case CleanupRaised(None, None) => Handling(true, None, Some(Exc(Other, "cleanup error missing outcome")))
    case CleanupRaised(None, Some(e)) => Recorded(true, e, n, host, unrecorded)
    case Raises(e) => Recorded(e.kind == LeaseLost, e, n, host, unrecorded)
  }

  function Recorded(quarantine: bool, e: Exc, n: nat, host: string, unrecorded: Option<string>): Handling {
    var result := ResultFor(e, n, host);
    if result.None? then Handling(quarantine, None, Some(e))
    else if unrecorded.Some? then Handling(quarantine, None, FileError(unrecorded))
    else Handling(quarantine, result, None)
  }

  /** A timed-out run whose cleanup was not confirmed, followed by an exception raised while its
      logs are fetched or its record is written: that exception replaces the cleanup failure. */
  predicate Swallowed(s: AttemptScript, run: RunOutcome) {
    run.CleanupFailed? && run.cause.kind == Timeout && LateError(s).Some? && LateError(s).value.kind != LeaseLost
  }

  /** While processes of the attempt may still be alive, its host is quarantined before the slot
      is released exactly when the cleanup failure is not swallowed. */
  lemma QuarantineExact(s: AttemptScript, timeout: Option<Time>, cleaned: bool, n: nat, host: string,
                        unrecorded: Option<string>)
    requires FateOf(s.run, timeout, cleaned) == Unconfirmed
    ensures var run := OutcomeOf(s.run, timeout, cleaned);
            Handled(Concluded(s, run, n, host, timeout), n, host, unrecorded).quarantine <==> !Swallowed(s, run)
  {
    assert RaisedBy(s.run, timeout).Some?;
  }

  /** The swallowed case exists: one late poll, no confirmed cleanup, and a full disk. */
  lemma SwallowedExample() returns (s: AttemptScript)
    ensures FateOf(s.run, Some(1.0), false) == Unconfirmed
    ensures var run := OutcomeOf(s.run, Some(1.0), false);
            && Swallowed(s, run)
            && Handled(Concluded(s, run, 1, "a", Some(1.0)), 1, "a", None)
               == Handling(false, None, Some(Exc(Other, "no space left on device")))
  {
    s := AttemptScript(None, RunScript(0.0, None, [Poll(None, 2.0, None)], None, None, false),
                       None, None, Some("no space left on device"), Unreadable(Exc(Other, "")),
                       None, Collected([]), None);
    assert FirstRaised(s.run.polls, Some(1.0)) == Some(TIMED_OUT);
  }

  // --- the surroundings of one attempt -------------------------------------------------

  /** now: the clock at the acquisition; the sequences of operations are the calls of other
      clients that the pool serves at each point where they can come in between; waits: what
      happens between two checks of a waiting acquisition. */
  datatype Surroundings = Surroundings(now: Time, arriving: seq<Op>, waits: seq<seq<Op>>,
                                       lookup: Option<Exc>, register: Option<Exc>, connect: Option<Exc>,
                                       script: AttemptScript, unrecorded: Option<string>,
                                       registering: seq<Op>, running: seq<Op>,
                                       quarantining: seq<Op>, releasing: seq<Op>)

  ghost predicate Possible(e: Surroundings) {
    && ProperRun(e.arriving) && (forall i :: 0 <= i < |e.waits| ==> ProperRun(e.waits[i]))
    && ProperRun(e.registering) && ProperRun(e.running) && ProperRun(e.quarantining) && ProperRun(e.releasing)
  }

  /** A job, with what surrounds its n-th attempt. */
  datatype Job = Job(attemptId: string, outputs: string, timeout: Option<Time>, policy: RetryPolicy,
                     pidPath: nat -> string, around: nat -> Surroundings)

  ghost predicate Runnable(j: Job) {
    && j.attemptId != "" && j.policy.maxAttempts >= 1
    && forall n {:trigger j.around(n)} :: Possible(j.around(n))
  }

  // --- acquiring a lease ---------------------------------------------------------------

  datatype Acquisition = Leased(lease: Lease) | NoHosts | Waiting

  /** What the pool serves until the acquisition looks for a slot after i waits. */
  function Arriving(attemptId: string, tried: set<Host>, e: Surroundings, i: nat): seq<Op> {
    if i == 0 then e.arriving
    else
      Arriving(attemptId, tried, e, i - 1) + [Acquire(attemptId, tried, e.now)]
      + if i <= |e.waits| then e.waits[i - 1] else []
  }

  lemma {:induction false} ArrivingProper(attemptId: string, tried: set<Host>, e: Surroundings, i: nat)
    requires attemptId != "" && Possible(e)
    ensures ProperRun(Arriving(attemptId, tried, e, i))
  {
    if i > 0 { ArrivingProper(attemptId, tried, e, i - 1); }
  }

  /** What one look for a slot comes to. */
  ghost function Outcome(p: Pool, attemptId: string, tried: set<Host>, now: Time): Acquisition
    requires p.Valid()
  {
    match Acquired(p, attemptId, tried, now).1
    case Granted(l) => Leased(l)
    case _ => if p.Live() == {} then NoHosts else Waiting
  }

  /** A look finds no hosts exactly when none is live; waits exactly when one is but every eligible host
      uses all its slots; and else has the lease that the pool grants. */
  lemma OutcomeMeans(p: Pool, attemptId: string, tried: set<Host>, now: Time)
    requires p.Valid() && attemptId != ""
    ensures var a := Outcome(p, attemptId, tried, now);
            && (a == NoHosts <==> forall h :: h in p.slots ==> h in p.quarantined)
            && (a.Leased? <==> exists h :: Eligible(p, tried, h) && |p.used[h]| != p.slots[h])
            && (a.Leased? ==> Acquired(p, attemptId, tried, now).1 == Granted(a.lease))
  {
    AcquiredChoice(p, attemptId, tried, now);
    ChoiceInDetail(p, attemptId, tried, now);
    assert forall h :: h in p.Live() <==> h in p.slots && h !in p.quarantined;
  }

  /** The acquisition that starts at the pool p finds a after i waits. */
  ghost predicate Finds(p: Pool, attemptId: string, tried: set<Host>, e: Surroundings, i: nat, a: Acquisition)
    requires p.Valid()
  {
    && i <= |e.waits| && ProperRun(Arriving(attemptId, tried, e, i))
    && a == Outcome(After(p, Arriving(attemptId, tried, e, i)), attemptId, tried, e.now)
  }

  /** The first n looks for a slot found none. */
  ghost predicate InVain(p: Pool, attemptId: string, tried: set<Host>, e: Surroundings, n: nat)
    requires p.Valid()
  {
    forall i: nat :: i < n ==> Finds(p, attemptId, tried, e, i, Waiting)
  }

  lemma InVainAgain(p: Pool, attemptId: string, tried: set<Host>, e: Surroundings, n: nat)
    requires p.Valid() && InVain(p, attemptId, tried, e, n) && Finds(p, attemptId, tried, e, n, Waiting)
    ensures InVain(p, attemptId, tried, e, n + 1)
  {}

  /** What the pool has served when the acquisition has looked after i waits. */
  function Looked(attemptId: string, tried: set<Host>, e: Surroundings, i: nat): seq<Op> {
    Arriving(attemptId, tried, e, i) + [Acquire(attemptId, tried, e.now)]
  }

  /** The acquisition that starts at the pool p looked in vain i times and then found a, leaving the
      pool q. */
  ghost predicate Searched(p: Pool, attemptId: string, tried: set<Host>, e: Surroundings, i: nat, a: Acquisition,
                           q: Pool)
    requires p.Valid()
  {
    && Finds(p, attemptId, tried, e, i, a) && InVain(p, attemptId, tried, e, i)
    && ProperRun(Looked(attemptId, tried, e, i)) && q == After(p, Looked(attemptId, tried, e, i))
  }

  lemma LookedIsStep(p: Pool, attemptId: string, tried: set<Host>, e: Surroundings, i: nat)
    requires p.Valid() && attemptId != "" && Possible(e)
    ensures ProperRun(Arriving(attemptId, tried, e, i)) && ProperRun(Looked(attemptId, tried, e, i))
    ensures After(p, Looked(attemptId, tried, e, i)) ==
            Acquired(After(p, Arriving(attemptId, tried, e, i)), attemptId, tried, e.now).0
  {
    ArrivingProper(attemptId, tried, e, i);
    AfterThen(p, Arriving(attemptId, tried, e, i), Acquire(attemptId, tried, e.now));
  }

  // --- one attempt under a lease -------------------------------------------------------

  datatype Call = Acquires(token: Token) | Registers(token: Token) | Quarantines(host: Host) | Releases(token: Token)

  datatype Bracket = Idle | Holding(token: Token) | Broken

  /** Where a log of lease calls stands: a lease is acquired only while none is held, and every
      other call is made while one is held, about that one. */
  function BracketOf(calls: seq<Call>): Bracket {
    if calls == [] then Idle
    else
      var before := BracketOf(calls[..|calls| - 1]);
      match calls[|calls| - 1]
      case Acquires(t) => if before == Idle then Holding(t) else Broken
      case Registers(t) => if before == Holding(t) then before else Broken
      case Quarantines(_) => if before.Holding? then before else Broken
      case Releases(t) => if before == Holding(t) then Idle else Broken
  }

  lemma RegisterBalances(t: Token)
    ensures BracketOf([Acquires(t)]) == Holding(t)
    ensures BracketOf([Acquires(t), Registers(t)]) == Holding(t)
  {
    assert [Acquires(t), Registers(t)][..1] == [Acquires(t)];
    assert BracketOf([Acquires(t)]) == Holding(t);
  }

  lemma {:induction false} BracketConcat(a: seq<Call>, b: seq<Call>)
    requires BracketOf(a) == Idle
    ensures BracketOf(a + b) == BracketOf(b)
  {
    if b == [] {
      assert a + b == a;
    } else {
      BracketConcat(a, b[..|b| - 1]);
      assert (a + b)[..|a + b| - 1] == a + b[..|b| - 1];
    }
  }

  /** One attempt as it went: the hosts tried before, the pool when it started and the waits until a
      slot was found, how the supervision of the runner ended, the cleanup commands sent, what
      run_job did about the outcome, and whether its release found the lease and so freed the slot. */
  datatype Record = Record(number: nat, lease: Lease, tried: set<Host>, start: Pool, waits: nat,
                           run: Option<RunOutcome>, fate: Fate, sent: seq<Issued>,
                           published: bool, handling: Handling, freed: bool)

  /** The token of l was issued, and if it still is a lease, it is one on the host of l. */
  predicate HeldOrGone(p: Pool, l: Lease) {
    l.token < p.minted && (l.token in p.leases ==> p.leases[l.token].host == l.host)
  }

  /** A token that is no longer a lease never becomes one again, nor moves to another host. */
  lemma StaysHeldOrGone(p: Pool, op: Op, l: Lease)
    requires p.Valid() && Proper(op) && HeldOrGone(p, l)
    ensures HeldOrGone(Step(p, op), l)
    ensures l.token !in p.leases ==> l.token !in Step(p, op).leases
  {}

  lemma {:induction false} NeverReissued(p: Pool, ops: seq<Op>, l: Lease)
    requires p.Valid() && ProperRun(ops) && HeldOrGone(p, l)
    ensures HeldOrGone(After(p, ops), l)
    ensures l.token !in p.leases ==> l.token !in After(p, ops).leases
    decreases |ops|
  {
    if ops != [] {
      StepValid(p, ops[0]);
      StaysHeldOrGone(p, ops[0], l);
      NeverReissued(Step(p, ops[0]), ops[1..], l);
    }
  }

  /** What the pool serves while the try block runs: the registration of the pid path, and the calls
      of other clients around it. */
  function Trying(lease: Lease, e: Surroundings, pidPath: string): seq<Op> {
    if e.lookup.Some? || e.register.Some? then []
    else e.registering + [RegisterPid(lease.token, pidPath)] + if e.connect.Some? then [] else e.running
  }

  /** What the pool serves after that, up to the release. */
  function Parting(lease: Lease, quarantine: bool, e: Surroundings): seq<Op> {
    (if quarantine then e.quarantining + [Quarantine(lease.host)] else []) + e.releasing
  }

  /** All that the pool serves from the start of an attempt until its lease is released. */
  function OpsBefore(j: Job, r: Record): seq<Op> {
    var e := j.around(r.number);
    Looked(j.attemptId, r.tried, e, r.waits)
    + (Trying(r.lease, e, j.pidPath(r.number)) + Parting(r.lease, r.handling.quarantine, e))
  }

  function OpsOf(j: Job, r: Record): seq<Op> { OpsBefore(j, r) + [Release(r.lease.token)] }

  function Registering(lease: Lease, e: Surroundings): seq<Call> {
    if e.lookup.Some? || e.register.Some? then [] else [Registers(lease.token)]
  }

  function LettingGo(lease: Lease, quarantine: bool): seq<Call> {
    (if quarantine then [Quarantines(lease.host)] else []) + [Releases(lease.token)]
  }

  /** The job's own lease calls in one attempt. */
  function CallsOf(j: Job, r: Record): seq<Call> {
    [Acquires(r.lease.token)]
    + (Registering(r.lease, j.around(r.number)) + LettingGo(r.lease, r.handling.quarantine))
  }

  /** The lease is the first that the pool had for the attempt, and it is freed by the release if
      the pool still holds it then. */
  ghost predicate Transacted(j: Job, r: Record) {
    var e := j.around(r.number);
    && r.start.Valid() && Finds(r.start, j.attemptId, r.tried, e, r.waits, Leased(r.lease))
    && InVain(r.start, j.attemptId, r.tried, e, r.waits)
    && ProperRun(OpsBefore(j, r))
    && (r.freed <==> r.lease.token in After(r.start, OpsBefore(j, r)).leases)
  }

  /** A slot is handed back by the release only when the runner was never started, or ended by
      itself, or its group was confirmed gone by the commands sent, or the cleanup failure was
      swallowed; in all other cases the host is quarantined first and the release frees nothing. */
  ghost predicate SafeHandback(j: Job, r: Record) {
    var e, pidPath := j.around(r.number), j.pidPath(r.number);
    && (r.run.None? ==> r.fate == NeverStarted && r.sent == [])
    && (r.run.Some? ==>
          exists cleaned :: Supervised(e.script.run, j.timeout, r.sent, pidPath, cleaned, r.run.value, r.fate))
    && (r.handling.quarantine ==> !r.freed)
    && (r.fate == Unconfirmed ==> r.run.Some? && (r.handling.quarantine <==> !Swallowed(e.script, r.run.value)))
  }

  /** The attempt keeps a result of its own number and host, which succeeded exactly when its
      outputs were published, or else an exception leaves the job. */
  ghost predicate Concludes(j: Job, r: Record) {
    && (r.published <==> r.run.Some? && Publishes(j.around(r.number).script, r.run.value))
    && (r.handling.result.Some? <==> r.handling.raised.None?)
    && (r.handling.result.Some? ==>
          var a := r.handling.result.value;
          && a.number == r.number && a.host == r.lease.host
          && (a.status == Succeeded <==> r.published) && (a.status == Succeeded ==> a.failure.None?))
  }

  /** What keeps an attempt from invoking its runner: no runtime for the host, a refused
      registration, no connection, or a failing step of the preparation. */
  function Prevented(e: Surroundings): Option<Exc> {
    if e.lookup.Some? then e.lookup
    else if e.register.Some? then e.register
    else if e.connect.Some? then e.connect
    else e.script.prepare
  }

  /** The runner was invoked unless that was prevented, and run_job handled what the attempt came to. */
  ghost predicate Handles(j: Job, r: Record) {
    var e := j.around(r.number);
    && (r.run.None? <==> Prevented(e).Some?)
    && var outcome := if r.run.None? then Raises(Prevented(e).value)
                      else Concluded(e.script, r.run.value, r.number, r.lease.host, j.timeout);
    r.handling == Handled(outcome, r.number, r.lease.host, e.unrecorded)
  }

  ghost predicate Went(j: Job, r: Record, n: nat) {
    r.number == n && Transacted(j, r) && Handles(j, r) && SafeHandback(j, r) && Concludes(j, r)
  }

  /** Whenever the release frees the slot, the runner was never started, or ended by itself, or the
      commands sent confirm its group gone; except exactly in the swallowed case of a started runner
      that did not end by itself. */
  lemma {:induction false} HandbackExact(j: Job, r: Record, n: nat)
    requires Went(j, r, n) && r.lease.token in After(r.start, OpsBefore(j, r)).leases
    ensures var s, pidPath := j.around(n).script, j.pidPath(n);
            (|| r.run.None? || s.run.start.Some? || RunnerEnded(s.run, j.timeout)
             || (ConfirmsGone(r.sent, pidPath) && s.run.joined))
            <==> !(r.run.Some? && Swallowed(s, r.run.value) && s.run.start.None? && !RunnerEnded(s.run, j.timeout))
  {
    if r.run.Some? {
      var s := j.around(n).script.run;
      var cleaned :| Supervised(s, j.timeout, r.sent, j.pidPath(n), cleaned, r.run.value, r.fate);
      assert RaisedBy(s, j.timeout).None? ==> RunnerEnded(s, j.timeout);
    }
  }

  /** The lease is on a best host among the live ones not tried before; it repeats a tried host only
      if every host that was live when it was granted had been tried. */
  lemma FreshHost(j: Job, r: Record)
    requires j.attemptId != "" && Transacted(j, r)
    ensures var source := After(r.start, Arriving(j.attemptId, r.tried, j.around(r.number), r.waits));
            && source.IsBest(source.Candidates(r.tried), r.lease.host)
            && (r.lease.host in r.tried ==> source.Live() <= r.tried)
  {
    var e := j.around(r.number);
    AcquiredChoice(After(r.start, Arriving(j.attemptId, r.tried, e, r.waits)), j.attemptId, r.tried, e.now);
  }

  lemma HandledConcludes(s: AttemptScript, timeout: Option<Time>, run: RunOutcome, n: nat, host: string,
                         unrecorded: Option<string>)
    ensures var h := Handled(Concluded(s, run, n, host, timeout), n, host, unrecorded);
            && (h.result.Some? <==> h.raised.None?)
            && (h.result.Some? ==>
                  var a := h.result.value;
                  && a.number == n && a.host == host
                  && (a.status == Succeeded <==> Publishes(s, run)) && (a.status == Succeeded ==> a.failure.None?))
  {
  }

  lemma WentHolds(j: Job, r: Record, n: nat, outcome: AttemptOutcome)
    requires r.number == n && Transacted(j, r)
    requires var e := j.around(n);
             && (r.run.None? <==> Prevented(e).Some?)
             && (r.run.None? ==>
                   outcome == Raises(Prevented(e).value) && r.fate == NeverStarted && !r.published && r.sent == [])
             && (r.run.Some? ==>
                   && outcome == Concluded(e.script, r.run.value, n, r.lease.host, j.timeout)
                   && r.published == Publishes(e.script, r.run.value)
                   && exists cleaned ::
                        Supervised(e.script.run, j.timeout, r.sent, j.pidPath(n), cleaned, r.run.value, r.fate))
             && r.handling == Handled(outcome, n, r.lease.host, e.unrecorded)
    requires r.handling.quarantine ==> !r.freed
    ensures Went(j, r, n)
  {
    if r.run.Some? {
      var e := j.around(n);
      HandledConcludes(e.script, j.timeout, r.run.value, n, r.lease.host, e.unrecorded);
      var cleaned :| Supervised(e.script.run, j.timeout, r.sent, j.pidPath(n), cleaned, r.run.value, r.fate);
      if r.fate == Unconfirmed { QuarantineExact(e.script, j.timeout, cleaned, n, r.lease.host, e.unrecorded); }
    }
  }

  /** The lease calls of an attempt are one bracket: whatever happens, the lease is released once. */
  lemma CallsBalance(j: Job, r: Record)
    ensures BracketOf(CallsOf(j, r)) == Idle
    ensures var calls := CallsOf(j, r);
            calls[0] == Acquires(r.lease.token) && calls[|calls| - 1] == Releases(r.lease.token)
    ensures r.run.Some? && Handles(j, r) ==> Registers(r.lease.token) in CallsOf(j, r)
    ensures Quarantines(r.lease.host) in CallsOf(j, r) <==> r.handling.quarantine
  {
    var t, reg := r.lease.token, Registering(r.lease, j.around(r.number));
    RegisterBalances(t);
    assert [Acquires(t)] + [Registers(t)] == [Acquires(t), Registers(t)] && [Acquires(t)] + [] == [Acquires(t)];
    LetGoBalances([Acquires(t)] + reg, r.lease, r.handling.quarantine);
    assert CallsOf(j, r) == [Acquires(t)] + reg + LettingGo(r.lease, r.handling.quarantine);
  }

  lemma LetGoBalances(log: seq<Call>, lease: Lease, quarantine: bool)
    requires BracketOf(log) == Holding(lease.token)
    ensures BracketOf(log + LettingGo(lease, quarantine)) == Idle
  {
    var all := log + LettingGo(lease, quarantine);
    if quarantine {
      assert all[..|all| - 1] == log + [Quarantines(lease.host)];
      assert all[..|all| - 1][..|log|] == log;
    } else {
      assert all[..|all| - 1] == log;
    }
  }

  /** A lease that was just found is held, or was dropped since. */
  lemma FoundIsHeld(p: Pool, attemptId: string, tried: set<Host>, e: Surroundings, i: nat, l: Lease)
    requires p.Valid() && attemptId != "" && Possible(e) && Finds(p, attemptId, tried, e, i, Leased(l))
    requires ProperRun(Looked(attemptId, tried, e, i))
    ensures HeldOrGone(After(p, Looked(attemptId, tried, e, i)), l)
  {
    LookedIsStep(p, attemptId, tried, e, i);
  }

  /** The pool went from start through an attempt of the job. */
  lemma RunsTogether(j: Job, r: Record, looked: Pool, tried: Pool, parted: Pool)
    requires r.start.Valid() && Possible(j.around(r.number))
    requires var e := j.around(r.number);
             && ProperRun(Looked(j.attemptId, r.tried, e, r.waits))
             && looked == After(r.start, Looked(j.attemptId, r.tried, e, r.waits))
             && ProperRun(Trying(r.lease, e, j.pidPath(r.number)))
             && tried == After(looked, Trying(r.lease, e, j.pidPath(r.number)))
             && ProperRun(Parting(r.lease, r.handling.quarantine, e))
             && parted == After(tried, Parting(r.lease, r.handling.quarantine, e))
    ensures ProperRun(OpsBefore(j, r)) && parted == After(r.start, OpsBefore(j, r))
    ensures ProperRun(OpsOf(j, r)) && Released(parted, r.lease.token) == After(r.start, OpsOf(j, r))
  {
    var e := j.around(r.number);
    var ops := Trying(r.lease, e, j.pidPath(r.number));
    AfterConcat(looked, ops, Parting(r.lease, r.handling.quarantine, e));
    AfterConcat(r.start, Looked(j.attemptId, r.tried, e, r.waits), ops + Parting(r.lease, r.handling.quarantine, e));
    AfterThen(r.start, OpsBefore(j, r), Release(r.lease.token));
  }

  /** From the pool p, the acquisition of the n-th attempt came back after so many waits without a
      lease, leaving the pool q; if it is still waiting, there was no slot at any of its looks. */
  ghost predicate TurnedAway(j: Job, p: Pool, tried: set<Host>, n: nat, waits: nat, a: Acquisition, q: Pool)
    requires p.Valid()
  {
    var e := j.around(n);
    && !a.Leased? && Searched(p, j.attemptId, tried, e, waits, a, q)
    && (a.Waiting? ==> waits == |e.waits|)
  }

  // --- the job ---------------------------------------------------------------------------

  datatype JobOutcome = Finished(result: JobResult) | JobRaised(exc: Exc) | StillWaiting

  const NO_HOSTS := "no healthy hosts remain"

  ghost function HostsTried(trace: seq<Record>): set<Host> {
    set r | r in trace :: r.lease.host
  }

  ghost predicate Retried(j: Job, r: Record) {
    && r.handling.result.Some? && !r.published
    && r.handling.result.value.failure.Some? && r.handling.result.value.failure.value in j.policy.retryOn
  }

  ghost predicate AllRetried(j: Job, trace: seq<Record>) { forall k :: 0 <= k < |trace| ==> Retried(j, trace[k]) }

  /** Every attempt went as Went says with the hosts of the earlier attempts as the tried ones, and
      every attempt before the last failed in a way that the policy retries. */
  ghost predicate Faithful(j: Job, trace: seq<Record>) {
    && |trace| <= j.policy.maxAttempts
    && (forall k: nat {:trigger WentAt(j, trace, k)} :: k < |trace| ==> WentAt(j, trace, k))
    && (forall k :: 0 <= k < |trace| - 1 ==> Retried(j, trace[k]))
  }

  ghost predicate WentAt(j: Job, trace: seq<Record>, k: nat)
    requires k < |trace|
  {
    Went(j, trace[k], k + 1) && trace[k].tried == HostsTried(trace[..k])
  }

  function AllOps(j: Job, trace: seq<Record>): seq<Op> {
    if trace == [] then [] else AllOps(j, trace[..|trace| - 1]) + OpsOf(j, trace[|trace| - 1])
  }

  function AllCalls(j: Job, trace: seq<Record>): seq<Call> {
    if trace == [] then [] else AllCalls(j, trace[..|trace| - 1]) + CallsOf(j, trace[|trace| - 1])
  }

  /** The pool went from start to p by serving what it serves during these attempts, one after the
      other: each attempt starts from the pool where the one before ended. */
  ghost predicate Served(j: Job, start: Pool, trace: seq<Record>, p: Pool)
    requires start.Valid()
  {
    && ProperRun(AllOps(j, trace)) && p == After(start, AllOps(j, trace))
    && forall k: nat {:trigger StartedAt(j, start, trace, k)} :: k < |trace| ==> StartedAt(j, start, trace, k)
  }

  ghost predicate StartedAt(j: Job, start: Pool, trace: seq<Record>, k: nat)
    requires start.Valid() && k < |trace|
  {
    ProperRun(AllOps(j, trace[..k])) && trace[k].start == After(start, AllOps(j, trace[..k]))
  }

  /** None of the leases of these attempts is held any more. */
  ghost predicate AllReleased(p: Pool, trace: seq<Record>) {
    forall k :: 0 <= k < |trace| ==> HeldOrGone(p, trace[k].lease) && trace[k].lease.token !in p.leases
  }

  /** What the connection of the k-th attempt carried. */
  function CommandsAt(trace: seq<Record>, k: nat): seq<Issued> { if k < |trace| then trace[k].sent else [] }

  lemma CommandsMore(trace: seq<Record>, r: Record, k: nat)
    ensures CommandsAt(trace + [r], k) == if k == |trace| then r.sent else CommandsAt(trace, k)
  {}

  /** The commands of the attempts are the commands that their connections carried, and nothing was
      sent over the others. */
  ghost predicate Sent(remotes: seq<Remote>, trace: seq<Record>)
    reads remotes
  {
    && |trace| <= |remotes|
    && forall k: nat :: k < |remotes| ==> remotes[k].Valid() && remotes[k].issued == CommandsAt(trace, k)
  }

  ghost predicate Apart(remotes: seq<Remote>) {
    forall i, k :: 0 <= i < k < |remotes| ==> remotes[i] != remotes[k]
  }

  ghost predicate Lists(attempts: seq<AttemptResult>, trace: seq<Record>) {
    && |attempts| == |trace|
    && forall k :: 0 <= k < |trace| ==> trace[k].handling.result == Some(attempts[k])
  }

  /** The job's result lists the attempts as they went, numbered from 1, at least one and at most
      the allowed number; it takes as long as they did together; code and host are those of the last
      attempt.  The job succeeds, naming the output directory, exactly when the last attempt
      published the outputs; a job that ran out of hosts fails and says so. */
  ghost predicate Reports(j: Job, result: JobResult, trace: seq<Record>, outOfHosts: bool) {
    var n := |result.attempts|;
    && 1 <= n <= j.policy.maxAttempts && Lists(result.attempts, trace)
    && (forall k :: 0 <= k < n ==> result.attempts[k].number == k + 1)
    && result.duration == Total(result.attempts)
    && result.host == trace[n - 1].lease.host && result.code == result.attempts[n - 1].code
    && (result.status == Succeeded <==> trace[n - 1].published)
    && result.outputDir == (if trace[n - 1].published then Some(j.outputs) else None)
    && (if outOfHosts then result.status == Failed && result.error == Some(NO_HOSTS)
        else result.status == result.attempts[n - 1].status && result.error == result.attempts[n - 1].error)
  }

  /** The policy allows no further attempt. */
  ghost predicate Settled(j: Job, trace: seq<Record>)
    requires trace != []
  {
    !Retried(j, trace[|trace| - 1]) || |trace| == j.policy.maxAttempts
  }

  /** How a job may end: with a result that reports the attempts, once the policy allows no further
      one; or with what the last attempt raised; or turned away by the pool from a further attempt,
      because no host is live or while still waiting.  The calls are those of the attempts. */
  ghost predicate Ends(j: Job, out: JobOutcome, calls: seq<Call>, trace: seq<Record>, turned: Option<nat>) {
    && calls == AllCalls(j, trace) && Faithful(j, trace)
    && (turned.Some? ==> |trace| < j.policy.maxAttempts && AllRetried(j, trace))
    && match out
       case Finished(result) =>
         trace != [] && Reports(j, result, trace, turned.Some?) && (turned.None? ==> Settled(j, trace))
       case JobRaised(e) =>
         if turned.Some? then trace == [] && e == Exc(Dispatcher, NO_HOSTS)
         else trace != [] && trace[|trace| - 1].handling.raised == Some(e)
       case StillWaiting => turned.Some?
  }

  /** The pool went from start to q: through the attempts, and through the acquisition of a further
      one if the job was turned away from it, which found no slot and either no host or no end of
      waiting. */
  ghost predicate Leaves(j: Job, start: Pool, trace: seq<Record>, turned: Option<nat>, out: JobOutcome, q: Pool)
    requires start.Valid()
  {
    && ProperRun(AllOps(j, trace))
    && var p := After(start, AllOps(j, trace));
    && Served(j, start, trace, p)
    && match turned
       case None => q == p
       case Some(waits) =>
         TurnedAway(j, p, HostsTried(trace), |trace| + 1, waits, if out.StillWaiting? then Waiting else NoHosts, q)
  }

  /** The whole story of a job that ended. */
  ghost predicate Tells(j: Job, start: Pool, out: JobOutcome, calls: seq<Call>, trace: seq<Record>, turned: Option<nat>,
                        q: Pool)
    requires start.Valid()
  {
    Ends(j, out, calls, trace, turned) && Leaves(j, start, trace, turned, out, q) && AllReleased(q, trace)
  }

  /** The state of the loop before an attempt: all attempts so far are kept, were retried, and leave
      room for another, and the pool came from start to p through them. */
  ghost predicate Underway(j: Job, start: Pool, attempts: seq<AttemptResult>, tried: set<Host>, calls: seq<Call>,
                           trace: seq<Record>, p: Pool)
    requires start.Valid()
  {
    && Kept(j, attempts, tried, calls, trace) && Served(j, start, trace, p) && AllReleased(p, trace)
  }

  ghost predicate Kept(j: Job, attempts: seq<AttemptResult>, tried: set<Host>, calls: seq<Call>, trace: seq<Record>)
  {
    && calls == AllCalls(j, trace) && |attempts| < j.policy.maxAttempts
    && tried == HostsTried(trace) && Lists(attempts, trace)
    && Faithful(j, trace) && AllRetried(j, trace)
  }

  /** There is a trace that tells the whole story of a job that ended, and of its connections. */
  ghost predicate Told(j: Job, start: Pool, out: JobOutcome, calls: seq<Call>, q: Pool, remotes: seq<Remote>)
    requires start.Valid()
    reads remotes
  {
    exists trace, turned :: Tells(j, start, out, calls, trace, turned, q) && Sent(remotes, trace)
  }

  /** There is a trace that tells the story of a job so far. */
  ghost predicate OnTheWay(j: Job, start: Pool, attempts: seq<AttemptResult>, tried: set<Host>, calls: seq<Call>,
                           p: Pool, remotes: seq<Remote>)
    requires start.Valid()
    reads remotes
  {
    exists trace :: Underway(j, start, attempts, tried, calls, trace, p) && Sent(remotes, trace)
  }

  /** What the job ends with after the acquisition a, followed by an attempt handled as h if it got a
      lease; nothing if it goes on. */
  function Ending(j: Job, attempts: seq<AttemptResult>, a: Acquisition, h: Handling): Option<JobOutcome> {
    if !a.Leased? then Some(Unserved(j, attempts, a))
    else if h.raised.Some? then Some(JobRaised(h.raised.value))
    else if h.result.Some? && Final(j, attempts + [h.result.value])
    then Some(Finished(Assembled(attempts + [h.result.value], j.outputs)))
    else None
  }

  lemma NothingYet(j: Job, start: Pool, remotes: seq<Remote>)
    requires start.Valid() && Runnable(j) && Sent(remotes, [])
    ensures OnTheWay(j, start, [], {}, [], start, remotes)
  {
    assert Underway(j, start, [], {}, [], [], start);
  }

  lemma LeavesDone(j: Job, start: Pool, trace: seq<Record>, out: JobOutcome, q: Pool)
    requires start.Valid() && Served(j, start, trace, q)
    ensures Leaves(j, start, trace, None, out, q)
  {}

  lemma LeavesTurned(j: Job, start: Pool, trace: seq<Record>, p: Pool, tried: set<Host>, n: nat, waits: nat,
                     a: Acquisition, out: JobOutcome, q: Pool)
    requires start.Valid() && p.Valid() && Served(j, start, trace, p)
    requires tried == HostsTried(trace) && n == |trace| + 1 && TurnedAway(j, p, tried, n, waits, a, q)
    requires a.Waiting? <==> out.StillWaiting?
    ensures Leaves(j, start, trace, Some(waits), out, q)
  {}

  /** What the job ends with when an acquisition got no lease. */
  function Unserved(j: Job, attempts: seq<AttemptResult>, a: Acquisition): JobOutcome {
    if a.Waiting? then StillWaiting
    else if attempts == [] then JobRaised(Exc(Dispatcher, NO_HOSTS))
    else Finished(OutOfHosts(attempts, j.outputs))
  }

  /** The last of these attempts is the job's last. */
  predicate Final(j: Job, attempts: seq<AttemptResult>)
    requires attempts != []
  {
    var last := attempts[|attempts| - 1];
    last.status == Succeeded || !ShouldRetry(j.policy, last.failure, |attempts|)
  }

  function OutOfHosts(attempts: seq<AttemptResult>, outputs: string): JobResult
    requires attempts != []
  {
    Assembled(attempts, outputs).(status := Failed, outputDir := None, error := Some(NO_HOSTS))
  }

  lemma ReleasedMore(p: Pool, trace: seq<Record>, r: Record)
    requires AllReleased(p, trace) && HeldOrGone(p, r.lease) && r.lease.token !in p.leases
    ensures AllReleased(p, trace + [r])
  {}

  lemma {:induction false} ServedMore(j: Job, start: Pool, trace: seq<Record>, p: Pool, r: Record, q: Pool)
    requires start.Valid() && p.Valid() && Served(j, start, trace, p)
    requires r.start == p && ProperRun(OpsOf(j, r)) && q == After(p, OpsOf(j, r))
    ensures Served(j, start, trace + [r], q)
  {
    var longer := trace + [r];
    assert longer[..|trace|] == trace;
    AfterConcat(start, AllOps(j, trace), OpsOf(j, r));
    forall k: nat | k < |longer| ensures StartedAt(j, start, longer, k) {
      if k < |trace| { assert StartedAt(j, start, trace, k) && longer[..k] == trace[..k]; }
    }
  }

  lemma StaysReleased(p: Pool, ops: seq<Op>, trace: seq<Record>)
    requires p.Valid() && ProperRun(ops) && AllReleased(p, trace)
    ensures AllReleased(After(p, ops), trace)
  {
    forall k | 0 <= k < |trace|
      ensures HeldOrGone(After(p, ops), trace[k].lease) && trace[k].lease.token !in After(p, ops).leases
    {
      NeverReissued(p, ops, trace[k].lease);
    }
  }

  /** Turned away from a further attempt, the job is left waiting, or is out of hosts. */
  lemma {:induction false} Stops(j: Job, start: Pool, attempts: seq<AttemptResult>, tried: set<Host>, calls: seq<Call>,
                                 more: seq<Call>, trace: seq<Record>, p: Pool, waits: nat, a: Acquisition, q: Pool,
                                 remotes: seq<Remote>)
    requires start.Valid() && p.Valid() && Underway(j, start, attempts, tried, calls, trace, p)
    requires j.attemptId != "" && Possible(j.around(|attempts| + 1)) && more == [] && Sent(remotes, trace)
    requires TurnedAway(j, p, tried, |attempts| + 1, waits, a, q)
    ensures Told(j, start, Unserved(j, attempts, a), calls + more, q, remotes)
  {
    var out := Unserved(j, attempts, a);
    assert calls + more == calls;
    StaysReleased(p, Looked(j.attemptId, tried, j.around(|attempts| + 1), waits), trace);
    LeavesTurned(j, start, trace, p, tried, |attempts| + 1, waits, a, out, q);
    EndsUnserved(j, attempts, tried, calls, trace, waits, a);
    assert Tells(j, start, out, calls, trace, Some(waits), q);
  }

  lemma {:induction false} EndsUnserved(j: Job, attempts: seq<AttemptResult>, tried: set<Host>, calls: seq<Call>,
                                        trace: seq<Record>, waits: nat, a: Acquisition)
    requires Kept(j, attempts, tried, calls, trace)
    ensures Ends(j, Unserved(j, attempts, a), calls, trace, Some(waits))
  {
    if attempts != [] {
      assert Retried(j, trace[|trace| - 1]);
      ReportsHold(j, attempts, trace);
    }
  }

  /** One more attempt either sends the job round the loop again or ends it. */
  lemma {:induction false} Advance(j: Job, start: Pool, attempts: seq<AttemptResult>, tried: set<Host>,
                                   calls: seq<Call>, trace: seq<Record>, p: Pool, r: Record, q: Pool,
                                   remotes: seq<Remote>)
    requires start.Valid() && p.Valid() && Underway(j, start, attempts, tried, calls, trace, p)
    requires r.tried == tried && r.start == p && Went(j, r, |attempts| + 1) && Sent(remotes, trace + [r])
    requires ProperRun(OpsOf(j, r)) && q == After(p, OpsOf(j, r))
    requires HeldOrGone(q, r.lease) && r.lease.token !in q.leases
    ensures r.handling.raised.None? <==> r.handling.result.Some?
    ensures r.handling.raised.Some? ==>
              Told(j, start, JobRaised(r.handling.raised.value), calls + CallsOf(j, r), q, remotes)
    ensures r.handling.result.Some? ==>
              var longer := attempts + [r.handling.result.value];
              if Final(j, longer)
              then Told(j, start, Finished(Assembled(longer, j.outputs)), calls + CallsOf(j, r), q, remotes)
              else |longer| < j.policy.maxAttempts
                   && OnTheWay(j, start, longer, tried + {r.lease.host}, calls + CallsOf(j, r), q, remotes)
  {
    ServedMore(j, start, trace, p, r, q);
    StaysReleased(p, OpsOf(j, r), trace);
    ReleasedMore(q, trace, r);
    Extends(j, trace, r);
    var c, t := calls + CallsOf(j, r), trace + [r];
    if r.handling.raised.Some? {
      var out := JobRaised(r.handling.raised.value);
      LeavesDone(j, start, t, out, q);
      assert Ends(j, out, c, t, None);
      assert Tells(j, start, out, c, t, None, q);
    } else {
      var longer := attempts + [r.handling.result.value];
      if Final(j, longer) {
        var out := Finished(Assembled(longer, j.outputs));
        LeavesDone(j, start, t, out, q);
        EndsFinished(j, attempts, trace, r);
        assert Tells(j, start, out, c, t, None, q);
      } else {
        GoesOn(j, attempts, tried, calls, trace, r);
        assert Underway(j, start, longer, tried + {r.lease.host}, c, t, q);
      }
    }
  }

  lemma {:induction false} EndsFinished(j: Job, attempts: seq<AttemptResult>, trace: seq<Record>, r: Record)
    requires Lists(attempts, trace) && Faithful(j, trace + [r]) && r.handling.result.Some?
    requires Final(j, attempts + [r.handling.result.value])
    ensures var longer := attempts + [r.handling.result.value];
            Ends(j, Finished(Assembled(longer, j.outputs)), AllCalls(j, trace + [r]), trace + [r], None)
  {
    ListsOneMore(attempts, trace, r);
    var longer := attempts + [r.handling.result.value];
    ReportsHold(j, longer, trace + [r]);
    ConcludesAt(j, longer, trace + [r], |trace|);
  }

  lemma {:induction false} GoesOn(j: Job, attempts: seq<AttemptResult>, tried: set<Host>, calls: seq<Call>,
                                  trace: seq<Record>, r: Record)
    requires Kept(j, attempts, tried, calls, trace) && Faithful(j, trace + [r]) && r.handling.result.Some?
    requires AllCalls(j, trace + [r]) == AllCalls(j, trace) + CallsOf(j, r)
    requires !Final(j, attempts + [r.handling.result.value])
    ensures Kept(j, attempts + [r.handling.result.value], tried + {r.lease.host}, calls + CallsOf(j, r), trace + [r])
  {
    var longer := attempts + [r.handling.result.value];
    ListsOneMore(attempts, trace, r);
    TriedGrows(trace, r);
    ConcludesAt(j, longer, trace + [r], |trace|);
    assert Retried(j, r);
    AllRetriedMore(j, trace, r);
  }

  lemma AllRetriedMore(j: Job, trace: seq<Record>, r: Record)
    requires AllRetried(j, trace) && Retried(j, r)
    ensures AllRetried(j, trace + [r])
  {}

  lemma ListsOneMore(attempts: seq<AttemptResult>, trace: seq<Record>, r: Record)
    requires Lists(attempts, trace) && r.handling.result.Some?
    ensures Lists(attempts + [r.handling.result.value], trace + [r])
  {}

  lemma {:induction false} Extends(j: Job, trace: seq<Record>, r: Record)
    requires Faithful(j, trace) && AllRetried(j, trace) && |trace| < j.policy.maxAttempts
    requires Went(j, r, |trace| + 1) && r.tried == HostsTried(trace)
    ensures Faithful(j, trace + [r]) && AllCalls(j, trace + [r]) == AllCalls(j, trace) + CallsOf(j, r)
  {
    var longer := trace + [r];
    assert longer[..|trace|] == trace;
    forall k: nat | k < |longer| ensures WentAt(j, longer, k) {
      if k < |trace| { assert WentAt(j, trace, k) && longer[..k] == trace[..k] && longer[k] == trace[k]; }
    }
  }

  lemma TriedGrows(trace: seq<Record>, r: Record)
    ensures HostsTried(trace + [r]) == HostsTried(trace) + {r.lease.host}
  {
    assert forall x :: x in trace + [r] <==> x in trace || x == r;
  }

  /** The assembled result reports the attempts, and so does the one that a job out of hosts returns,
      if the last attempt was not a success. */
  lemma {:induction false} ReportsHold(j: Job, attempts: seq<AttemptResult>, trace: seq<Record>)
    requires attempts != [] && Lists(attempts, trace) && Faithful(j, trace)
    ensures Reports(j, Assembled(attempts, j.outputs), trace, false)
    ensures !trace[|trace| - 1].published ==> Reports(j, OutOfHosts(attempts, j.outputs), trace, true)
  {
    forall k | 0 <= k < |attempts| ensures attempts[k].number == k + 1 { ConcludesAt(j, attempts, trace, k); }
    ConcludesAt(j, attempts, trace, |attempts| - 1);
  }

  lemma ConcludesAt(j: Job, attempts: seq<AttemptResult>, trace: seq<Record>, k: nat)
    requires Lists(attempts, trace) && Faithful(j, trace) && k < |trace|
    ensures attempts[k].number == k + 1 && attempts[k].host == trace[k].lease.host
    ensures attempts[k].status == Succeeded <==> trace[k].published
  {
    assert WentAt(j, trace, k);
  }

  // --- what run_job makes of an attempt ------------------------------------------------------

  /** run_job's answer to the exception x of an attempt.  A lost lease is a host lost, a transport
      error an ssh failure, a dispatcher error an internal one, and an interrupt cancels; anything
      else leaves the job.  The host is quarantined if the cleanup failed, and also if the lease was
      lost, whatever the cleanup did. */
  ghost predicate Answers(h: Handling, x: Exc, cleanupFailed: bool, n: nat, host: string, unrecorded: Option<string>) {
    var known := x.kind.LeaseLost? || x.kind.Transport? || x.kind.Dispatcher? || x.kind.Keyboard?;
    && (h.quarantine <==> cleanupFailed || x.kind.LeaseLost?)
    && (!known ==> h.raised == Some(x) && h.result == None)
    && (known && unrecorded.Some? ==> h.raised == Some(Exc(Other, unrecorded.value)) && h.result == None)
    && (known && unrecorded.None? ==>
          && h.raised == None && h.result.Some? && var a := h.result.value;
          && a.number == n && a.host == host && a.code == None && a.duration == 0.0
          && (x.kind.Keyboard? ==> a.status == Cancelled && a.failure == None && a.error == Some("cancelled"))
          && (!x.kind.Keyboard? ==> a.status == Failed && a.error == Some(x.message))
          && (x.kind.LeaseLost? ==> a.failure == Some(HostLost))
          && (x.kind.Transport? ==> a.failure == Some(SshFailure))
          && (x.kind.Dispatcher? ==> a.failure == Some(Internal)))
  }

  /** What keeps the runner from being invoked comes in the order of the steps. */
  lemma PreventedInOrder(e: Surroundings)
    ensures e.lookup.Some? ==> Prevented(e) == e.lookup
    ensures e.lookup.None? && e.register.Some? ==> Prevented(e) == e.register
    ensures e.lookup.None? && e.register.None? && e.connect.Some? ==> Prevented(e) == e.connect
    ensures e.lookup.None? && e.register.None? && e.connect.None? ==> Prevented(e) == e.script.prepare
  {}

  /** What a job keeps of an attempt, or what leaves it, for each way the attempt can end. */
  lemma {:induction false} HandlingMeans(j: Job, r: Record, n: nat)
    requires Went(j, r, n)
    ensures var e := j.around(n);
            && (r.run.None? ==>
                  Prevented(e).Some? && Answers(r.handling, Prevented(e).value, false, n, r.lease.host, e.unrecorded))
            && (r.run.Some? ==>
                  exists outcome ::
                    && Explains(e.script, r.run.value, n, r.lease.host, j.timeout, outcome)
                    && HandledAs(r.handling, outcome, n, r.lease.host, e.unrecorded))
  {
    if r.run.Some? {
      var e := j.around(n);
      ConcludedExplains(e.script, r.run.value, n, r.lease.host, j.timeout);
      assert HandledAs(r.handling, Concluded(e.script, r.run.value, n, r.lease.host, j.timeout), n, r.lease.host,
                       e.unrecorded);
    }
  }

  /** A result is kept, with the host quarantined first if its cleanup was not confirmed; an exception
      is answered. */
  ghost predicate HandledAs(h: Handling, outcome: AttemptOutcome, n: nat, host: string, unrecorded: Option<string>) {
    match outcome
    case Produced(a) => h == Handling(false, Some(a), None)
    case CleanupRaised(Some(a), _) => h == Handling(true, Some(a), None)
    case CleanupRaised(None, Some(x)) => Answers(h, x, true, n, host, unrecorded)
    case CleanupRaised(None, None) => h.quarantine
    case Raises(x) => Answers(h, x, false, n, host, unrecorded)
  }

  /** The duration of a job is that of its attempts together. */
  lemma {:induction false} TotalConcat(a: seq<AttemptResult>, b: seq<AttemptResult>)
    ensures Total(a + b) == Total(a) + Total(b)
  {
    if b == [] {
      assert a + b == a;
    } else {
      TotalConcat(a, b[..|b| - 1]);
      assert (a + b)[..|a + b| - 1] == a + b[..|b| - 1];
    }
  }

  lemma TotalOfOne(a: AttemptResult)
    ensures Total([]) == 0.0 && Total([a]) == a.duration
  {
    assert [a][..0] == [];
  }

  /** The policy retries exactly the failures it names, and only while attempts remain. */
  lemma RetriesExactly(policy: RetryPolicy, kind: FailureKind, completed: nat)
    ensures ShouldRetry(policy, Some(kind), completed) <==>
            kind in policy.retryOn && completed + 1 <= policy.maxAttempts
    ensures !ShouldRetry(policy, None, completed)
  {}

  // --- what a job does to the pool ------------------------------------------------------------

  /** What an attempt does to the pool: it registers the pid path of its lease before the runner is
      invoked; a quarantine that was decided is in place, and holds no lease, before the release. */
  lemma {:induction false} RegistersAndQuarantines(j: Job, r: Record, n: nat)
    requires Went(j, r, n)
    ensures r.run.Some? ==> RegisterPid(r.lease.token, j.pidPath(n)) in OpsBefore(j, r)
    ensures r.handling.quarantine ==>
              exists k :: 0 <= k < |OpsBefore(j, r)| && OpsBefore(j, r)[k] == Quarantine(r.lease.host)
                          && QuarantinedAfter(r.start, OpsBefore(j, r), k, r.lease.host)
  {
    var e := j.around(n);
    var first, second, third := Looked(j.attemptId, r.tried, e, r.waits), Trying(r.lease, e, j.pidPath(n)),
      Parting(r.lease, r.handling.quarantine, e);
    if r.run.Some? {
      var k := |first| + |e.registering|;
      assert second[|e.registering|] == RegisterPid(r.lease.token, j.pidPath(n));
      assert OpsBefore(j, r)[k] == second[|e.registering|];
    }
    if r.handling.quarantine {
      var k := |first| + |second| + |e.quarantining|;
      assert third[|e.quarantining|] == Quarantine(r.lease.host);
      assert OpsBefore(j, r)[k] == third[|e.quarantining|];
      QuarantineTakes(r.start, OpsBefore(j, r), k, r.lease.host);
    }
  }

  /** After the first k + 1 of these calls the host is quarantined and holds no lease. */
  ghost predicate QuarantinedAfter(p: Pool, ops: seq<Op>, k: nat, h: Host)
    requires p.Valid() && ProperRun(ops) && k < |ops|
  {
    var q := After(p, ops[..k + 1]);
    h in q.quarantined && forall t :: t in q.leases ==> q.leases[t].host != h
  }

  lemma QuarantineTakes(p: Pool, ops: seq<Op>, k: nat, h: Host)
    requires p.Valid() && ProperRun(ops) && k < |ops| && ops[k] == Quarantine(h)
    ensures QuarantinedAfter(p, ops, k, h)
  {
    assert ops[..k + 1] == ops[..k] + [ops[k]];
    AfterThen(p, ops[..k], ops[k]);
    NoLeaseOnQuarantined(After(p, ops[..k + 1]), h);
  }

  // --- what the trace of a job says ----------------------------------------------------------

  /** Every lease acquired is released before the next is acquired and before the job ends. */
  lemma {:induction false} CallsBalanced(j: Job, trace: seq<Record>)
    ensures BracketOf(AllCalls(j, trace)) == Idle
  {
    if trace != [] {
      CallsBalanced(j, trace[..|trace| - 1]);
      CallsBalance(j, trace[|trace| - 1]);
      BracketConcat(AllCalls(j, trace[..|trace| - 1]), CallsOf(j, trace[|trace| - 1]));
    }
  }

  /** What a bracket is: a lease that was acquired is released by a later call, and before any other
      lease is acquired. */
  lemma {:induction false} BracketMeans(calls: seq<Call>, i: nat)
    requires BracketOf(calls) != Broken && i < |calls| && calls[i].Acquires?
    ensures BracketOf(calls) == Holding(calls[i].token) || exists m :: ReleasedBy(calls, i, m)
    ensures forall k :: i < k < |calls| && calls[k].Acquires? ==> exists m :: m < k && ReleasedBy(calls, i, m)
    decreases |calls|
  {
    var n := |calls| - 1;
    if i < n {
      var before := calls[..n];
      BracketMeans(before, i);
      if m :| ReleasedBy(before, i, m) { assert ReleasedBy(calls, i, m); }
      if BracketOf(before) == Holding(calls[i].token) && calls[n].Releases? { assert ReleasedBy(calls, i, n); }
      forall k | i < k < |calls| && calls[k].Acquires? ensures exists m :: m < k && ReleasedBy(calls, i, m) {
        if k < n {
          assert before[k].Acquires?;
          var m :| m < k && ReleasedBy(before, i, m);
          assert ReleasedBy(calls, i, m);
        }
      }
    }
  }

  predicate ReleasedBy(calls: seq<Call>, i: nat, m: int)
    requires i < |calls| && calls[i].Acquires?
  {
    i < m < |calls| && calls[m] == Releases(calls[i].token)
  }

  /** The outputs of a job are published at most once, by its last attempt. */
  lemma {:induction false} PublishedOnce(j: Job, trace: seq<Record>, i: nat, k: nat)
    requires Faithful(j, trace) && i < |trace| && k < |trace| && trace[i].published && trace[k].published
    ensures i == k == |trace| - 1
  {
    forall m | 0 <= m < |trace| - 1 ensures !trace[m].published { assert Retried(j, trace[m]); }
  }

  /** The pool that granted the lease of the k-th attempt: what became of the pool from which the job
      started when the earlier attempts were over and the calls before the granting look served. */
  ghost function GrantingPool(j: Job, start: Pool, trace: seq<Record>, k: nat): Pool
    requires start.Valid() && k < |trace|
    requires ProperRun(AllOps(j, trace[..k]))
    requires ProperRun(Arriving(j.attemptId, HostsTried(trace[..k]), j.around(k + 1), trace[k].waits))
  {
    After(After(start, AllOps(j, trace[..k])),
          Arriving(j.attemptId, HostsTried(trace[..k]), j.around(k + 1), trace[k].waits))
  }

  /** Fresh hosts first: the lease of the k-th attempt is on a best host of the pool that granted it,
      among the live hosts that no earlier attempt was on while there are any. */
  lemma {:induction false} RepeatOnlyWhenAllTried(j: Job, start: Pool, trace: seq<Record>, p: Pool, k: nat)
    requires j.attemptId != "" && start.Valid() && Faithful(j, trace) && Served(j, start, trace, p) && k < |trace|
    ensures ProperRun(AllOps(j, trace[..k]))
    ensures ProperRun(Arriving(j.attemptId, HostsTried(trace[..k]), j.around(k + 1), trace[k].waits))
    ensures var source, tried := GrantingPool(j, start, trace, k), HostsTried(trace[..k]);
            && Acquired(source, j.attemptId, tried, j.around(k + 1).now).1 == Granted(trace[k].lease)
            && source.IsBest(source.Candidates(tried), trace[k].lease.host)
            && (trace[k].lease.host in tried ==> source.Live() <= tried)
  {
    assert StartedAt(j, start, trace, k) && WentAt(j, trace, k);
    FreshHost(j, trace[k]);
    GrantFound(j, trace[k]);
  }

  lemma GrantFound(j: Job, r: Record)
    requires Transacted(j, r)
    ensures var e := j.around(r.number);
            Acquired(After(r.start, Arriving(j.attemptId, r.tried, e, r.waits)), j.attemptId, r.tried, e.now).1
            == Granted(r.lease)
  {}

  /** For every attempt of a job: if its release frees the slot in the pool as it was then, the runner
      was never started, or ended by itself, or is confirmed gone by what the host answered over the
      connection of the attempt; except exactly when the cleanup failure was swallowed. */
  lemma {:induction false} HandbacksSafe(j: Job, trace: seq<Record>, k: nat)
    requires Faithful(j, trace) && k < |trace|
    ensures trace[k].start.Valid() && ProperRun(OpsBefore(j, trace[k]))
    ensures var r, s := trace[k], j.around(k + 1).script;
            r.lease.token in After(r.start, OpsBefore(j, r)).leases ==>
              ((|| r.run.None? || s.run.start.Some? || RunnerEnded(s.run, j.timeout)
                || (ConfirmsGone(r.sent, j.pidPath(k + 1)) && s.run.joined))
               <==> !(r.run.Some? && Swallowed(s, r.run.value) && s.run.start.None? && !RunnerEnded(s.run, j.timeout)))
  {
    assert WentAt(j, trace, k);
    if trace[k].lease.token in After(trace[k].start, OpsBefore(j, trace[k])).leases {
      HandbackExact(j, trace[k], k + 1);
    }
  }
}
