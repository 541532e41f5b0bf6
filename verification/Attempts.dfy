/** One attempt on one host: supervising the runner, cleaning up after it, and classifying what
    came of it.  What the outside world does is given as a script of its answers. */
module Attempts {
  import opened Basics
  import opened Remotes

  datatype Kind = LeaseLost | Transport | Dispatcher | Keyboard | Timeout | Other

  datatype Exc = Exc(kind: Kind, message: string)

  datatype Status = Succeeded | Failed | TimedOut | Cancelled

  datatype FailureKind = CommandFailure | SshFailure | TimeoutFailure | OutputMissing
                       | CollectionFailure | HostLost | Internal

  datatype AttemptResult = AttemptResult(number: nat, host: string, status: Status,
                                         code: Option<int>, duration: Time,
                                         failure: Option<FailureKind>, error: Option<string>)

  // --- supervising the runner ------------------------------------------------------

  /** One pass of the wait loop while the worker is alive: the exception of the lease check if it
      raises one, the clock reading, and an exception raised while waiting (an interrupt). */
  datatype Poll = Poll(check: Option<Exc>, now: Time, interrupt: Option<Exc>)

  /** start: failure to start the worker; polls: the passes until the worker is found dead;
      worker: what the invocation raised; lastCheck: the lease check after it; joined: whether the
      worker was seen to end after the cleanup. */
  datatype RunScript = RunScript(begun: Time, start: Option<Exc>, polls: seq<Poll>,
                                 worker: Option<Exc>, lastCheck: Option<Exc>, joined: bool)

  datatype RunOutcome = Completed(timedOut: bool) | Propagated(exc: Exc) | CleanupFailed(cause: Exc)

  /** What is known about the runner's processes when supervision ends. */
  datatype Fate = NeverStarted | EndedNormally | ConfirmedGone | Unconfirmed

  const TIMED_OUT := Exc(Timeout, "job timed out")

  predicate Late(now: Time, deadline: Option<Time>) { deadline.Some? && now >= deadline.value }

  function FirstRaised(polls: seq<Poll>, deadline: Option<Time>): Option<Exc> {
    if polls == [] then None
    else if polls[0].check.Some? then polls[0].check
    else if Late(polls[0].now, deadline) then Some(TIMED_OUT)
    else if polls[0].interrupt.Some? then polls[0].interrupt
    else FirstRaised(polls[1..], deadline)
  }

  function DeadlineOf(s: RunScript, timeout: Option<Time>): Option<Time> {
    if timeout.Some? then Some(s.begun + timeout.value) else None
  }

  /** What the wait for the runner raises, if anything. */
  function RaisedBy(s: RunScript, timeout: Option<Time>): Option<Exc> {
    if s.start.Some? then s.start
    else if FirstRaised(s.polls, DeadlineOf(s, timeout)).Some? then FirstRaised(s.polls, DeadlineOf(s, timeout))
    else if s.worker.Some? then s.worker
    else s.lastCheck
  }

  /** The invocation came back by itself, and without an error. */
  predicate RunnerEnded(s: RunScript, timeout: Option<Time>) {
    s.start.None? && FirstRaised(s.polls, DeadlineOf(s, timeout)).None? && s.worker.None?
  }

  function FateOf(s: RunScript, timeout: Option<Time>, cleaned: bool): Fate {
    if s.start.Some? then NeverStarted
    else if RunnerEnded(s, timeout) then EndedNormally
    else if cleaned then ConfirmedGone
    else Unconfirmed
  }

  function OutcomeOf(s: RunScript, timeout: Option<Time>, cleaned: bool): RunOutcome {
    match RaisedBy(s, timeout)
    case None => Completed(false)
    case Some(e) =>
      if !cleaned then CleanupFailed(e)
      else if e.kind == Timeout then Completed(true)
      else Propagated(e)
  }

  // --- what the wait raises, poll by poll ------------------------------------------

  predicate Quiet(p: Poll, deadline: Option<Time>) {
    p.check.None? && p.interrupt.None? && (deadline.Some? ==> p.now < deadline.value)
  }

  /** The wait raises at the first poll that is not quiet: what the lease check raises, or else the
      timeout if the deadline has come, or else the interrupt. */
  lemma {:induction false} FirstRaisedExact(polls: seq<Poll>, deadline: Option<Time>)
    ensures match FirstRaised(polls, deadline)
            case None => forall i :: 0 <= i < |polls| ==> Quiet(polls[i], deadline)
            case Some(e) =>
              exists i :: 0 <= i < |polls| && (forall k :: 0 <= k < i ==> Quiet(polls[k], deadline))
                          && RaisesAt(polls[i], deadline, e)
  {
    if polls != [] {
      FirstRaisedExact(polls[1..], deadline);
      if Quiet(polls[0], deadline) && FirstRaised(polls[1..], deadline).Some? {
        var e := FirstRaised(polls[1..], deadline).value;
        var i :| 0 <= i < |polls[1..]| && (forall k :: 0 <= k < i ==> Quiet(polls[1..][k], deadline))
                 && RaisesAt(polls[1..][i], deadline, e);
        assert polls[1..][i] == polls[i + 1];
        forall k | 0 <= k < i + 1 ensures Quiet(polls[k], deadline) { assert k > 0 ==> polls[k] == polls[1..][k - 1]; }
      }
    }
  }

  predicate RaisesAt(p: Poll, deadline: Option<Time>, e: Exc) {
    || p.check == Some(e)
    || (p.check.None? && deadline.Some? && p.now >= deadline.value && e == Exc(Timeout, "job timed out"))
    || (p.check.None? && (deadline.Some? ==> p.now < deadline.value) && p.interrupt == Some(e))
  }

  /** A failing start comes first; then the wait, whose deadline is the timeout after the begin; then
      what the invocation itself raised; then the last lease check. */
  lemma RaisedExact(s: RunScript, timeout: Option<Time>)
    ensures var deadline := if timeout.Some? then Some(s.begun + timeout.value) else None;
            var waited := FirstRaised(s.polls, deadline);
            && (s.start.Some? ==> RaisedBy(s, timeout) == s.start)
            && (s.start.None? && waited.Some? ==> RaisedBy(s, timeout) == waited)
            && (s.start.None? && waited.None? && s.worker.Some? ==> RaisedBy(s, timeout) == s.worker)
            && (s.start.None? && waited.None? && s.worker.None? ==> RaisedBy(s, timeout) == s.lastCheck)
  {}

  /** The cleanup read the pid record, and pursued the group it names whenever it was readable. */
  ghost predicate CleansUp(sent: seq<Issued>, pidPath: string) {
    sent != [] && sent[0].command == Cat(pidPath) && Pursued(sent, None, 0.0)
  }

  /** Supervise one invocation.  When the wait raises, the recorded group is terminated; cleaned
      says that it was confirmed gone and that the local worker ended too. */
  method InvokeRunner(remote: Remote, pidPath: string, s: RunScript, timeout: Option<Time>)
    returns (outcome: RunOutcome, fate: Fate, ghost cleaned: bool, ghost sent: seq<Issued>)
    requires remote.Valid()
    modifies remote
    ensures remote.Valid()
    ensures remote.issued == old(remote.issued) + sent
    ensures cleaned <==> RaisedBy(s, timeout).Some? && ConfirmsGone(sent, pidPath) && (s.start.Some? || s.joined)
    ensures RaisedBy(s, timeout).None? ==> sent == [] && outcome == Completed(false)
    ensures RaisedBy(s, timeout).Some? ==>
              var e := RaisedBy(s, timeout).value;
              && CleansUp(sent, pidPath)
              && ((forall i :: 0 <= i < |sent| ==> Unrecorded(sent[i])) ==> remote.now >= old(remote.now) + 0.5)
              && (remote.Ideal() && !ConfirmsGone(sent, pidPath) ==> Unrecorded(Last(sent)) || SaysAlive(Last(sent)))
              && (!cleaned ==> outcome == CleanupFailed(e))
              && (cleaned ==> outcome == if e.kind == Timeout then Completed(true) else Propagated(e))
    ensures outcome == OutcomeOf(s, timeout, cleaned) && fate == FateOf(s, timeout, cleaned)
  {
    cleaned, sent := false, [];
    var deadline := if timeout.Some? then Some(s.begun + timeout.value) else None;
    var raised, ended := s.start, false;
    if raised.None? {
      raised := Await(s.polls, deadline);
      ended := raised.None? && s.worker.None?;
      if raised.None? { raised := s.worker; }
      if raised.None? { raised := s.lastCheck; }
    }
    if raised.None? { return Completed(false), EndedNormally, false, []; }
    var gone;
    gone, sent := KillRemotePgid(remote, pidPath);
    var clean := gone && (s.start.Some? || s.joined);
    cleaned := clean;
    fate := if s.start.Some? then NeverStarted else if ended then EndedNormally
            else if clean then ConfirmedGone else Unconfirmed;
    if !clean { return CleanupFailed(raised.value), fate, cleaned, sent; }
    if raised.value.kind == Timeout { return Completed(true), fate, cleaned, sent; }
    return Propagated(raised.value), fate, cleaned, sent;
  }

  method Await(polls: seq<Poll>, deadline: Option<Time>) returns (raised: Option<Exc>)
    ensures raised == FirstRaised(polls, deadline)
  {
    var i := 0;
    while i < |polls|
      invariant 0 <= i <= |polls|
      invariant FirstRaised(polls[i..], deadline) == FirstRaised(polls, deadline)
    {
      if polls[i].check.Some? { return polls[i].check; }
      if deadline.Some? && polls[i].now >= deadline.value { return Some(TIMED_OUT); }
      if polls[i].interrupt.Some? { return polls[i].interrupt; }
      i := i + 1;
    }
    return None;
  }

  // --- the attempt -----------------------------------------------------------------

  datatype Reading = Unreadable(exc: Exc) | Read(code: int, duration: Time)

  datatype Collection = Collected(missingRequired: seq<string>) | CollectionRaised(exc: Exc)

  /** prepare: failure of a step before the runner is invoked; pulls: what fetching the two logs
      of a timed-out run raises; record, publish: failures of the local file system; staging: a
      failure to create the staging directory. */
  datatype AttemptScript = AttemptScript(prepare: Option<Exc>, run: RunScript,
                                         stdout: Option<Exc>, stderr: Option<Exc>,
                                         record: Option<string>, reading: Reading,
                                         staging: Option<string>, collection: Collection,
                                         publish: Option<string>)

  datatype AttemptOutcome = Produced(result: AttemptResult)
                          | CleanupRaised(classified: Option<AttemptResult>, cause: Option<Exc>)
                          | Raises(exc: Exc)

  function FileError(message: Option<string>): Option<Exc> {
    if message.Some? then Some(Exc(Other, message.value)) else None
  }

  function Escapes(pull: Option<Exc>): Option<Exc> {
    if pull.Some? && pull.value.kind != Transport then pull else None
  }

  /** What is raised after a run timed out, before its result is returned. */
  function LateError(s: AttemptScript): Option<Exc> {
    if Escapes(s.stdout).Some? then Escapes(s.stdout)
    else if Escapes(s.stderr).Some? then Escapes(s.stderr)
    else FileError(s.record)
  }

  function TimeoutResult(n: nat, host: string, timeout: Option<Time>): AttemptResult {
    AttemptResult(n, host, TimedOut, None, if timeout.Some? then timeout.value else 0.0,
                  Some(TimeoutFailure), Some("job timed out"))
  }

  function CollectionError(c: Collection): Option<string> {
    if c.CollectionRaised? then Some(c.exc.message) else None
  }

  function FailureOf(code: int, c: Collection): Option<FailureKind> {
    if code != 0 then Some(CommandFailure)
    else if c.CollectionRaised? then Some(CollectionFailure)
    else if c.missingRequired != [] then Some(OutputMissing)
    else None
  }

  /** What reading the runner's result and collecting the outputs makes of a run that ended. */
  function Classified(s: AttemptScript, n: nat, host: string): AttemptOutcome {
    if s.reading.Unreadable? then Raises(s.reading.exc)
    else if s.staging.Some? then Raises(Exc(Other, s.staging.value))
    else if s.collection.CollectionRaised? && s.collection.exc.kind != Transport then Raises(s.collection.exc)
    else
      var failure := FailureOf(s.reading.code, s.collection);
      if failure.None? && s.publish.Some? then Raises(Exc(Other, s.publish.value))
      else if s.record.Some? then Raises(Exc(Other, s.record.value))
      else Produced(AttemptResult(n, host, if failure.None? then Succeeded else Failed,
                                  Some(s.reading.code), s.reading.duration, failure,
                                  CollectionError(s.collection)))
  }

  /** The outputs of the attempt reach the job's outputs directory. */
  predicate Publishes(s: AttemptScript, out: RunOutcome) {
    && out == Completed(false) && s.reading.Read? && s.staging.None?
    && (s.collection.CollectionRaised? ==> s.collection.exc.kind == Transport)
    && FailureOf(s.reading.code, s.collection).None? && s.publish.None?
  }

  /** What may come of a run that ended normally: in this order, a result that cannot be read, a
      staging directory that cannot be made, a collection that raises anything but a transport error,
      a failing publication, a failing record; or else a result, whose failure is that of the command
      if it exited nonzero, whatever the collection did, then that of the collection, then a missing
      output. */
  ghost predicate NormalEnd(s: AttemptScript, n: nat, host: string, outcome: AttemptOutcome) {
    if s.reading.Unreadable? then outcome == Raises(s.reading.exc)
    else if s.staging.Some? then outcome == Raises(Exc(Other, s.staging.value))
    else if s.collection.CollectionRaised? && s.collection.exc.kind != Transport
    then outcome == Raises(s.collection.exc)
    else
      var good := s.reading.code == 0 && s.collection == Collected([]);
      && (good && s.publish.Some? ==> outcome == Raises(Exc(Other, s.publish.value)))
      && ((good ==> s.publish.None?) && s.record.Some? ==> outcome == Raises(Exc(Other, s.record.value)))
      && ((good ==> s.publish.None?) && s.record.None? ==>
            && outcome.Produced? && var r := outcome.result;
            && r.number == n && r.host == host && r.code == Some(s.reading.code) && r.duration == s.reading.duration
            && (good ==> r.status == Succeeded && r.failure == None)
            && (!good ==> r.status == Failed)
            && (s.reading.code != 0 ==> r.failure == Some(CommandFailure))
            && (s.reading.code == 0 && s.collection.CollectionRaised? ==> r.failure == Some(CollectionFailure))
            && (s.reading.code == 0 && s.collection.Collected? && s.collection.missingRequired != [] ==>
                  r.failure == Some(OutputMissing))
            && (s.collection.CollectionRaised? ==> r.error == Some(s.collection.exc.message))
            && (s.collection.Collected? ==> r.error == None))
  }

  /** What may come of a run that timed out: a log pull that raises anything but a transport error,
      stdout before stderr, or a failing record; or else a result that says so, with the cleanup
      failure beside it if the cleanup was not confirmed. */
  ghost predicate TimedEnd(s: AttemptScript, n: nat, host: string, timeout: Option<Time>, confirmed: bool,
                           outcome: AttemptOutcome)
  {
    var result := AttemptResult(n, host, TimedOut, None, if timeout.Some? then timeout.value else 0.0,
                                Some(TimeoutFailure), Some("job timed out"));
    if s.stdout.Some? && s.stdout.value.kind != Transport then outcome == Raises(s.stdout.value)
    else if s.stderr.Some? && s.stderr.value.kind != Transport then outcome == Raises(s.stderr.value)
    else if s.record.Some? then outcome == Raises(Exc(Other, s.record.value))
    else if confirmed then outcome == Produced(result)
    else outcome == CleanupRaised(Some(result), None)
  }

  /** What the outcome of an attempt is, for each way the supervision of its runner can end. */
  ghost predicate Explains(s: AttemptScript, run: RunOutcome, n: nat, host: string, timeout: Option<Time>,
                           outcome: AttemptOutcome)
  {
    match run
    case Completed(timedOut) =>
      if timedOut then TimedEnd(s, n, host, timeout, true, outcome) else NormalEnd(s, n, host, outcome)
    case Propagated(e) => outcome == Raises(e)
    case CleanupFailed(e) =>
      if e.kind == Timeout then TimedEnd(s, n, host, timeout, false, outcome)
      else outcome == CleanupRaised(None, Some(e))
  }

  lemma ConcludedExplains(s: AttemptScript, run: RunOutcome, n: nat, host: string, timeout: Option<Time>)
    ensures Explains(s, run, n, host, timeout, Concluded(s, run, n, host, timeout))
  {}

  /** What the attempt comes to, given how the supervision of its runner ended. */
  function Concluded(s: AttemptScript, out: RunOutcome, n: nat, host: string, timeout: Option<Time>): AttemptOutcome {
    if out.Propagated? then Raises(out.exc)
    else if out.CleanupFailed? && out.cause.kind != Timeout then CleanupRaised(None, Some(out.cause))
    else if out == Completed(false) then Classified(s, n, host)
    else if LateError(s).Some? then Raises(LateError(s).value)
    else if out.CleanupFailed? then CleanupRaised(Some(TimeoutResult(n, host, timeout)), None)
    else Produced(TimeoutResult(n, host, timeout))
  }

  method ExecuteAttempt(remote: Remote, pidPath: string, s: AttemptScript, n: nat, host: string, timeout: Option<Time>)
    returns (outcome: AttemptOutcome, fate: Fate, run: Option<RunOutcome>, published: bool, ghost sent: seq<Issued>)
    requires remote.Valid()
    modifies remote
    ensures remote.Valid()
    ensures remote.issued == old(remote.issued) + sent
    ensures run.None? <==> s.prepare.Some?
    ensures s.prepare.Some? ==> outcome == Raises(s.prepare.value) && fate == NeverStarted && sent == [] && !published
    ensures run.Some? ==>
              && outcome == Concluded(s, run.value, n, host, timeout)
              && Explains(s, run.value, n, host, timeout, outcome)
              && published == Publishes(s, run.value)
              && (published <==>
                    && run.value == Completed(false) && s.reading.Read? && s.reading.code == 0 && s.staging.None?
                    && s.collection == Collected([]) && s.publish.None?)
              && exists cleaned :: Supervised(s.run, timeout, sent, pidPath, cleaned, run.value, fate)
  {
    if s.prepare.Some? { return Raises(s.prepare.value), NeverStarted, None, false, []; }
    var out; ghost var cleaned;
    out, fate, cleaned, sent := InvokeRunner(remote, pidPath, s.run, timeout);
    assert Supervised(s.run, timeout, sent, pidPath, cleaned, out, fate);
    ConcludedExplains(s, out, n, host, timeout);
    run, published := Some(out), false;
    if out.Propagated? { outcome := Raises(out.exc); return; }
    if out.CleanupFailed? && out.cause.kind != Timeout { outcome := CleanupRaised(None, Some(out.cause)); return; }
    if out != Completed(false) {
      if s.stdout.Some? && s.stdout.value.kind != Transport { outcome := Raises(s.stdout.value); return; }
      if s.stderr.Some? && s.stderr.value.kind != Transport { outcome := Raises(s.stderr.value); return; }
      var result := TimeoutResult(n, host, timeout);
      if s.record.Some? { outcome := Raises(Exc(Other, s.record.value)); return; }
      outcome := if out.CleanupFailed? then CleanupRaised(Some(result), None) else Produced(result);
      return;
    }
    if s.reading.Unreadable? { outcome := Raises(s.reading.exc); return; }
    if s.staging.Some? { outcome := Raises(Exc(Other, s.staging.value)); return; }
    if s.collection.CollectionRaised? && s.collection.exc.kind != Transport {
      outcome := Raises(s.collection.exc);
      return;
    }
    var failure := FailureOf(s.reading.code, s.collection);
    if failure.None? {
      if s.publish.Some? { outcome := Raises(Exc(Other, s.publish.value)); return; }
      published := true;
    }
    if s.record.Some? { outcome := Raises(Exc(Other, s.record.value)); return; }
    outcome := Produced(AttemptResult(n, host, if failure.None? then Succeeded else Failed, Some(s.reading.code),
                                      s.reading.duration, failure, CollectionError(s.collection)));
  }

  /** The commands sent, the cleanup they confirm, and the outcome and fate that follow agree. */
  ghost predicate Supervised(s: RunScript, timeout: Option<Time>, sent: seq<Issued>, pidPath: string,
                             cleaned: bool, out: RunOutcome, fate: Fate)
  {
    && (cleaned <==> RaisedBy(s, timeout).Some? && ConfirmsGone(sent, pidPath) && (s.start.Some? || s.joined))
    && (RaisedBy(s, timeout).Some? ==> CleansUp(sent, pidPath))
    && out == OutcomeOf(s, timeout, cleaned) && fate == FateOf(s, timeout, cleaned)
  }
}
