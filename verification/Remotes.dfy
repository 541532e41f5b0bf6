/** A remote host as its commands and clock show it, and the process-group cleanup run over it. */
module Remotes {
  import opened Basics

  type Pgid = int

  datatype Command = Cat(path: string) | Term(pgid: Pgid) | Probe(pgid: Pgid) | Kill(pgid: Pgid)

  /** A command raises a transport error, or returns; a returned Cat also shows the integer pgid
      of the pid record it printed, if there is one. */
  datatype Reply = Raised | Returned(code: int, recorded: Option<Pgid>)

  datatype Response = Response(reply: Reply, latency: Time)

  datatype Issued = Issued(command: Command, at: Time, reply: Reply)

  predicate SaysGone(x: Issued) { x.command.Probe? && x.reply.Returned? && x.reply.code != 0 }

  predicate SaysAlive(x: Issued) { x.command.Probe? && x.reply.Returned? && x.reply.code == 0 }

  /** 0 is the caller's own group and 1 is init: neither is a runner's group. */
  function ParsedPgid(x: Reply): Option<Pgid> {
    if x.Returned? && x.code == 0 && x.recorded.Some? && x.recorded.value > 1 then x.recorded else None
  }

  /** The replies on record are those of the host: the i-th command got its i-th response. */
  ghost predicate Answered(cs: seq<Issued>, response: nat -> Response) {
    forall i :: 0 <= i < |cs| ==> cs[i].reply == response(i).reply
  }

  /** Only a record that was read, and names neither the caller's own group nor init, is a group. */
  lemma ParsedIsForeign(x: Reply, g: Pgid)
    ensures ParsedPgid(x) == Some(g) <==> x.Returned? && x.code == 0 && x.recorded == Some(g) && g >= 2
  {}

  class Remote {
    const response: nat -> Response
    const overslept: nat -> Time
    var now: Time
    var issued: seq<Issued>
    var naps: nat

    constructor (response: nat -> Response, overslept: nat -> Time, start: Time)
      requires forall n {:trigger response(n)} :: response(n).latency >= 0.0
      requires forall n {:trigger overslept(n)} :: overslept(n) >= 0.0
      ensures this.response == response && this.overslept == overslept
      ensures now == start && issued == [] && naps == 0 && Valid()
    {
      this.response, this.overslept := response, overslept;
      now, issued, naps := start, [], 0;
    }

    /** Time does not run backwards: commands take a while, sleeps last at least as asked.  What was
        issued so far was answered as it is on record. */
    ghost predicate Valid()
      reads this
    {
      && (forall n {:trigger response(n)} :: response(n).latency >= 0.0)
      && (forall n {:trigger overslept(n)} :: overslept(n) >= 0.0)
      && Answered(issued, response)
    }

    /** Commands take no time and all return, and sleeps last exactly as asked. */
    ghost predicate Ideal() {
      && (forall n {:trigger response(n)} :: response(n).latency == 0.0 && response(n).reply.Returned?)
      && (forall n {:trigger overslept(n)} :: overslept(n) == 0.0)
    }

    method Run(command: Command) returns (reply: Reply)
      requires Valid()
      modifies this
      ensures issued == old(issued) + [Issued(command, old(now), reply)] && naps == old(naps)
      ensures reply == response(|old(issued)|).reply && Valid()
      ensures now >= old(now)
      ensures Ideal() ==> now == old(now) && reply.Returned?
    {
      var r := response(|issued|);
      issued := issued + [Issued(command, now, r.reply)];
      now := now + r.latency;
      return r.reply;
    }

    method Sleep(duration: Time)
      requires Valid() && duration >= 0.0
      modifies this
      ensures issued == old(issued) && now >= old(now) + duration && Valid()
      ensures Ideal() ==> now == old(now) + duration
    {
      now := now + duration + overslept(naps);
      naps := naps + 1;
    }
  }

  // --- terminating a process group ----------------------------------------------

  datatype Verdict = Gone | Alive | Aborted

  function Min(a: Time, b: Time): Time { if a <= b then a else b }

  function Max(a: Time, b: Time): Time { if a >= b then a else b }

  /** What may be sent to terminate the group g: TERM first and once; then probes; KILL at most
      once, after probes that all saw the group alive, and followed by one probe at most. */
  ghost predicate Escalation(cs: seq<Issued>, g: Pgid) {
    && (cs != [] ==> cs[0].command == Term(g))
    && (forall i :: 0 < i < |cs| ==> cs[i].command == Probe(g) || cs[i].command == Kill(g))
    && (forall i :: 0 < i < |cs| && cs[i].command == Kill(g) ==>
          |cs| <= i + 2 && i > 1 && cs[i - 1].command == Probe(g))
    && (forall i :: 0 < i < |cs| - 1 && cs[i].command == Probe(g) ==> SaysAlive(cs[i]))
  }

  predicate InTime(cs: seq<Issued>, deadline: Option<Time>) {
    deadline.Some? ==> forall i :: 0 <= i < |cs| ==> cs[i].at < deadline.value
  }

  function Last(cs: seq<Issued>): Issued
    requires cs != []
  {
    cs[|cs| - 1]
  }

  ghost predicate EndsGone(cs: seq<Issued>) { cs != [] && SaysGone(Last(cs)) }

  /** The escalation was carried to its end: a command was lost, or a probe said that the group is
      gone, or KILL was followed by a probe; unless the deadline had passed. */
  ghost predicate CarriedOut(cs: seq<Issued>, g: Pgid, deadline: Option<Time>, now: Time) {
    || (deadline.Some? && now >= deadline.value)
    || (cs != [] && (Last(cs).reply.Raised? || SaysGone(Last(cs)) || Survived(cs, g)))
  }

  ghost predicate Survived(cs: seq<Issued>, g: Pgid) {
    |cs| > 2 && cs[|cs| - 2].command == Kill(g) && SaysAlive(Last(cs))
  }

  /** No two commands in a row are further apart than gap, and the last is no longer than that ago. */
  ghost predicate Paced(cs: seq<Issued>, gap: Time, now: Time) {
    && (forall i :: 0 < i < |cs| ==> cs[i].at - cs[i - 1].at <= gap)
    && (cs != [] ==> 0.0 <= now - Last(cs).at <= gap)
  }

  lemma PacedMore(cs: seq<Issued>, more: seq<Issued>, gap: Time, now: Time)
    requires Paced(cs, gap, now) && |more| <= 1 && gap >= 0.0 && (more != [] ==> more[0].at == now)
    ensures Paced(cs + more, gap, now)
  {
    if more == [] { assert cs + more == cs; }
  }

  lemma BudgetExists(span: Time, poll: Time) returns (n: nat)
    requires poll > 0.0
    ensures span <= n as real * poll
  {
    if span <= 0.0 { return 0; }
    var q := span / poll;
    n := q.Floor + 1;
    assert q <= n as real;
    assert q * poll == span;
  }

  /** A nap that ends by stop, or lasts a whole poll, fits in a budget of one poll less. */
  lemma BudgetStep(n: nat, poll: Time, stop: Time, before: Time, after: Time)
    requires poll > 0.0 && before < stop && stop - before <= n as real * poll
    requires after >= stop || after >= before + poll
    ensures n > 0 && stop - after <= (n - 1) as real * poll
  {
    assert n == 0 ==> n as real * poll == 0.0;
    assert (n - 1) as real * poll == n as real * poll - poll;
    assert (n - 1) as real * poll >= 0.0;
  }

  /** TERM and then probes that all saw the group alive. */
  ghost predicate Watching(cs: seq<Issued>, g: Pgid) {
    && cs != [] && cs[0].command == Term(g)
    && (forall i :: 0 < i < |cs| ==> cs[i].command == Probe(g) && SaysAlive(cs[i]))
  }

  lemma WatchingEscalates(cs: seq<Issued>, g: Pgid)
    requires Watching(cs, g)
    ensures Escalation(cs, g) && !EndsGone(cs)
  {
  }

  /** One more probe, whatever it says and even if it is lost, is still the escalation. */
  lemma WatchingThenProbe(cs: seq<Issued>, g: Pgid, x: Issued)
    requires Watching(cs, g) && x.command == Probe(g)
    ensures Escalation(cs + [x], g)
    ensures EndsGone(cs + [x]) <==> SaysGone(x)
    ensures SaysAlive(x) ==> Watching(cs + [x], g)
  {
  }

  lemma WatchingThenKill(cs: seq<Issued>, g: Pgid, x: Issued)
    requires Watching(cs, g) && |cs| > 1 && x.command == Kill(g)
    ensures Escalation(cs + [x], g) && !EndsGone(cs + [x])
  {
  }

  lemma WatchingThenKillProbe(cs: seq<Issued>, g: Pgid, x: Issued, y: Issued)
    requires Watching(cs, g) && |cs| > 1 && x.command == Kill(g) && y.command == Probe(g)
    ensures Escalation(cs + [x, y], g)
    ensures EndsGone(cs + [x, y]) <==> SaysGone(y)
  {
  }

  /** Issue one command, unless the deadline has passed.  A code comes back exactly when the
      command was issued and returned. */
  method Checked(remote: Remote, command: Command, deadline: Option<Time>)
    returns (code: Option<int>, ghost out: seq<Issued>)
    requires remote.Valid()
    modifies remote
    ensures remote.Valid()
    ensures remote.now >= old(remote.now) && remote.issued == old(remote.issued) + out
    ensures |out| <= 1 && InTime(out, deadline)
    ensures |out| == 1 ==> out[0].command == command && out[0].at == old(remote.now)
    ensures deadline.None? || old(remote.now) < deadline.value ==> out != []
    ensures code.Some? ==> |out| == 1 && out[0].reply.Returned? && out[0].reply.code == code.value
    ensures code.None? ==> out == [] || out[0].reply.Raised?
    ensures out == [] ==> deadline.Some? && remote.now >= deadline.value
    ensures remote.Ideal() ==> remote.now == old(remote.now)
    ensures remote.Ideal() && (deadline.None? || old(remote.now) < deadline.value) ==> code.Some?
  {
    if deadline.Some? && deadline.value - remote.now <= 0.0 { return None, []; }
    var reply := remote.Run(command);
    return if reply.Returned? then Some(reply.code) else None, [Last(remote.issued)];
  }

  /** One probe of a group that every probe so far saw alive. */
  method ProbeOnce(remote: Remote, g: Pgid, deadline: Option<Time>, ghost seen: seq<Issued>)
    returns (code: Option<int>, ghost probe: seq<Issued>)
    requires remote.Valid() && Watching(seen, g)
    modifies remote
    ensures remote.Valid()
    ensures remote.now >= old(remote.now) && remote.issued == old(remote.issued) + probe
    ensures InTime(probe, deadline) && Escalation(seen + probe, g)
    ensures |probe| <= 1 && (code.Some? ==> |probe| == 1)
    ensures probe != [] ==> probe[0].command == Probe(g) && probe[0].at == old(remote.now)
    ensures code.None? ==> CarriedOut(seen + probe, g, deadline, remote.now)
    ensures code == Some(0) ==> Watching(seen + probe, g)
    ensures EndsGone(seen + probe) <==> code.Some? && code.value != 0
    ensures remote.Ideal() ==> remote.now == old(remote.now)
    ensures remote.Ideal() && (deadline.None? || old(remote.now) < deadline.value) ==> code.Some?
  {
    code, probe := Checked(remote, Probe(g), deadline);
    WatchingEscalates(seen, g);
    if probe != [] {
      WatchingThenProbe(seen, g, probe[0]);
      assert probe == [probe[0]] && Last(seen + probe) == probe[0];
    } else {
      assert seen + probe == seen;
    }
  }

  /** KILL is not sent before the time for waiting is over. */
  ghost predicate Patient(cs: seq<Issued>, g: Pgid, until: Time) {
    forall i :: 0 <= i < |cs| && cs[i].command == Kill(g) ==> cs[i].at >= until
  }

  /** When waiting ends: after the grace period, or earlier to leave time before the deadline. */
  function WaitEnd(start: Time, grace: Time, poll: Time, deadline: Option<Time>): Time {
    if deadline.Some? then Min(start + grace, deadline.value - poll) else start + grace
  }

  /** Nothing stops the call from running to its end. */
  ghost predicate Unhindered(remote: Remote, start: Time, deadline: Option<Time>) {
    remote.Ideal() && (deadline.Some? ==> start < deadline.value)
  }

  /** TERM, wait for the group to go, KILL.  Gone is the answer exactly when the last probe said
      so; nothing is issued at or after the deadline; and where commands are instantaneous and
      sleeps exact, a call that starts before the deadline always reaches its final probe. */
  method TerminateProcessGroup(remote: Remote, g: Pgid, grace: Time, poll: Time, deadline: Option<Time>)
    returns (verdict: Verdict, ghost sent: seq<Issued>)
    requires remote.Valid() && grace >= 0.0 && poll > 0.0
    modifies remote
    ensures remote.Valid()
    ensures remote.issued == old(remote.issued) + sent && remote.now >= old(remote.now)
    ensures Escalation(sent, g) && InTime(sent, deadline)
    ensures deadline.None? || old(remote.now) < deadline.value ==> sent != []
    ensures Patient(sent, g, WaitEnd(old(remote.now), grace, poll, deadline))
    ensures verdict == Gone <==> EndsGone(sent)
    ensures verdict == Alive <==> Survived(sent, g)
    ensures CarriedOut(sent, g, deadline, remote.now)
    ensures remote.Ideal() ==> Paced(sent, poll, remote.now)
    ensures Unhindered(remote, old(remote.now), deadline) ==>
              && verdict != Aborted
              && remote.now <= old(remote.now) + grace + poll
              && (deadline.Some? ==> remote.now < deadline.value)
  {
    var code;
    code, sent := SendTerm(remote, g, poll, deadline);
    if code.None? { return Aborted, sent; }
    ghost var more;
    code, more := ProbeOnce(remote, g, deadline, sent);
    if remote.Ideal() { PacedMore(sent, more, poll, remote.now); }
    sent := sent + more;
    if code.None? { return Aborted, sent; }
    if code.value != 0 { return Gone, sent; }
    verdict, more := WaitThenForce(remote, g, grace, poll, deadline, sent);
    sent := sent + more;
  }

  /** The first command, TERM. */
  method SendTerm(remote: Remote, g: Pgid, poll: Time, deadline: Option<Time>)
    returns (code: Option<int>, ghost sent: seq<Issued>)
    requires remote.Valid() && poll > 0.0
    modifies remote
    ensures remote.Valid()
    ensures remote.issued == old(remote.issued) + sent && remote.now >= old(remote.now)
    ensures |sent| <= 1 && Escalation(sent, g) && InTime(sent, deadline) && !EndsGone(sent)
    ensures deadline.None? || old(remote.now) < deadline.value ==> sent != []
    ensures if code.Some? then Watching(sent, g) else CarriedOut(sent, g, deadline, remote.now)
    ensures remote.Ideal() ==> remote.now == old(remote.now) && Paced(sent, poll, remote.now)
    ensures Unhindered(remote, old(remote.now), deadline) ==> code.Some?
  {
    code, sent := Checked(remote, Term(g), deadline);
  }

  /** The group survived TERM so far: give it the grace period, then force it. */
  method WaitThenForce(remote: Remote, g: Pgid, grace: Time, poll: Time, deadline: Option<Time>,
                       ghost seen: seq<Issued>)
    returns (verdict: Verdict, ghost more: seq<Issued>)
    requires remote.Valid() && grace >= 0.0 && poll > 0.0
    requires Watching(seen, g) && |seen| > 1 && (remote.Ideal() ==> Paced(seen, poll, remote.now))
    modifies remote
    ensures remote.Valid()
    ensures remote.issued == old(remote.issued) + more && remote.now >= old(remote.now)
    ensures InTime(more, deadline) && Escalation(seen + more, g)
    ensures Patient(more, g, WaitEnd(old(remote.now), grace, poll, deadline))
    ensures verdict == Gone <==> EndsGone(seen + more)
    ensures verdict == Alive <==> Survived(seen + more, g)
    ensures CarriedOut(seen + more, g, deadline, remote.now)
    ensures remote.Ideal() ==> Paced(seen + more, poll, remote.now)
    ensures Unhindered(remote, old(remote.now), deadline) ==>
              && verdict != Aborted
              && remote.now <= old(remote.now) + grace + poll
              && (deadline.Some? ==> remote.now < deadline.value)
  {
    var code;
    code, more := AwaitExit(remote, g, grace, poll, deadline, seen);
    if code.None? { return Aborted, more; }
    if code.value != 0 { return Gone, more; }
    ghost var last;
    verdict, last := ForceExit(remote, g, poll, deadline, seen + more);
    assert seen + (more + last) == seen + more + last;
    more := more + last;
  }

  /** KILL and one last probe. */
  method ForceExit(remote: Remote, g: Pgid, poll: Time, deadline: Option<Time>, ghost seen: seq<Issued>)
    returns (verdict: Verdict, ghost more: seq<Issued>)
    requires remote.Valid() && poll > 0.0
    requires Watching(seen, g) && |seen| > 1 && (remote.Ideal() ==> Paced(seen, poll, remote.now))
    modifies remote
    ensures remote.Valid()
    ensures remote.issued == old(remote.issued) + more && remote.now >= old(remote.now)
    ensures InTime(more, deadline) && Escalation(seen + more, g) && Patient(more, g, old(remote.now))
    ensures verdict == Gone <==> EndsGone(seen + more)
    ensures verdict == Alive <==> Survived(seen + more, g)
    ensures CarriedOut(seen + more, g, deadline, remote.now)
    ensures remote.Ideal() ==> Paced(seen + more, poll, remote.now)
    ensures Unhindered(remote, old(remote.now), deadline) ==>
              && verdict != Aborted && remote.now <= old(remote.now) + poll
              && (deadline.Some? ==> remote.now < deadline.value)
  {
    var code;
    WatchingEscalates(seen, g);
    code, more := Checked(remote, Kill(g), deadline);
    if more != [] { WatchingThenKill(seen, g, more[0]); } else { assert seen + more == seen; }
    if remote.Ideal() { PacedMore(seen, more, poll, remote.now); }
    if code.None? { return Aborted, more; }
    ghost var killed := seen + more;
    remote.Sleep(if deadline.Some? then Min(poll, Max(0.0, (deadline.value - remote.now) / 2.0)) else poll);
    ghost var probe;
    code, probe := Checked(remote, Probe(g), deadline);
    if probe != [] {
      WatchingThenKillProbe(seen, g, more[0], probe[0]);
      assert more + probe == [more[0], probe[0]];
    } else {
      assert more + probe == more;
    }
    assert seen + (more + probe) == killed + probe;
    if remote.Ideal() { PacedMore(killed, probe, poll, remote.now); }
    more := more + probe;
    if code.None? { return Aborted, more; }
    return if code.value != 0 then Gone else Alive, more;
  }

  /** The grace period: probe until the group is gone or the time for waiting is over.  The code is
      that of the last probe, 0 when the group is still there. */
  method AwaitExit(remote: Remote, g: Pgid, grace: Time, poll: Time, deadline: Option<Time>, ghost seen: seq<Issued>)
    returns (code: Option<int>, ghost more: seq<Issued>)
    requires remote.Valid() && grace >= 0.0 && poll > 0.0
    requires Watching(seen, g) && (remote.Ideal() ==> Paced(seen, poll, remote.now))
    modifies remote
    ensures remote.Valid()
    ensures remote.issued == old(remote.issued) + more
    ensures remote.now >= old(remote.now) && InTime(more, deadline) && Escalation(seen + more, g)
    ensures code == Some(0) ==>
              Watching(seen + more, g) && remote.now >= WaitEnd(old(remote.now), grace, poll, deadline)
    ensures code.None? ==> CarriedOut(seen + more, g, deadline, remote.now)
    ensures forall i :: 0 <= i < |more| ==> more[i].command == Probe(g)
    ensures EndsGone(seen + more) <==> code.Some? && code.value != 0
    ensures remote.Ideal() ==> Paced(seen + more, poll, remote.now)
    ensures Unhindered(remote, old(remote.now), deadline) ==>
              && code.Some? && remote.now <= old(remote.now) + grace
              && (deadline.Some? ==> remote.now < deadline.value)
  {
    more := [];
    assert seen + more == seen;
    code := Some(0);
    var stop := remote.now + grace;
    if deadline.Some? { stop := Min(stop, deadline.value - poll); }
    ghost var budget := BudgetExists(stop - remote.now, poll);
    while remote.now < stop
      invariant remote.Valid()
      invariant remote.issued == old(remote.issued) + more
      invariant remote.now >= old(remote.now)
      invariant Watching(seen + more, g) && InTime(more, deadline) && code == Some(0)
      invariant forall i :: 0 <= i < |more| ==> more[i].command == Probe(g)
      invariant stop - remote.now <= budget as real * poll
      invariant remote.Ideal() ==> remote.now <= Max(old(remote.now), stop) && Paced(seen + more, poll, remote.now)
      decreases budget
    {
      ghost var probe, before := [], remote.now;
      code, probe := WatchOnce(remote, g, stop, poll, deadline, seen + more);
      assert seen + more + probe == seen + (more + probe);
      more := more + probe;
      if code.None? { return; }
      if code.value != 0 { return; }
      BudgetStep(budget, poll, stop, before, remote.now);
      budget := budget - 1;
    }
    WatchingEscalates(seen + more, g);
  }

  /** One turn of the grace loop: probe, and nap if the group is still there. */
  method WatchOnce(remote: Remote, g: Pgid, stop: Time, poll: Time, deadline: Option<Time>, ghost seen: seq<Issued>)
    returns (code: Option<int>, ghost probe: seq<Issued>)
    requires remote.Valid() && poll > 0.0 && remote.now < stop
    requires Watching(seen, g) && (remote.Ideal() ==> Paced(seen, poll, remote.now))
    modifies remote
    ensures remote.Valid()
    ensures remote.now >= old(remote.now) && remote.issued == old(remote.issued) + probe
    ensures InTime(probe, deadline) && Escalation(seen + probe, g)
    ensures |probe| <= 1 && (probe != [] ==> probe[0].command == Probe(g))
    ensures code.None? ==> CarriedOut(seen + probe, g, deadline, remote.now)
    ensures code == Some(0) ==>
              Watching(seen + probe, g) && (remote.now >= stop || remote.now >= old(remote.now) + poll)
    ensures EndsGone(seen + probe) <==> code.Some? && code.value != 0
    ensures remote.Ideal() ==> remote.now <= stop && Paced(seen + probe, poll, remote.now)
    ensures remote.Ideal() && (deadline.None? || old(remote.now) < deadline.value) ==> code.Some?
  {
    code, probe := ProbeOnce(remote, g, deadline, seen);
    if remote.Ideal() { PacedMore(seen, probe, poll, remote.now); }
    if code == Some(0) { remote.Sleep(Min(poll, Max(0.0, stop - remote.now))); }
  }

  // --- cleanup confirmed through the pid record ----------------------------------

  /** cs shows that the group recorded at path was gone at the end: the record was read, and
      everything after it was the escalation against that group, whose last probe said gone. */
  ghost predicate ConfirmsGone(cs: seq<Issued>, path: string) {
    exists k :: ConfirmsGoneFrom(cs, path, k)
  }

  ghost predicate ConfirmsGoneFrom(cs: seq<Issued>, path: string, k: int) {
    && 0 <= k < |cs| - 1 && cs[k].command == Cat(path)
    && ParsedPgid(cs[k].reply).Some?
    && Escalation(cs[k + 1..], ParsedPgid(cs[k].reply).value)
    && EndsGone(cs)
  }

  /** The pid record was not readable at that time. */
  predicate Unrecorded(x: Issued) { x.command.Cat? && x.reply.Returned? && ParsedPgid(x.reply).None? }

  /** Whenever the record was readable, the commands after it are an escalation against the group it
      names, carried to its end, with KILL only after ten seconds, or earlier to leave half a second
      before the deadline. */
  ghost predicate Pursued(cs: seq<Issued>, deadline: Option<Time>, now: Time) {
    forall i {:trigger PursuedAt(cs, i, deadline, now)} :: 0 <= i < |cs| ==> PursuedAt(cs, i, deadline, now)
  }

  ghost predicate PursuedAt(cs: seq<Issued>, i: int, deadline: Option<Time>, now: Time)
    requires 0 <= i < |cs|
  {
    cs[i].command.Cat? && ParsedPgid(cs[i].reply).Some? ==>
      var g, rest := ParsedPgid(cs[i].reply).value, cs[i + 1..];
      && Escalation(rest, g) && CarriedOut(rest, g, deadline, now)
      && Patient(rest, g, if deadline.Some? then Min(cs[i].at + 10.0, deadline.value - 0.5) else cs[i].at + 10.0)
  }

  lemma PursuedFrom(cs: seq<Issued>, rest: seq<Issued>, deadline: Option<Time>, now: Time, since: Time)
    requires cs != [] && (forall i :: 0 <= i < |cs| - 1 ==> cs[i].command.Cat? && ParsedPgid(cs[i].reply).None?)
    requires Last(cs).command.Cat? && ParsedPgid(Last(cs).reply).Some? && Last(cs).at <= since
    requires var g := ParsedPgid(Last(cs).reply).value;
             && Escalation(rest, g) && CarriedOut(rest, g, deadline, now)
             && Patient(rest, g, WaitEnd(since, 10.0, 0.5, deadline))
    ensures Pursued(cs + rest, deadline, now)
  {
    forall i | 0 <= i < |cs + rest| ensures PursuedAt(cs + rest, i, deadline, now) {
      if i == |cs| - 1 { assert (cs + rest)[i + 1..] == rest; }
    }
  }

  const PID_WAIT := 0.5
  const PID_POLL := 0.05
  const KILL_GRACE := 10.0
  const KILL_POLL := 0.5

  /** Read the pid record, waiting briefly for it to appear, and terminate the group it names.
      True exactly when the group is confirmed gone. */
  method KillRemotePgid(remote: Remote, path: string) returns (gone: bool, ghost sent: seq<Issued>)
    requires remote.Valid()
    modifies remote
    ensures remote.Valid()
    ensures remote.issued == old(remote.issued) + sent && remote.now >= old(remote.now)
    ensures gone <==> ConfirmsGone(sent, path)
    ensures sent != [] && sent[0].command == Cat(path)
    ensures Pursued(sent, None, 0.0)
    ensures (forall i :: 0 <= i < |sent| ==> Unrecorded(sent[i])) ==> remote.now >= old(remote.now) + 0.5
    ensures remote.Ideal() && !gone ==> Unrecorded(Last(sent)) || SaysAlive(Last(sent))
  {
    sent := [];
    var deadline := remote.now + PID_WAIT;
    ghost var budget := BudgetExists(PID_WAIT, PID_POLL);
    while true
      invariant remote.Valid()
      invariant remote.issued == old(remote.issued) + sent && remote.now >= old(remote.now)
      invariant forall i :: 0 <= i < |sent| ==> sent[i].command == Cat(path) && Unrecorded(sent[i])
      invariant deadline - remote.now <= budget as real * PID_POLL
      decreases budget
    {
      var reply := remote.Run(Cat(path));
      sent := sent + [Last(remote.issued)];
      assert Unrecorded(Last(sent)) <==> reply.Returned? && ParsedPgid(reply).None?;
      if reply.Raised? { return false, sent; }
      var pgid := ParsedPgid(reply);
      if pgid.Some? {
        ghost var catted := remote.now;
        var verdict, escalation := TerminateProcessGroup(remote, pgid.value, KILL_GRACE, KILL_POLL, None);
        ghost var k := |sent| - 1;
        ghost var all := sent + escalation;
        assert all[k + 1..] == escalation && !Unrecorded(all[k]);
        assert Last(all) == Last(escalation);
        PursuedFrom(sent, escalation, None, 0.0, catted);
        if verdict == Gone { assert ConfirmsGoneFrom(all, path, k); }
        return verdict == Gone, all;
      }
      if remote.now >= deadline { return false, sent; }
      remote.Sleep(PID_POLL);
      budget := budget - 1;
    }
  }

  /** The group that the first command read from the record. */
  function ParsedGroup(cs: seq<Issued>): Option<Pgid> { if cs == [] then None else ParsedPgid(cs[0].reply) }

  datatype Reconciliation = Clean | Dirty | Unreachable

  /** Terminate the group recorded for a lost attempt.  Clean exactly when it is confirmed gone; a
      missing or unreadable record leaves the host dirty. */
  method ReconcileHost(remote: Remote, path: string, deadline: Option<Time>)
    returns (outcome: Reconciliation, ghost sent: seq<Issued>)
    requires remote.Valid()
    modifies remote
    ensures remote.Valid()
    ensures remote.issued == old(remote.issued) + sent && remote.now >= old(remote.now)
    ensures outcome == Clean <==> ConfirmsGone(sent, path)
    ensures InTime(sent, deadline)
    ensures if sent == [] then deadline.Some? && old(remote.now) >= deadline.value else sent[0].command == Cat(path)
    ensures Pursued(sent, deadline, remote.now)
    ensures outcome == match ParsedGroup(sent)
                       case None => if sent != [] && sent[0].reply.Raised? then Unreachable else Dirty
                       case Some(g) => if EndsGone(sent) then Clean
                                       else if Survived(sent[1..], g) then Dirty
                                       else Unreachable
  {
    sent := [];
    if deadline.Some? && deadline.value - remote.now <= 0.0 { return Dirty, sent; }
    var reply := remote.Run(Cat(path));
    sent := [Last(remote.issued)];
    if reply.Raised? { return Unreachable, sent; }
    var pgid := ParsedPgid(reply);
    if pgid.None? { return Dirty, sent; }
    ghost var catted := remote.now;
    var verdict, escalation := TerminateProcessGroup(remote, pgid.value, KILL_GRACE, KILL_POLL, deadline);
    ghost var all := sent + escalation;
    assert all[1..] == escalation;
    PursuedFrom(sent, escalation, deadline, remote.now, catted);
    if verdict == Gone {
      assert ConfirmsGoneFrom(all, path, 0);
    } else if escalation == [] {
      assert all == sent;
    } else {
      assert Last(all) == Last(escalation);
    }
    return match verdict case Gone => Clean case Alive => Dirty case Aborted => Unreachable, all;
  }
}
