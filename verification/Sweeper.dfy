/** One pass of the lease sweeper, with the calls of all other clients served in between. */
module Sweeper {
  import opened Basics
  import opened PoolStates
  import opened PoolRuns
  import opened LeasePools
  import opened Remotes

  /** What other clients call before each of the sweeper's own calls to the lease actor, and which of
      those calls are refused (deadline, lost actor); deadline: that of the commands sent. */
  datatype Environment = Environment(between: nat -> seq<Op>, refused: nat -> bool, now: Time, deadline: Option<Time>)

  /** Other clients never mark a host reconciled: this is the only sweep in flight. */
  ghost predicate OnlySweep(e: Environment) {
    forall n {:trigger e.between(n)} :: ProperRun(e.between(n)) && forall h :: MarkReconciled(h) !in e.between(n)
  }

  /** Every known host has a connection of its own, over which nothing was sent yet. */
  ghost predicate Unused(remotes: map<Host, Remote>)
    reads remotes.Values
  {
    Apart(remotes) && forall h :: h in remotes ==> remotes[h].Valid() && remotes[h].issued == []
  }

  ghost predicate Apart(remotes: map<Host, Remote>) {
    forall g, h :: g in remotes && h in remotes && g != h ==> remotes[g] != remotes[h]
  }

  // --- what a pass does -------------------------------------------------------------

  /** What the pass did about one quarantined host: the pool when its orphan paths were listed, the
      commands sent for each path and when they had ended, the pool after that, and whether the host
      was readmitted then; done: no call about it was refused, and its label leads to a host. */
  datatype Visit = Visit(host: Host, listed: Pool, parts: seq<seq<Issued>>, ended: Time, before: Pool,
                         readmitted: bool, done: bool)

  /** The paths are confirmed gone, each by its own part of the commands sent. */
  ghost predicate AllConfirmed(parts: seq<seq<Issued>>, paths: seq<string>) {
    |parts| == |paths| && forall i :: 0 <= i < |paths| ==> ConfirmsGone(parts[i], paths[i])
  }

  /** The paths were reconciled in turn, up to the first that could not be confirmed: for each, the
      record was read, and the group it names was pursued, before the deadline. */
  ghost predicate Tried(parts: seq<seq<Issued>>, paths: seq<string>, deadline: Option<Time>, now: Time) {
    && |parts| <= |paths| && (parts != [] ==> AllConfirmed(parts[..|parts| - 1], paths[..|parts| - 1]))
    && (|parts| < |paths| ==> parts != [] && !ConfirmsGone(parts[|parts| - 1], paths[|parts| - 1]))
    && EachTried(parts, paths, deadline, now)
  }

  ghost predicate EachTried(parts: seq<seq<Issued>>, paths: seq<string>, deadline: Option<Time>, now: Time)
    requires |parts| <= |paths|
  {
    forall i :: 0 <= i < |parts| ==> TriedOne(parts[i], paths[i], deadline, now)
  }

  ghost predicate TriedOne(cs: seq<Issued>, path: string, deadline: Option<Time>, now: Time) {
    && (if cs == [] then deadline.Some? && now >= deadline.value else cs[0].command == Cat(path))
    && Pursued(cs, deadline, now) && InTime(cs, deadline)
  }

  lemma TriedLater(cs: seq<Issued>, path: string, deadline: Option<Time>, now: Time, later: Time)
    requires TriedOne(cs, path, deadline, now) && later >= now
    ensures TriedOne(cs, path, deadline, later)
  {
    forall i | 0 <= i < |cs| ensures PursuedAt(cs, i, deadline, later) { assert PursuedAt(cs, i, deadline, now); }
  }

  lemma OneMoreTried(parts: seq<seq<Issued>>, sent: seq<Issued>, paths: seq<string>, deadline: Option<Time>,
                     before: Time, now: Time)
    requires |parts| < |paths| && EachTried(parts, paths, deadline, before) && now >= before
    requires TriedOne(sent, paths[|parts|], deadline, now)
    ensures EachTried(parts + [sent], paths, deadline, now)
  {
    forall i | 0 <= i < |parts| ensures TriedOne(parts[i], paths[i], deadline, now) {
      TriedLater(parts[i], paths[i], deadline, before, now);
    }
  }

  function PoolAfter(v: Visit): Pool { if v.readmitted then Readmitted(v.before, v.host) else v.before }

  /** The visit to h that starts from the pool p, makes the n-th and the next call, and sends parts
      in between.  The host is readmitted exactly when it had orphan paths on record, all of them
      were confirmed gone, and no call was refused. */
  ghost function VisitFrom(p: Pool, e: Environment, n: nat, known: set<Host>, h: Host, parts: seq<seq<Issued>>,
                           ended: Time): Visit
    requires p.Valid() && OnlySweep(e)
  {
    var listed := After(p, e.between(n));
    if e.refused(n) || h !in known then Visit(h, listed, [], ended, listed, false, false)
    else if listed.OrphansOf(h) == [] || !AllConfirmed(parts, listed.OrphansOf(h))
    then Visit(h, listed, parts, ended, listed, false, true)
    else Visit(h, listed, parts, ended, After(listed, e.between(n + 1)), !e.refused(n + 1), !e.refused(n + 1))
  }

  ghost predicate Went(v: Visit, p: Pool, e: Environment, n: nat, known: set<Host>)
    requires p.Valid() && OnlySweep(e)
  {
    && v == VisitFrom(p, e, n, known, v.host, v.parts, v.ended)
    && (e.refused(n) || v.host !in known || Tried(v.parts, v.listed.OrphansOf(v.host), e.deadline, v.ended))
  }

  /** The pool after the first k visits of a pass that listed the quarantined hosts in p. */
  function PoolAt(vs: seq<Visit>, k: nat, p: Pool): Pool
    requires k <= |vs|
  {
    if k == 0 then p else PoolAfter(vs[k - 1])
  }

  function End(vs: seq<Visit>, p: Pool): Pool { PoolAt(vs, |vs|, p) }

  ghost predicate Follows(vs: seq<Visit>, k: nat, p: Pool, e: Environment, known: set<Host>)
    requires OnlySweep(e) && k < |vs|
  {
    PoolAt(vs, k, p).Valid() && Went(vs[k], PoolAt(vs, k, p), e, 2 * k + 2, known)
  }

  /** Each visit starts from the pool where the one before ended, and makes the next two calls. */
  ghost predicate Chained(vs: seq<Visit>, p: Pool, e: Environment, known: set<Host>)
    requires OnlySweep(e)
  {
    forall k: nat {:trigger Follows(vs, k, p, e, known)} :: k < |vs| ==> Follows(vs, k, p, e, known)
  }

  /** The pool when the pass lists the quarantined hosts: the dead leases were expired, unless that
      call was refused. */
  ghost function Begun(p: Pool, e: Environment): (q: Pool)
    requires p.Valid() && OnlySweep(e)
    ensures q.Valid()
  {
    var unswept := After(p, e.between(0));
    if e.refused(0) then unswept
    else
      IsolatedValid(unswept, unswept.ExpiredHosts(e.now));
      After(Swept(unswept, e.now), e.between(1))
  }

  function Joined(parts: seq<seq<Issued>>): seq<Issued> {
    if parts == [] then [] else Joined(parts[..|parts| - 1]) + parts[|parts| - 1]
  }

  function CommandsTo(h: Host, vs: seq<Visit>): seq<Issued> {
    if vs == [] then []
    else CommandsTo(h, vs[..|vs| - 1]) + if vs[|vs| - 1].host == h then Joined(vs[|vs| - 1].parts) else []
  }

  /** The commands of the visits are the commands that the hosts received and answered. */
  ghost predicate Reported(remotes: map<Host, Remote>, vs: seq<Visit>)
    reads remotes.Values
  {
    && (forall h :: h in remotes ==> remotes[h].Valid() && remotes[h].issued == CommandsTo(h, vs))
    && (forall k :: 0 <= k < |vs| && vs[k].host in remotes ==> vs[k].ended <= remotes[vs[k].host].now)
  }

  /** The visits are to the first of the hosts, one each. */
  predicate InOrder(vs: seq<Visit>, hosts: seq<Host>) {
    |vs| <= |hosts| && forall k :: 0 <= k < |vs| ==> vs[k].host == hosts[k]
  }

  predicate AllDone(vs: seq<Visit>) { forall k :: 0 <= k < |vs| ==> vs[k].done }

  /** All hosts were visited, or the last visit is the only one that is not done. */
  predicate Stopped(vs: seq<Visit>, hosts: seq<Host>, completed: bool) {
    if completed then |vs| == |hosts| && AllDone(vs)
    else vs != [] && AllDone(vs[..|vs| - 1]) && !vs[|vs| - 1].done
  }

  // --- the methods ------------------------------------------------------------------

  lemma OnePart(parts: seq<seq<Issued>>, sent: seq<Issued>, paths: seq<string>)
    requires |parts| < |paths| && AllConfirmed(parts, paths[..|parts|])
    ensures ConfirmsGone(sent, paths[|parts|]) ==> AllConfirmed(parts + [sent], paths[..|parts| + 1])
    ensures !ConfirmsGone(sent, paths[|parts|]) ==> !AllConfirmed(parts + [sent], paths)
  {
    var longer := parts + [sent];
    assert longer[|parts|] == sent && forall i :: 0 <= i < |parts| ==> longer[i] == parts[i];
  }

  lemma JoinedMore(parts: seq<seq<Issued>>, sent: seq<Issued>)
    ensures Joined(parts + [sent]) == Joined(parts) + sent
  {
    assert (parts + [sent])[..|parts|] == parts;
  }

  /** Reconcile the recorded paths one by one, stopping at the first that cannot be confirmed. */
  method ReconcileAll(remote: Remote, paths: seq<string>, deadline: Option<Time>)
    returns (clean: bool, ghost parts: seq<seq<Issued>>)
    requires remote.Valid()
    modifies remote
    ensures remote.Valid() && remote.issued == old(remote.issued) + Joined(parts)
    ensures remote.now >= old(remote.now)
    ensures clean <==> AllConfirmed(parts, paths)
    ensures Tried(parts, paths, deadline, remote.now)
  {
    parts := [];
    for i := 0 to |paths|
      invariant remote.Valid() && remote.issued == old(remote.issued) + Joined(parts)
      invariant remote.now >= old(remote.now)
      invariant |parts| == i && AllConfirmed(parts, paths[..i]) && EachTried(parts, paths, deadline, remote.now)
    {
      ghost var before := remote.now;
      var outcome; ghost var sent;
      outcome, sent := ReconcileHost(remote, paths[i], deadline);
      OneMoreTried(parts, sent, paths, deadline, before, remote.now);
      OnePart(parts, sent, paths);
      JoinedMore(parts, sent);
      assert (parts + [sent])[..i] == parts;
      parts := parts + [sent];
      if outcome != Clean {
        assert parts[..i] == parts[..|parts| - 1];
        return false, parts;
      }
    }
    assert paths[..|paths|] == paths;
    return true, parts;
  }

  /** Expire dead leases, reconcile the quarantined hosts, readmit the clean ones.  The visits follow
      the sorted list of the hosts that are quarantined then; they stop at the first one that is not
      done, and the pass completes when every listed host was visited. */
  method SweepOnce(pool: LeasePool, remotes: map<Host, Remote>, e: Environment)
    returns (completed: bool, ghost hosts: seq<Host>, ghost visits: seq<Visit>)
    requires pool.Valid() && OnlySweep(e) && Unused(remotes)
    modifies pool, remotes.Values
    ensures pool.Valid()
    ensures var p := Begun(old(pool.State()), e);
            && Passed(visits, hosts, p, e, remotes.Keys, pool.State())
            && (e.refused(0) || e.refused(1) || (Ascending(hosts) && forall h :: h in hosts <==> h in p.quarantined))
    ensures Reported(remotes, visits)
    ensures if e.refused(0) || e.refused(1) then visits == [] && !completed else Stopped(visits, hosts, completed)
  {
    hosts, visits := [], [];
    var refused := Expire(pool, e);
    if refused { return false, hosts, visits; }
    var quarantined := pool.QuarantinedHosts();
    hosts := quarantined;
    completed, visits := VisitAll(pool, remotes, e, quarantined);
  }

  /** Visit the hosts in turn, up to the first visit that is not done. */
  method VisitAll(pool: LeasePool, remotes: map<Host, Remote>, e: Environment, hosts: seq<Host>)
    returns (completed: bool, ghost visits: seq<Visit>)
    requires pool.Valid() && OnlySweep(e) && Unused(remotes)
    modifies pool, remotes.Values
    ensures pool.Valid() && Passed(visits, hosts, old(pool.State()), e, remotes.Keys, pool.State())
    ensures Reported(remotes, visits) && Stopped(visits, hosts, completed)
  {
    ghost var p := pool.State();
    visits := [];
    for i := 0 to |hosts|
      invariant pool.Valid() && |visits| == i && AllDone(visits)
      invariant Passed(visits, hosts, p, e, remotes.Keys, pool.State()) && Reported(remotes, visits)
    {
      var ok; ghost var v;
      ok, v := VisitNext(pool, remotes, e, hosts, i, visits, p);
      StoppedOrDone(visits, v, hosts);
      visits := visits + [v];
      if !ok { return false, visits; }
    }
    return true, visits;
  }

  lemma StoppedOrDone(vs: seq<Visit>, v: Visit, hosts: seq<Host>)
    requires AllDone(vs)
    ensures if v.done then AllDone(vs + [v]) else Stopped(vs + [v], hosts, false)
  {
    assert (vs + [v])[..|vs|] == vs;
  }

  /** The visits to the first of the hosts led from the pool p to the pool q. */
  ghost predicate Passed(vs: seq<Visit>, hosts: seq<Host>, p: Pool, e: Environment, known: set<Host>, q: Pool)
    requires OnlySweep(e)
  {
    Chained(vs, p, e, known) && q == End(vs, p) && InOrder(vs, hosts)
  }

  lemma OneMoreVisit(vs: seq<Visit>, v: Visit, hosts: seq<Host>, p: Pool, e: Environment, known: set<Host>, q: Pool,
                     n: nat)
    requires OnlySweep(e) && q.Valid() && Passed(vs, hosts, p, e, known, q)
    requires |vs| < |hosts| && v.host == hosts[|vs|] && n == 2 * |vs| + 2 && Went(v, q, e, n, known)
    ensures Passed(vs + [v], hosts, p, e, known, PoolAfter(v))
  {
    forall k: nat | k < |vs| + 1 ensures Follows(vs + [v], k, p, e, known) {
      if k < |vs| {
        assert Follows(vs, k, p, e, known);
        assert PoolAt(vs + [v], k, p) == PoolAt(vs, k, p);
      } else {
        assert PoolAt(vs + [v], k, p) == q;
      }
    }
  }

  lemma CommandsMore(h: Host, vs: seq<Visit>, v: Visit)
    ensures CommandsTo(h, vs + [v]) == CommandsTo(h, vs) + if v.host == h then Joined(v.parts) else []
  {
    assert (vs + [v])[..|vs|] == vs;
  }

  /** One more visit, after those of vs. */
  method VisitNext(pool: LeasePool, remotes: map<Host, Remote>, e: Environment, hosts: seq<Host>, i: nat,
                   ghost vs: seq<Visit>, ghost p: Pool)
    returns (completed: bool, ghost v: Visit)
    requires pool.Valid() && OnlySweep(e) && Apart(remotes) && Reported(remotes, vs)
    requires i == |vs| < |hosts| && Passed(vs, hosts, p, e, remotes.Keys, pool.State())
    modifies pool, if hosts[i] in remotes then {remotes[hosts[i]]} else {}
    ensures pool.Valid() && completed == v.done
    ensures Passed(vs + [v], hosts, p, e, remotes.Keys, pool.State()) && Reported(remotes, vs + [v])
  {
    ghost var q := pool.State();
    var n := 2 * i + 2;
    completed, v := ReportedVisit(pool, remotes, e, hosts[i], n, vs);
    OneMoreVisit(vs, v, hosts, p, e, remotes.Keys, q, n);
  }

  /** Visit a host, with its commands added to those of the visits so far. */
  method ReportedVisit(pool: LeasePool, remotes: map<Host, Remote>, e: Environment, h: Host, n: nat,
                       ghost vs: seq<Visit>)
    returns (completed: bool, ghost v: Visit)
    requires pool.Valid() && OnlySweep(e) && Apart(remotes) && Reported(remotes, vs)
    modifies pool, if h in remotes then {remotes[h]} else {}
    ensures pool.Valid() && v.host == h && completed == v.done
    ensures Went(v, old(pool.State()), e, n, remotes.Keys) && pool.State() == PoolAfter(v)
    ensures Reported(remotes, vs + [v])
  {
    completed, v := SweepHost(pool, remotes, e, h, n);
    forall g | g in remotes ensures remotes[g].Valid() && remotes[g].issued == CommandsTo(g, vs + [v]) {
      CommandsMore(g, vs, v);
    }
  }

  /** Let the other clients' calls come first, then tell whether the sweeper's own call is refused. */
  method BeforeCall(pool: LeasePool, e: Environment, n: nat) returns (refused: bool)
    requires pool.Valid() && OnlySweep(e)
    modifies pool
    ensures pool.Valid() && refused == e.refused(n) && ProperRun(e.between(n))
    ensures pool.State() == After(old(pool.State()), e.between(n))
  {
    pool.ServeAll(e.between(n));
    return e.refused(n);
  }

  /** Expire the dead leases, and reach the call that lists the quarantined hosts. */
  method Expire(pool: LeasePool, e: Environment) returns (refused: bool)
    requires pool.Valid() && OnlySweep(e)
    modifies pool
    ensures pool.Valid() && pool.State() == Begun(old(pool.State()), e)
    ensures refused <==> e.refused(0) || e.refused(1)
  {
    refused := BeforeCall(pool, e, 0);
    if refused { return; }
    var _ := pool.SweepExpired(e.now);
    refused := BeforeCall(pool, e, 1);
  }

  /** Snapshot the orphan paths of one host, reconcile them, and readmit it if all are clean. */
  method SweepHost(pool: LeasePool, remotes: map<Host, Remote>, e: Environment, h: Host, n: nat)
    returns (completed: bool, ghost v: Visit)
    requires pool.Valid() && OnlySweep(e) && (h in remotes ==> remotes[h].Valid())
    modifies pool, if h in remotes then {remotes[h]} else {}
    ensures pool.Valid() && v.host == h && completed == v.done
    ensures Went(v, old(pool.State()), e, n, remotes.Keys) && pool.State() == PoolAfter(v)
    ensures h in remotes ==>
              && remotes[h].Valid() && remotes[h].issued == old(remotes[h].issued) + Joined(v.parts)
              && v.ended == remotes[h].now >= old(remotes[h].now)
  {
    var refused := BeforeCall(pool, e, n);
    ghost var listed := pool.State();
    v := Visit(h, listed, [], if h in remotes then remotes[h].now else 0.0, listed, false, false);
    if refused { return false, v; }
    var paths := pool.OrphanPaths(h);
    if h !in remotes { return false, v; }
    if paths == [] { return true, v.(done := true); }
    var clean; ghost var parts;
    clean, parts := ReconcileAll(remotes[h], paths, e.deadline);
    v := v.(parts := parts, ended := remotes[h].now);
    if !clean { return true, v.(done := true); }
    refused := BeforeCall(pool, e, n + 1);
    v := v.(before := pool.State());
    if refused { return false, v; }
    pool.MarkReconciled(h);
    return true, v.(readmitted := true, done := true);
  }

  // --- readmission is sound -----------------------------------------------------------

  ghost predicate KeptBack(p: Pool, q: Pool, h: Host) {
    h in q.quarantined && q.OrphansOf(h) == p.OrphansOf(h)
  }

  /** Every host quarantined in p is as it was in q, except those of hs. */
  ghost predicate StillFrozen(p: Pool, q: Pool, hs: set<Host>) {
    forall h :: h in p.quarantined && h !in hs ==> KeptBack(p, q, h)
  }

  /** At the moment of readmission the host was quarantined without a lease, it had orphan paths on
      record, and every one of them was confirmed gone. */
  ghost predicate Sound(v: Visit) {
    v.readmitted ==>
      && v.before.Valid() && v.host in v.before.quarantined
      && (forall t :: t in v.before.leases ==> v.before.leases[t].host != v.host)
      && v.before.OrphansOf(v.host) != []
      && AllConfirmed(v.parts, v.before.OrphansOf(v.host))
  }

  ghost predicate AllSound(vs: seq<Visit>) {
    forall i :: 0 <= i < |vs| ==> Sound(vs[i])
  }

  function Freed(v: Visit): set<Host> { if v.readmitted then {v.host} else {} }

  function ReadmittedHosts(vs: seq<Visit>): set<Host> {
    if vs == [] then {} else ReadmittedHosts(vs[..|vs| - 1]) + Freed(vs[|vs| - 1])
  }

  /** What a visit did: without a refusal its host received the reconciliation of the paths listed; it
      was readmitted exactly when there were paths, all were confirmed gone, and no call was refused;
      a readmitted host is live again. */
  lemma VisitMeans(v: Visit, p: Pool, e: Environment, n: nat, known: set<Host>)
    requires p.Valid() && OnlySweep(e) && Went(v, p, e, n, known)
    ensures v.listed.OrphansOf(v.host) != [] && !e.refused(n) && v.host in known ==>
              Tried(v.parts, v.listed.OrphansOf(v.host), e.deadline, v.ended)
    ensures v.readmitted <==>
              && !e.refused(n) && v.host in known && !e.refused(n + 1)
              && v.listed.OrphansOf(v.host) != [] && AllConfirmed(v.parts, v.listed.OrphansOf(v.host))
    ensures v.readmitted ==>
              v.host !in PoolAfter(v).quarantined && (v.host in p.slots ==> v.host in PoolAfter(v).Live())
    ensures v.done ==> !e.refused(n) && v.host in known
    ensures !v.done ==> !v.readmitted && (e.refused(n) || v.host !in known || e.refused(n + 1))
  {
    if v.readmitted {
      ReadmitEffect(v.before, v.host);
      SlotsStay(p, e.between(n));
      SlotsStay(v.listed, e.between(n + 1));
    }
  }

  lemma {:induction false} SlotsStay(p: Pool, ops: seq<Op>)
    requires p.Valid() && ProperRun(ops)
    ensures After(p, ops).slots == p.slots
    decreases |ops|
  {
    if ops != [] {
      StepValid(p, ops[0]);
      SlotsAreFixed(p, ops[0]);
      SlotsStay(Step(p, ops[0]), ops[1..]);
    }
  }

  /** A pass whose first call is not refused expires: every lease whose deadline had come is gone, its
      host is quarantined, and the path it had registered is on record there when the quarantined
      hosts are listed. */
  lemma {:induction false} BegunExpires(p: Pool, e: Environment, t: Token)
    requires p.Valid() && OnlySweep(e) && !e.refused(0)
    requires t in After(p, e.between(0)).leases && After(p, e.between(0)).leases[t].expiry <= e.now
    ensures var unswept, q := After(p, e.between(0)), Begun(p, e); var h := unswept.leases[t].host;
            && t !in q.leases && h in q.quarantined
            && (t in unswept.pidPaths ==> unswept.pidPaths[t] in q.OrphansOf(h))
  {
    var unswept := After(p, e.between(0));
    SweptAway(unswept, t, e.now);
    QuarantinedFrozen(Swept(unswept, e.now), e.between(1), unswept.leases[t].host);
    NeverBack(Swept(unswept, e.now), e.between(1), t);
  }

  lemma SweptAway(p: Pool, t: Token, now: Time)
    requires p.Valid() && t in p.leases && p.leases[t].expiry <= now
    ensures var q, h := Swept(p, now), p.leases[t].host;
            && q.Valid() && t < q.minted && t !in q.leases && h in q.quarantined
            && (t in p.pidPaths ==> p.pidPaths[t] in q.OrphansOf(h))
  {
    IsolatedValid(p, p.ExpiredHosts(now));
    assert p.LeaseOk(t) && p.leases[t].host in p.ExpiredHosts(now);
    IsolationLeases(p, p.ExpiredHosts(now), t);
    TakenAway(p, Sweep(now), t);
  }

  lemma {:induction false} NeverBack(p: Pool, ops: seq<Op>, t: Token)
    requires p.Valid() && ProperRun(ops) && t !in p.leases && t < p.minted
    ensures t !in After(p, ops).leases
    decreases |ops|
  {
    if ops != [] {
      StepValid(p, ops[0]);
      NeverBack(Step(p, ops[0]), ops[1..], t);
    }
  }

  /** Whenever a host is readmitted, every pid path that was registered for a lease on it since the
      last readmission, and not given up by releasing that lease, is confirmed gone. */
  lemma {:induction false} RegisteredPathConfirmed(p: Pool, t: Token, path: string, ops: seq<Op>, v: Visit)
    requires p.Valid() && t in p.leases && v.host == p.leases[t].host
    requires ProperRun(ops) && Spares(ops, t, v.host) && ProperRun([RegisterPid(t, path)] + ops)
    requires v.before == After(p, [RegisterPid(t, path)] + ops) && v.readmitted && Sound(v)
    ensures exists i :: 0 <= i < |v.parts| && ConfirmsGone(v.parts[i], path)
  {
    RegisteredPathIsKept(p, t, path, ops);
    var paths := v.before.OrphansOf(v.host);
    assert path in paths;
    var i :| 0 <= i < |paths| && paths[i] == path;
    assert ConfirmsGone(v.parts[i], path);
  }

  lemma OthersKeepFrozen(p: Pool, e: Environment, n: nat)
    requires p.Valid() && OnlySweep(e)
    ensures StillFrozen(p, After(p, e.between(n)), {})
  {
    forall h | h in p.quarantined ensures KeptBack(p, After(p, e.between(n)), h) {
      QuarantinedFrozen(p, e.between(n), h);
    }
  }

  lemma FrozenTransitive(p: Pool, q: Pool, r: Pool, hs: set<Host>, gs: set<Host>)
    requires StillFrozen(p, q, hs) && StillFrozen(q, r, gs)
    ensures StillFrozen(p, r, hs + gs)
  {
    forall h | h in p.quarantined && h !in hs + gs ensures KeptBack(p, r, h) {
      assert KeptBack(p, q, h) && KeptBack(q, r, h);
    }
  }

  /** Whatever other clients do between the listing of the paths and the readmission, the host is
      readmitted with exactly the record that was listed, all of it confirmed gone. */
  lemma VisitSound(v: Visit, p: Pool, e: Environment, n: nat, known: set<Host>)
    requires p.Valid() && OnlySweep(e) && Went(v, p, e, n, known)
    ensures Sound(v) && PoolAfter(v).Valid() && StillFrozen(p, PoolAfter(v), Freed(v))
  {
    OthersKeepFrozen(p, e, n);
    OthersKeepFrozen(v.listed, e, n + 1);
    assert forall g :: g in v.listed.quarantined ==> KeptBack(v.listed, v.listed, g);
    FrozenTransitive(p, v.listed, v.before, {}, {});
    ReadmittedValid(v.before, v.host);
    if v.readmitted {
      assert KeptBack(v.listed, v.before, v.host);
      NoLeaseOnQuarantined(v.before, v.host);
    }
    forall g | g in p.quarantined && g !in Freed(v) ensures KeptBack(p, PoolAfter(v), g) {
      assert KeptBack(p, v.before, g);
    }
  }

  lemma ChainedEarlier(vs: seq<Visit>, p: Pool, e: Environment, known: set<Host>)
    requires OnlySweep(e) && Chained(vs, p, e, known) && vs != []
    ensures Chained(vs[..|vs| - 1], p, e, known)
    ensures var last := End(vs[..|vs| - 1], p);
            last.Valid() && Went(vs[|vs| - 1], last, e, 2 * |vs|, known)
  {
    var n := |vs| - 1;
    assert Follows(vs, n, p, e, known) && PoolAt(vs, n, p) == End(vs[..n], p);
    forall k: nat | k < n ensures Follows(vs[..n], k, p, e, known) {
      assert Follows(vs, k, p, e, known) && PoolAt(vs, k, p) == PoolAt(vs[..n], k, p);
    }
  }

  /** Over a whole pass: every readmission is sound, and every other quarantined host stays as it
      was listed. */
  lemma {:induction false} ReadmissionSound(vs: seq<Visit>, p: Pool, e: Environment, known: set<Host>)
    requires p.Valid() && OnlySweep(e) && Chained(vs, p, e, known)
    ensures AllSound(vs) && End(vs, p).Valid() && StillFrozen(p, End(vs, p), ReadmittedHosts(vs))
    decreases |vs|
  {
    if vs != [] {
      var n := |vs| - 1;
      var earlier := vs[..n];
      ChainedEarlier(vs, p, e, known);
      ReadmissionSound(earlier, p, e, known);
      VisitSound(vs[n], End(earlier, p), e, 2 * n + 2, known);
      FrozenTransitive(p, End(earlier, p), PoolAfter(vs[n]), ReadmittedHosts(earlier), Freed(vs[n]));
      forall i | 0 <= i < |vs| ensures Sound(vs[i]) { assert i < n ==> vs[i] == earlier[i]; }
    }
  }

  /** Expiring dead leases and the calls around it leave every quarantined host as it was. */
  lemma BegunKeepsFrozen(p: Pool, e: Environment)
    requires p.Valid() && OnlySweep(e)
    ensures StillFrozen(p, Begun(p, e), {})
  {
    var unswept := After(p, e.between(0));
    OthersKeepFrozen(p, e, 0);
    if !e.refused(0) {
      var swept := Swept(unswept, e.now);
      IsolatedValid(unswept, unswept.ExpiredHosts(e.now));
      forall h | h in unswept.quarantined ensures KeptBack(unswept, swept, h) {
        StepKeepsQuarantine(unswept, Sweep(e.now), h);
      }
      FrozenTransitive(p, unswept, swept, {}, {});
      OthersKeepFrozen(swept, e, 1);
      FrozenTransitive(p, swept, Begun(p, e), {}, {});
    }
  }

  /** From the pool before the pass to the pool after it: a quarantined host that the pass did not
      soundly readmit is still quarantined, with the same orphan paths on record. */
  lemma PassKeepsFrozen(p: Pool, vs: seq<Visit>, e: Environment, known: set<Host>)
    requires p.Valid() && OnlySweep(e) && Chained(vs, Begun(p, e), e, known)
    ensures AllSound(vs) && StillFrozen(p, End(vs, Begun(p, e)), ReadmittedHosts(vs))
  {
    BegunKeepsFrozen(p, e);
    ReadmissionSound(vs, Begun(p, e), e, known);
    FrozenTransitive(p, Begun(p, e), End(vs, Begun(p, e)), {}, ReadmittedHosts(vs));
    assert {} + ReadmittedHosts(vs) == ReadmittedHosts(vs);
  }
}
