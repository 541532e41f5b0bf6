/** The lease actor: the pool behind one condition variable, with parked acquirers.  Every event is
    what one coroutine does between two points where another may run, so a sequence of events is
    one interleaving of any number of clients. */
module LeaseServices {
  import opened Basics
  import opened PoolStates
  import opened PoolRuns

  type WaiterId = nat

  /** An acquire call that is waiting.  Once notified it will check the pool again. */
  datatype Waiter = Waiter(attemptId: string, exclude: set<Host>, notified: bool)

  datatype Service = Service(pool: Pool, waiters: map<WaiterId, Waiter>)

  datatype Event =
    | Arrive(id: WaiterId, attemptId: string, exclude: set<Host>, now: Time)
    | Resume(id: WaiterId, now: Time)
    | Abandon(id: WaiterId)
    | Call(op: Op)

  datatype Reply = Leased(lease: Lease) | NoHealthyHosts | Parked | Refused | Answered

  predicate Enabled(s: Service, e: Event) {
    match e
    case Arrive(id, attemptId, _, _) => id !in s.waiters && attemptId != ""
    case Resume(id, _) => id in s.waiters && s.waiters[id].notified
    case Abandon(id) => id in s.waiters
    case Call(op) => !op.Acquire?
  }

  /** One pass of the acquire loop. */
  ghost function Attempted(s: Service, id: WaiterId, w: Waiter, now: Time): (Service, Reply)
    requires s.pool.Valid()
  {
    var (pool, grant) := Acquired(s.pool, w.attemptId, w.exclude, now);
    match grant
    case Granted(l) => (Service(pool, s.waiters - {id}), Leased(l))
    case Rejected => (Service(pool, s.waiters - {id}), Refused)
    case Full =>
      if pool.Live() == {} then (Service(pool, s.waiters - {id}), NoHealthyHosts)
      else (Service(pool, s.waiters[id := w.(notified := false)]), Parked)
  }

  function NotifyAll(ws: map<WaiterId, Waiter>): map<WaiterId, Waiter> {
    map id | id in ws :: ws[id].(notified := true)
  }

  predicate Notifies(p: Pool, op: Op) {
    match op
    case Release(_) => true
    case Quarantine(_) => true
    case MarkReconciled(_) => true
    case Sweep(now) => p.ExpiredHosts(now) != {}
    case _ => false
  }

  ghost function Next(s: Service, e: Event): (Service, Reply)
    requires s.pool.Valid() && Enabled(s, e)
  {
    match e
    case Arrive(id, a, x, now) => Attempted(s, id, Waiter(a, x, false), now)
    case Resume(id, now) => Attempted(s, id, s.waiters[id], now)
    case Abandon(id) => (s.(waiters := s.waiters - {id}), Answered)
    case Call(op) =>
      (Service(Step(s.pool, op), if Notifies(s.pool, op) then NotifyAll(s.waiters) else s.waiters), Answered)
  }

  /** An acquire for w would get nothing now, and would not fail for lack of hosts either. */
  ghost predicate Unservable(p: Pool, w: Waiter)
    requires p.Valid()
  {
    p.Live() != {} && forall now :: Acquired(p, w.attemptId, w.exclude, now).1 == Full
  }

  ghost predicate Named(s: Service) {
    forall id :: id in s.waiters ==> s.waiters[id].attemptId != ""
  }

  ghost predicate NoLostWakeup(s: Service)
    requires s.pool.Valid()
  {
    forall id :: id in s.waiters && !s.waiters[id].notified ==> Unservable(s.pool, s.waiters[id])
  }

  // --- operations that wake nobody cannot make a waiter servable ----------------

  /** A state with the same live hosts and no free slot that was not free before serves no waiter
      that could not be served before. */
  lemma NoMoreRoom(p: Pool, q: Pool, w: Waiter)
    requires p.Valid() && q.Valid() && Unservable(p, w)
    requires q.slots == p.slots && q.quarantined == p.quarantined
    requires forall h :: h in p.slots ==> q.Free(h) <= p.Free(h)
    ensures Unservable(q, w)
  {
    assert Acquired(p, w.attemptId, w.exclude, 0.0).1 == Full;
    assert p.Candidates(w.exclude) == {};
    forall h ensures h !in q.Candidates(w.exclude) {
      assert h !in p.Candidates(w.exclude);
    }
    assert q.Candidates(w.exclude) == {};
  }

  lemma GrantTakesRoom(p: Pool, attemptId: string, exclude: set<Host>, now: Time, w: Waiter)
    requires p.Valid() && attemptId != "" && Unservable(p, w)
    ensures var q := Acquired(p, attemptId, exclude, now).0; q.Valid() && Unservable(q, w)
  {
    AcquiredValid(p, attemptId, exclude, now);
    NoMoreRoom(p, Acquired(p, attemptId, exclude, now).0, w);
  }

  lemma QuietCallKeepsFull(p: Pool, op: Op, w: Waiter)
    requires p.Valid() && !op.Acquire? && !Notifies(p, op) && Unservable(p, w)
    ensures Step(p, op).Valid() && Unservable(Step(p, op), w)
  {
    StepValid(p, op);
    NoMoreRoom(p, Step(p, op), w);
  }

  // --- all interleavings ---------------------------------------------------------

  lemma {:induction false} NextKeeps(s: Service, e: Event)
    requires s.pool.Valid() && Named(s) && NoLostWakeup(s) && Enabled(s, e)
    ensures var t := Next(s, e).0; t.pool.Valid() && Named(t) && NoLostWakeup(t)
  {
    match e
    case Arrive(id, a, x, now) => AttemptedKeeps(s, id, Waiter(a, x, false), now);
    case Resume(id, now) => AttemptedKeeps(s, id, s.waiters[id], now);
    case Abandon(id) =>
    case Call(op) =>
      StepValid(s.pool, op);
      if !Notifies(s.pool, op) {
        forall id | id in s.waiters && !s.waiters[id].notified
          ensures Unservable(Step(s.pool, op), s.waiters[id])
        {
          QuietCallKeepsFull(s.pool, op, s.waiters[id]);
        }
      }
  }

  lemma AttemptedKeeps(s: Service, id: WaiterId, w: Waiter, now: Time)
    requires s.pool.Valid() && Named(s) && NoLostWakeup(s) && w.attemptId != ""
    ensures var t := Attempted(s, id, w, now).0; t.pool.Valid() && Named(t) && NoLostWakeup(t)
  {
    var t := Attempted(s, id, w, now).0;
    AcquiredValid(s.pool, w.attemptId, w.exclude, now);
    forall j | j in t.waiters && !t.waiters[j].notified ensures Unservable(t.pool, t.waiters[j]) {
      if j == id {
        assert Acquired(s.pool, w.attemptId, w.exclude, now).1 == Full;
      } else {
        GrantTakesRoom(s.pool, w.attemptId, w.exclude, now, s.waiters[j]);
      }
    }
  }

  /** es can happen one after the other from s. */
  ghost predicate Interleaving(s: Service, es: seq<Event>)
    requires s.pool.Valid() && Named(s) && NoLostWakeup(s)
    decreases |es|
  {
    es == [] ||
    (&& Enabled(s, es[0])
     && (NextKeeps(s, es[0]); Interleaving(Next(s, es[0]).0, es[1..])))
  }

  ghost function Reached(s: Service, es: seq<Event>): Service
    requires s.pool.Valid() && Named(s) && NoLostWakeup(s) && Interleaving(s, es)
    decreases |es|
  {
    if es == [] then s
    else
      NextKeeps(s, es[0]);
      Reached(Next(s, es[0]).0, es[1..])
  }

  /** In every reachable state, each waiter that nobody has notified could not be served: an
      acquisition with its exclusions would find nothing, and some host is live. */
  lemma {:induction false} NoWakeupIsLost(p: Pool, es: seq<Event>)
    requires p.Valid() && Interleaving(Service(p, map[]), es)
    ensures var s := Reached(Service(p, map[]), es); s.pool.Valid() && NoLostWakeup(s)
  {
    ReachedKeeps(Service(p, map[]), es);
  }

  lemma {:induction false} ReachedKeeps(s: Service, es: seq<Event>)
    requires s.pool.Valid() && Named(s) && NoLostWakeup(s) && Interleaving(s, es)
    ensures var t := Reached(s, es); t.pool.Valid() && Named(t) && NoLostWakeup(t)
    decreases |es|
  {
    if es != [] {
      NextKeeps(s, es[0]);
      ReachedKeeps(Next(s, es[0]).0, es[1..]);
    }
  }

  /** A waiter leaves the condition only with a lease on a host it prefers, or with the failure
      raised when no host is live, or because its caller gave up. */
  lemma {:induction false} WaiterLeaves(s: Service, e: Event, id: WaiterId)
    requires s.pool.Valid() && Named(s) && NoLostWakeup(s) && Enabled(s, e) && id in s.waiters
    ensures var (t, r) := Next(s, e); var w := s.waiters[id];
            id !in t.waiters ==>
              || e == Abandon(id)
              || (r == NoHealthyHosts && s.pool.Live() == {})
              || (r.Leased? && r.lease.attemptId == w.attemptId && r.lease.host in s.pool.Preferred(w.exclude)
                  && t.pool.leases == s.pool.leases[r.lease.token := r.lease])
  {
    if e.Resume? && e.id == id {
      AcquiredChoice(s.pool, s.waiters[id].attemptId, s.waiters[id].exclude, e.now);
    } else if e.Arrive? {
      AcquiredChoice(s.pool, e.attemptId, e.exclude, e.now);
    }
  }

  // --- what the clients are told -------------------------------------------------------

  /** Some eligible host has a free slot. */
  ghost predicate Servable(p: Pool, exclude: set<Host>)
    requires p.Valid()
  {
    exists h :: Eligible(p, exclude, h) && |p.used[h]| < p.slots[h]
  }

  predicate NoneLive(p: Pool) { forall h :: h in p.slots ==> h in p.quarantined }

  /** The pool q is p with the lease given out for this attempt. */
  ghost predicate Gives(p: Pool, attemptId: string, exclude: set<Host>, l: Lease, q: Pool)
    requires p.Valid()
  {
    && l.attemptId == attemptId && Eligible(p, exclude, l.host) && l.slot !in p.used[l.host]
    && l.token !in p.leases && q.leases == p.leases[l.token := l]
    && q.used.Keys == p.used.Keys
    && (forall h :: h in p.used ==> q.used[h] == p.used[h] + if h == l.host then {l.slot} else {})
  }

  /** What an acquisition does at a pass of its loop, be it a new one or one that was woken: it gets a
      lease exactly when an eligible host has a free slot; else it fails exactly when no host is live;
      else it waits, not notified, asking for what it asked for. Nobody else is touched. */
  ghost predicate Passes(s: Service, id: WaiterId, attemptId: string, exclude: set<Host>, t: Service, r: Reply)
    requires s.pool.Valid()
  {
    && (r.Leased? <==> Servable(s.pool, exclude))
    && (r.NoHealthyHosts? <==> NoneLive(s.pool))
    && (r.Leased? || r.NoHealthyHosts? || r.Parked?)
    && (if r.Leased? then Gives(s.pool, attemptId, exclude, r.lease, t.pool) else t.pool == s.pool)
    && t.waiters == if r.Parked? then s.waiters[id := Waiter(attemptId, exclude, false)] else s.waiters - {id}
  }

  lemma GrantedIffServable(p: Pool, attemptId: string, exclude: set<Host>, now: Time)
    requires p.Valid() && attemptId != ""
    ensures var g := Acquired(p, attemptId, exclude, now).1;
            if Servable(p, exclude) then g.Granted? else g.Full?
  {
    AcquiredChoice(p, attemptId, exclude, now);
    ChoiceInDetail(p, attemptId, exclude, now);
  }

  lemma GrantMeans(p: Pool, attemptId: string, exclude: set<Host>, now: Time)
    requires p.Valid() && attemptId != ""
    ensures var (q, g) := Acquired(p, attemptId, exclude, now);
            && (if Servable(p, exclude) then g.Granted? else g.Full?)
            && (if g.Granted? then Gives(p, attemptId, exclude, g.lease, q) else q == p)
  {
    GrantedIffServable(p, attemptId, exclude, now);
    if Servable(p, exclude) {
      ChoiceInDetail(p, attemptId, exclude, now);
      GrantEffect(p, attemptId, exclude, now);
      MintedIsNew(p, attemptId, exclude, now);
    }
  }

  lemma MintedIsNew(p: Pool, attemptId: string, exclude: set<Host>, now: Time)
    requires p.Valid() && attemptId != "" && Acquired(p, attemptId, exclude, now).1.Granted?
    ensures var (q, g) := Acquired(p, attemptId, exclude, now);
            && g.lease.attemptId == attemptId && g.lease.token !in p.leases && g.lease.host in p.used
            && g.lease.slot !in p.used[g.lease.host]
            && q.leases == p.leases[g.lease.token := g.lease] && q.used.Keys == p.used.Keys
  {
    AcquiredChoice(p, attemptId, exclude, now);
  }

  lemma PassMeans(s: Service, id: WaiterId, w: Waiter, now: Time)
    requires s.pool.Valid() && w.attemptId != ""
    ensures var (t, r) := Attempted(s, id, w, now); Passes(s, id, w.attemptId, w.exclude, t, r)
  {
    GrantMeans(s.pool, w.attemptId, w.exclude, now);
    assert s.pool.Live() == {} <==> NoneLive(s.pool) by {
      assert forall h :: h in s.pool.Live() <==> h in s.pool.slots && h !in s.pool.quarantined;
    }
  }

  /** An acquisition makes such a pass when it arrives and whenever it is woken; a caller that gives up
      takes only itself away; every other call answers at once, does to the pool what it does there,
      and either leaves the waiters alone or notifies all. */
  lemma {:induction false} EventMeans(s: Service, e: Event)
    requires s.pool.Valid() && Named(s) && Enabled(s, e)
    ensures var (t, r) := Next(s, e);
            match e
            case Arrive(id, a, x, now) => Passes(s, id, a, x, t, r)
            case Resume(id, now) => Passes(s, id, s.waiters[id].attemptId, s.waiters[id].exclude, t, r)
            case Abandon(id) => t == Service(s.pool, s.waiters - {id})
            case Call(op) =>
              && t.pool == After(s.pool, [op]) && (t.waiters == s.waiters || AllWoken(s.waiters, t.waiters))
              && (op.Release? || op.Quarantine? || op.MarkReconciled? ==> AllWoken(s.waiters, t.waiters))
              && (op.RegisterPid? || op.Heartbeat? ==> t.waiters == s.waiters)
  {
    match e
    case Arrive(id, a, x, now) => PassMeans(s, id, Waiter(a, x, false), now);
    case Resume(id, now) => PassMeans(s, id, s.waiters[id], now);
    case Abandon(id) =>
    case Call(op) => StepValid(s.pool, op);
  }

  /** The same waiters, each of them notified. */
  predicate AllWoken(before: map<WaiterId, Waiter>, after: map<WaiterId, Waiter>) {
    after.Keys == before.Keys
    && forall id :: id in before ==> after[id] == Waiter(before[id].attemptId, before[id].exclude, true)
  }

  /** In every reachable state, a waiter for whom some eligible host has a free slot can run, and gets
      a lease when it runs next; when no host is live, every waiter can run, and fails. */
  lemma {:induction false} ServableIsServed(p: Pool, es: seq<Event>, id: WaiterId, now: Time)
    requires p.Valid() && Interleaving(Service(p, map[]), es)
    ensures var s := Reached(Service(p, map[]), es);
            s.pool.Valid() && Named(s) &&
            (id in s.waiters && (Servable(s.pool, s.waiters[id].exclude) || NoneLive(s.pool)) ==>
               && Enabled(s, Resume(id, now)) && var r := Next(s, Resume(id, now)).1;
               && (Servable(s.pool, s.waiters[id].exclude) ==>
                     r.Leased? && r.lease.attemptId == s.waiters[id].attemptId)
               && (NoneLive(s.pool) ==> r == NoHealthyHosts))
  {
    ReachedKeeps(Service(p, map[]), es);
    var s := Reached(Service(p, map[]), es);
    if id in s.waiters && (Servable(s.pool, s.waiters[id].exclude) || NoneLive(s.pool)) {
      WokenIfServable(s, id, now);
    }
  }

  lemma WokenIfServable(s: Service, id: WaiterId, now: Time)
    requires s.pool.Valid() && Named(s) && NoLostWakeup(s) && id in s.waiters
    requires Servable(s.pool, s.waiters[id].exclude) || NoneLive(s.pool)
    ensures Enabled(s, Resume(id, now))
    ensures var r := Next(s, Resume(id, now)).1;
            && (Servable(s.pool, s.waiters[id].exclude) ==> r.Leased? && r.lease.attemptId == s.waiters[id].attemptId)
            && (NoneLive(s.pool) ==> r == NoHealthyHosts)
  {
    PassMeans(s, id, s.waiters[id], now);
    GrantMeans(s.pool, s.waiters[id].attemptId, s.waiters[id].exclude, now);
    if Unservable(s.pool, s.waiters[id]) { WaitsRightly(s.pool, s.waiters[id]); }
  }

  lemma WaitsRightly(p: Pool, w: Waiter)
    requires p.Valid() && w.attemptId != "" && Unservable(p, w)
    ensures !Servable(p, w.exclude) && !NoneLive(p)
  {
    assert Acquired(p, w.attemptId, w.exclude, 0.0).1 == Full;
    GrantMeans(p, w.attemptId, w.exclude, 0.0);
    var h :| h in p.Live();
    assert h in p.slots && h !in p.quarantined;
  }

  // --- the pool behind the service -----------------------------------------------------

  /** The calls for the pool that an event makes. */
  function OpsOf(s: Service, e: Event): seq<Op>
    requires Enabled(s, e)
  {
    match e
    case Arrive(_, a, x, now) => [Acquire(a, x, now)]
    case Resume(id, now) => [Acquire(s.waiters[id].attemptId, s.waiters[id].exclude, now)]
    case Abandon(_) => []
    case Call(op) => [op]
  }

  ghost function AllOps(s: Service, es: seq<Event>): seq<Op>
    requires s.pool.Valid() && Named(s) && NoLostWakeup(s) && Interleaving(s, es)
    decreases |es|
  {
    if es == [] then []
    else
      NextKeeps(s, es[0]);
      OpsOf(s, es[0]) + AllOps(Next(s, es[0]).0, es[1..])
  }

  /** Every interleaving takes the pool through the calls made, one after the other. */
  lemma {:induction false} PoolIsRun(s: Service, es: seq<Event>)
    requires s.pool.Valid() && Named(s) && NoLostWakeup(s) && Interleaving(s, es)
    ensures ProperRun(AllOps(s, es)) && Reached(s, es).pool == After(s.pool, AllOps(s, es))
    decreases |es|
  {
    if es != [] {
      NextKeeps(s, es[0]);
      PoolIsRun(Next(s, es[0]).0, es[1..]);
      EventIsCall(s, es[0]);
      AfterConcat(s.pool, OpsOf(s, es[0]), AllOps(Next(s, es[0]).0, es[1..]));
    }
  }

  lemma {:induction false} EventIsCall(s: Service, e: Event)
    requires s.pool.Valid() && Named(s) && Enabled(s, e)
    ensures ProperRun(OpsOf(s, e)) && Next(s, e).0.pool == After(s.pool, OpsOf(s, e))
  {
    var ops := OpsOf(s, e);
    if ops != [] {
      StepValid(s.pool, ops[0]);
      assert ops[1..] == [];
      assert After(s.pool, ops) == Step(s.pool, ops[0]);
    }
  }
}
