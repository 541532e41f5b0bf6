/** The mutable slot-lease pool.  Every method's effect is the state function of its operation. */
module LeasePools {
  import opened Basics
  import opened PoolStates
  import opened PoolRuns

  class LeasePool {
    const slots: map<Host, nat>
    const ttl: Time
    var quarantined: set<Host>
    var used: map<Host, set<nat>>
    var leases: map<Token, Lease>
    var pidPaths: map<Token, string>
    var orphans: map<Host, seq<string>>
    var minted: nat  // how many tokens the token factory has produced

    function State(): Pool
      reads this
    {
      Pool(slots, ttl, used, leases, quarantined, pidPaths, orphans, minted)
    }

    ghost predicate Valid()
      reads this
    {
      State().Valid()
    }

    constructor (hosts: map<Host, nat>, leaseTtl: Time)
      requires "" !in hosts
      ensures Valid()
      ensures slots == hosts && ttl == leaseTtl && leases == map[] && quarantined == {} && minted == 0
      ensures pidPaths == map[] && orphans == map[]
    {
      slots, ttl := hosts, leaseTtl;
      quarantined, leases, pidPaths, orphans, minted := {}, map[], map[], map[], 0;
      used := map h | h in hosts :: {};
    }

    method HealthyHostCount() returns (n: nat)
      requires Valid()
      ensures n == |State().Live()|
    {
      n := |slots.Keys - quarantined|;
    }

    /** The free slots of the live hosts, which together with the live leases are all their slots. */
    method FreeSlots() returns (n: int)
      requires Valid()
      ensures n + |leases| == Sum(SlotCounts(State()), State().Live())
    {
      n := 0;
      var rest := slots.Keys - quarantined;
      Conservation(State(), []);
      while rest != {}
        invariant rest <= State().Live()
        invariant n + Sum(FreeCounts(State()), rest) == Sum(FreeCounts(State()), State().Live())
        decreases rest
      {
        var h :| h in rest;
        SumSplit(FreeCounts(State()), rest, h);
        n := n + slots[h] - |used[h]|;
        rest := rest - {h};
      }
    }

    method Candidates(exclude: set<Host>) returns (candidates: set<Host>)
      requires Valid()
      ensures candidates == State().Candidates(exclude)
    {
      var live := slots.Keys - quarantined;
      var untried := live - exclude;
      var pool := if untried != {} then untried else live;
      candidates := set h | h in pool && slots[h] - |used[h]| > 0;
    }

    method MostFree(candidates: set<Host>) returns (best: Host)
      requires Valid() && candidates != {} && candidates <= slots.Keys
      ensures best == Best(State(), candidates)
    {
      best :| best in candidates;
      var rest := candidates - {best};
      while rest != {}
        invariant rest <= candidates && best in candidates - rest
        invariant State().IsBest(candidates - rest, best)
        decreases rest
      {
        var h :| h in rest;
        BelowTotal(h, best);
        ghost var previous := best;
        var better := slots[h] - |used[h]| > slots[best] - |used[best]|
                      || (slots[h] - |used[h]| == slots[best] - |used[best]| && Below(h, best));
        if better { best := h; }
        forall c | c in candidates - rest && better && c != previous && Below(previous, c)
          ensures Below(h, c) || State().Free(h) != State().Free(previous)
        {
          if Below(h, previous) { BelowTransitive(h, previous, c); }
        }
        rest := rest - {h};
      }
      assert candidates - rest == candidates;
      BestUnique(State(), candidates, best, Best(State(), candidates));
    }

    method TakeSlot(host: Host) returns (slot: nat)
      requires Valid() && host in slots && State().Free(host) > 0
      modifies this`used
      ensures slot == FirstFree(old(used[host]), slots[host])
      ensures used == old(used[host := used[host] + {slot}])
    {
      ghost var gap := FirstFree(used[host], slots[host]);
      slot := 0;
      while slot in used[host]
        invariant slot <= gap
        invariant forall i: nat :: i < slot ==> i in used[host]
        decreases gap - slot
      {
        slot := slot + 1;
      }
      assert slot == gap;
      used := used[host := used[host] + {slot}];
    }

    method Acquire(attemptId: string, exclude: set<Host>, now: Time) returns (grant: Grant)
      requires Valid()
      modifies this
      ensures (State(), grant) == Acquired(old(State()), attemptId, exclude, now)
      ensures attemptId != "" ==> Valid()
    {
      ghost var before := State();
      ghost var effect := Acquired(before, attemptId, exclude, now);
      var candidates := Candidates(exclude);
      if candidates == {} { return Full; }
      var host := MostFree(candidates);
      var slot := TakeSlot(host);
      var token := minted;
      minted := minted + 1;
      assert State() == before.(used := before.used[host := before.used[host] + {slot}], minted := before.minted + 1);
      if attemptId == "" { return Rejected; }
      var lease := Lease(token, host, slot, attemptId, now + ttl, now);
      leases := leases[token := lease];
      assert State() == effect.0 && effect.1 == Granted(lease);
      AcquiredValid(before, attemptId, exclude, now);
      return Granted(lease);
    }

    method Release(token: Token) returns (freed: bool)
      requires Valid()
      modifies this
      ensures State() == Released(old(State()), token) && freed == (token in old(leases))
      ensures Valid()
    {
      ReleasedValid(State(), token);
      if token !in leases { return false; }
      var lease := leases[token];
      assert State().LeaseOk(token);
      leases := leases - {token};
      used := used[lease.host := used[lease.host] - {lease.slot}];
      pidPaths := pidPaths - {token};
      return true;
    }

    method RegisterPid(token: Token, path: string)
      requires Valid()
      modifies this
      ensures State() == Registered(old(State()), token, path) && Valid()
    {
      RegisteredValid(State(), token, path);
      if token in leases { pidPaths := pidPaths[token := path]; }
    }

    method OrphanPaths(host: Host) returns (paths: seq<string>)
      requires Valid()
      ensures paths == State().OrphansOf(host)
      ensures paths != [] ==> host in quarantined
    {
      paths := if host in orphans then orphans[host] else [];
    }

    method Heartbeat(token: Token, now: Time) returns (alive: bool)
      requires Valid()
      modifies this
      ensures State() == Beaten(old(State()), token, now) && Valid()
      ensures alive == old(State()).Extendable(token, now)
    {
      BeatenValid(State(), token, now);
      if token !in leases { return false; }
      if now >= leases[token].expiry { return false; }
      leases := leases[token := leases[token].(heartbeat := now, expiry := now + ttl)];
      return true;
    }

    method Quarantine(host: Host)
      requires Valid()
      modifies this
      ensures State() == Isolated(old(State()), {host}) && Valid()
    {
      ghost var before := State();
      quarantined := quarantined + {host};
      for i := 0 to minted
        invariant State() == DroppedUpTo(before, host, i)
      {
        DroppedLeases(before, host, i);
        DroppedRest(before, host, i);
        assert forall t :: t in before.leases ==> before.LeaseOk(t);
        if i in leases && leases[i].host == host { Drop(i); }
      }
      DroppedAll(before, host);
      IsolatedValid(before, {host});
    }

    /** Take one lease away, turning its pid path into an orphan of its host. */
    method Drop(token: Token)
      requires token in leases && leases[token].host in used
      modifies this
      ensures State() == DroppedOne(old(State()), token)
    {
      ghost var remaining := WithoutSlot(used, leases[token].host, leases[token].slot);
      var lease := leases[token];
      leases := leases - {token};
      used := used[lease.host := used[lease.host] - {lease.slot}];
      assert used == remaining;
      if token in pidPaths {
        var recorded := if lease.host in orphans then orphans[lease.host] else [];
        orphans := orphans[lease.host := recorded + [pidPaths[token]]];
        pidPaths := pidPaths - {token};
      }
    }

    method MarkReconciled(host: Host)
      requires Valid()
      modifies this
      ensures State() == Readmitted(old(State()), host) && Valid()
    {
      ReadmittedValid(State(), host);
      orphans := orphans - {host};
      quarantined := quarantined - {host};
    }

    method SweepExpired(now: Time) returns (hosts: seq<Host>)
      requires Valid()
      modifies this
      ensures Ascending(hosts) && forall h :: h in hosts <==> h in old(State()).ExpiredHosts(now)
      ensures State() == Swept(old(State()), now) && Valid()
    {
      var affected := set t | t in leases && leases[t].expiry <= now :: leases[t].host;
      assert affected == State().ExpiredHosts(now);
      QuarantineAll(affected);
      hosts := SortedLabels(affected);
    }

    method QuarantineAll(hosts: set<Host>)
      requires Valid()
      modifies this
      ensures State() == Isolated(old(State()), hosts) && Valid()
    {
      ghost var before := State();
      ghost var done := {};
      var rest := hosts;
      IsolatedNone(before);
      while rest != {}
        invariant done + rest == hosts && done !! rest
        invariant State() == Isolated(before, done) && Valid()
        decreases rest
      {
        var h :| h in rest;
        Quarantine(h);
        IsolatedOneMore(before, done, h);
        done, rest := done + {h}, rest - {h};
      }
      assert done == hosts;
    }

    /** The host of each attempt that holds a lease; where two leases name the same attempt, only the
        later one shows. */
    method CurrentHosts() returns (hosts: map<string, Host>)
      requires Valid()
      ensures hosts == HostsUpTo(State(), minted)
    {
      hosts := map[];
      for i := 0 to minted
        invariant hosts == HostsUpTo(State(), i)
      {
        if i in leases { hosts := hosts[leases[i].attemptId := leases[i].host]; }
      }
    }

    method QuarantinedHosts() returns (hosts: seq<Host>)
      requires Valid()
      ensures Ascending(hosts) && forall h :: h in hosts <==> h in State().quarantined
    {
      hosts := SortedLabels(quarantined);
    }

    /** Serve one call of some client. */
    method Serve(op: Op)
      requires Valid() && Proper(op)
      modifies this
      ensures Valid() && State() == Step(old(State()), op)
    {
      match op
      case Acquire(a, e, now) => var _ := Acquire(a, e, now);
      case Release(t) => var _ := Release(t);
      case RegisterPid(t, path) => RegisterPid(t, path);
      case Heartbeat(t, now) => var _ := Heartbeat(t, now);
      case Quarantine(h) => Quarantine(h);
      case MarkReconciled(h) => MarkReconciled(h);
      case Sweep(now) => var _ := SweepExpired(now);
    }

    /** Serve the calls of other clients, in the order they arrive. */
    method ServeAll(ops: seq<Op>)
      requires Valid() && ProperRun(ops)
      modifies this
      ensures Valid() && State() == After(old(State()), ops)
    {
      for i := 0 to |ops|
        invariant Valid() && After(State(), ops[i..]) == After(old(State()), ops)
      {
        assert ops[i..][0] == ops[i] && ops[i..][1..] == ops[i + 1..];
        Serve(ops[i]);
      }
    }
  }

  // --- quarantining lease by lease ----------------------------------------------

  function DroppedOne(p: Pool, t: Token): Pool {
    if t !in p.leases then p
    else
      var l := p.leases[t];
      p.(leases := p.leases - {t}, pidPaths := p.pidPaths - {t},
         used := WithoutSlot(p.used, l.host, l.slot),
         orphans := if t in p.pidPaths then p.orphans[l.host := p.OrphansOf(l.host) + [p.pidPaths[t]]]
                    else p.orphans)
  }

  function WithoutSlot(used: map<Host, set<nat>>, h: Host, s: nat): map<Host, set<nat>> {
    map g | g in used :: if g == h then used[g] - {s} else used[g]
  }

  /** The pool once the quarantine of h has dropped the leases on h among the first n granted. */
  function DroppedUpTo(p: Pool, h: Host, n: nat): Pool {
    if n == 0 then p.(quarantined := p.quarantined + {h})
    else if n - 1 in p.leases && p.leases[n - 1].host == h then DroppedOne(DroppedUpTo(p, h, n - 1), n - 1)
    else DroppedUpTo(p, h, n - 1)
  }

  lemma {:induction false} DroppedRest(p: Pool, h: Host, n: nat)
    ensures var q := DroppedUpTo(p, h, n);
            && q.slots == p.slots && q.ttl == p.ttl && q.minted == p.minted
            && q.quarantined == p.quarantined + {h} && q.used.Keys == p.used.Keys
  {
    if n > 0 { DroppedRest(p, h, n - 1); }
  }

  lemma {:induction false} DroppedLeases(p: Pool, h: Host, n: nat)
    ensures forall t :: t in DroppedUpTo(p, h, n).leases <==>
                        t in p.leases && (p.leases[t].host != h || t >= n)
    ensures forall t :: t in DroppedUpTo(p, h, n).leases ==> DroppedUpTo(p, h, n).leases[t] == p.leases[t]
  {
    if n > 0 { DroppedLeases(p, h, n - 1); }
  }

  lemma {:induction false} DroppedPids(p: Pool, h: Host, n: nat)
    requires p.pidPaths.Keys <= p.leases.Keys
    ensures forall t :: t in DroppedUpTo(p, h, n).pidPaths <==>
                        t in p.pidPaths && (p.leases[t].host != h || t >= n)
    ensures forall t :: t in DroppedUpTo(p, h, n).pidPaths ==>
                        DroppedUpTo(p, h, n).pidPaths[t] == p.pidPaths[t]
  {
    if n > 0 {
      DroppedPids(p, h, n - 1);
      DroppedLeases(p, h, n - 1);
    }
  }

  lemma DroppedOneOrphans(p: Pool, t: Token, g: Host)
    ensures DroppedOne(p, t).OrphansOf(g) == p.OrphansOf(g) +
              if t in p.leases && p.leases[t].host == g && t in p.pidPaths then [p.pidPaths[t]] else []
  {}

  lemma {:induction false} DroppedOrphans(p: Pool, h: Host, n: nat, g: Host)
    requires p.pidPaths.Keys <= p.leases.Keys
    ensures DroppedUpTo(p, h, n).OrphansOf(g) == p.OrphansOf(g) + if g == h then p.PathsOn(h, n) else []
  {
    if n > 0 {
      DroppedOrphans(p, h, n - 1, g);
      DroppedLeases(p, h, n - 1);
      DroppedPids(p, h, n - 1);
      DroppedOneOrphans(DroppedUpTo(p, h, n - 1), n - 1, g);
    }
  }

  lemma {:induction false} NoEmptyOrphans(p: Pool, h: Host, n: nat)
    requires forall g :: g in p.orphans ==> p.orphans[g] != []
    ensures forall g :: g in DroppedUpTo(p, h, n).orphans ==> DroppedUpTo(p, h, n).orphans[g] != []
  {
    if n > 0 { NoEmptyOrphans(p, h, n - 1); }
  }

  /** After n steps a slot of h is still in use only if a lease granted later holds it. */
  lemma {:induction false} DroppedSlots(p: Pool, h: Host, n: nat, g: Host)
    requires g in p.used
    ensures g in DroppedUpTo(p, h, n).used
    ensures g != h ==> DroppedUpTo(p, h, n).used[g] == p.used[g]
    ensures g == h ==> DroppedUpTo(p, h, n).used[h] <= p.used[h]
    ensures g == h ==> forall t: Token, s :: p.Holds(t, h, s) && t < n ==> s !in DroppedUpTo(p, h, n).used[h]
  {
    if n > 0 {
      DroppedSlots(p, h, n - 1, g);
      DroppedLeases(p, h, n - 1);
    }
  }

  lemma DroppedAllSlots(p: Pool, h: Host)
    requires p.Valid()
    ensures DroppedUpTo(p, h, p.minted).used == KeptSlots(p, {h})
  {
    DroppedRest(p, h, p.minted);
    forall g | g in p.used ensures DroppedUpTo(p, h, p.minted).used[g] == KeptSlots(p, {h})[g] {
      DroppedSlots(p, h, p.minted, g);
      if g == h {
        assert p.Accounted(h);
        forall s | s in p.used[h] ensures s !in DroppedUpTo(p, h, p.minted).used[h] {
          var t: Token :| p.Holds(t, h, s);
          assert p.LeaseOk(t);
        }
      }
    }
  }

  lemma DroppedAllLeases(p: Pool, h: Host)
    requires p.Valid()
    ensures DroppedUpTo(p, h, p.minted).leases == KeptLeases(p, {h})
  {
    DroppedLeases(p, h, p.minted);
    assert forall t :: t in p.leases ==> p.LeaseOk(t) && t < p.minted;
  }

  lemma DroppedAllPids(p: Pool, h: Host)
    requires p.Valid()
    ensures DroppedUpTo(p, h, p.minted).pidPaths == KeptPids(p, {h})
  {
    DroppedPids(p, h, p.minted);
    assert forall t :: t in p.pidPaths ==> p.LeaseOk(t) && t < p.minted;
  }

  lemma DroppedAllOrphans(p: Pool, h: Host)
    requires p.Valid()
    ensures DroppedUpTo(p, h, p.minted).orphans == OrphanLists(p, {h})
  {
    forall g
      ensures DroppedUpTo(p, h, p.minted).OrphansOf(g) == p.OrphansOf(g) + if g == h then p.PathsOn(h, p.minted) else []
    {
      DroppedOrphans(p, h, p.minted, g);
    }
    NoEmptyOrphans(p, h, p.minted);
    var q := DroppedUpTo(p, h, p.minted).orphans;
    forall g ensures OrphansWith(p, {h}, g) == if g in q then q[g] else [] {
      assert DroppedUpTo(p, h, p.minted).OrphansOf(g) == OrphansWith(p, {h}, g);
    }
    SameOrphanLists(p, {h}, q);
  }

  lemma DroppedAll(p: Pool, h: Host)
    requires p.Valid()
    ensures DroppedUpTo(p, h, p.minted) == Isolated(p, {h})
  {
    DroppedRest(p, h, p.minted);
    DroppedAllLeases(p, h);
    DroppedAllPids(p, h);
    DroppedAllSlots(p, h);
    DroppedAllOrphans(p, h);
  }

  // --- quarantining several hosts ------------------------------------------------

  lemma SameOrphanLists(p: Pool, hs: set<Host>, q: map<Host, seq<string>>)
    requires forall g :: g in q ==> q[g] != []
    requires forall g :: OrphansWith(p, hs, g) == if g in q then q[g] else []
    ensures q == OrphanLists(p, hs)
  {
    forall g ensures g in q <==> g in OrphanLists(p, hs) {
      assert OrphansWith(p, hs, g) == if g in q then q[g] else [];
    }
    forall g | g in q ensures q[g] == OrphanLists(p, hs)[g] {
      assert OrphansWith(p, hs, g) == q[g];
    }
  }

  lemma IsolatedNone(p: Pool)
    requires p.Valid()
    ensures Isolated(p, {}) == p
  {
    assert KeptLeases(p, {}) == p.leases && KeptPids(p, {}) == p.pidPaths && KeptSlots(p, {}) == p.used;
    SameOrphanLists(p, {}, p.orphans);
    assert p.quarantined + {} == p.quarantined;
  }

  lemma {:induction false} SamePaths(p: Pool, q: Pool, h: Host, n: nat)
    requires forall t :: (t in p.leases && p.leases[t].host == h) <==> (t in q.leases && q.leases[t].host == h)
    requires forall t :: t in p.leases && p.leases[t].host == h ==>
      (t in p.pidPaths <==> t in q.pidPaths) && (t in p.pidPaths ==> p.pidPaths[t] == q.pidPaths[t])
    ensures p.PathsOn(h, n) == q.PathsOn(h, n)
  {
    if n > 0 { SamePaths(p, q, h, n - 1); }
  }

  lemma OrphansOneMore(p: Pool, hs: set<Host>, h: Host, g: Host)
    requires h !in hs
    ensures OrphansWith(Isolated(p, hs), {h}, g) == OrphansWith(p, hs + {h}, g)
  {
    var q := Isolated(p, hs);
    assert q.OrphansOf(g) == OrphansWith(p, hs, g);
    if g == h {
      assert q.PathsOn(h, p.minted) == p.PathsOn(h, p.minted) by { SamePaths(p, q, h, p.minted); }
    }
  }

  /** Quarantining host after host is quarantining them all at once, in whatever order. */
  lemma IsolatedOneMore(p: Pool, hs: set<Host>, h: Host)
    requires h !in hs
    ensures Isolated(Isolated(p, hs), {h}) == Isolated(p, hs + {h})
  {
    var q := Isolated(p, hs);
    assert KeptLeases(q, {h}) == KeptLeases(p, hs + {h});
    assert KeptPids(q, {h}) == KeptPids(p, hs + {h});
    assert KeptSlots(q, {h}) == KeptSlots(p, hs + {h});
    assert q.quarantined + {h} == p.quarantined + (hs + {h});
    OrphanListsOneMore(p, hs, h);
  }

  lemma OrphanListsOneMore(p: Pool, hs: set<Host>, h: Host)
    requires h !in hs
    ensures OrphanLists(Isolated(p, hs), {h}) == OrphanLists(p, hs + {h})
  {
    var lists := OrphanLists(Isolated(p, hs), {h});
    forall g ensures OrphansWith(p, hs + {h}, g) == if g in lists then lists[g] else [] {
      OrphansOneMore(p, hs, h, g);
    }
    SameOrphanLists(p, hs + {h}, lists);
  }
}
