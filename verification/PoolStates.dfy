/** The slot-lease state machine: its state, the effect of every operation on it, and
    what keeps its invariant. */
module PoolStates {
  import opened Basics

  type Host = string
  // The token factory never repeats itself; its n-th token is written n.  A dictionary keyed by
  // tokens therefore iterates in increasing token order.
  type Token = nat

  datatype Lease = Lease(token: Token, host: Host, slot: nat, attemptId: string,
                         expiry: Time, heartbeat: Time)

  datatype Grant = Granted(lease: Lease) | Full | Rejected

  datatype Pool = Pool(slots: map<Host, nat>, ttl: Time, used: map<Host, set<nat>>,
                       leases: map<Token, Lease>, quarantined: set<Host>,
                       pidPaths: map<Token, string>, orphans: map<Host, seq<string>>,
                       minted: nat)
  {
    function Live(): set<Host> { slots.Keys - quarantined }

    function Free(h: Host): int
      requires h in slots && h in used
    {
      slots[h] - |used[h]|
    }

    /** The hosts an acquisition may draw from: the untried ones while there are any. */
    function Preferred(exclude: set<Host>): set<Host> {
      if Live() - exclude != {} then Live() - exclude else Live()
    }

    function Candidates(exclude: set<Host>): set<Host>
      requires slots.Keys <= used.Keys
    {
      set h | h in Preferred(exclude) && Free(h) > 0
    }

    /** h is a most-free member of hosts, and has the smallest label among the most-free ones. */
    ghost predicate IsBest(hosts: set<Host>, h: Host)
      requires hosts <= slots.Keys && hosts <= used.Keys
    {
      && h in hosts
      && forall c :: c in hosts && c != h ==> Free(c) < Free(h) || (Free(c) == Free(h) && Below(h, c))
    }

    ghost predicate Valid() {
      && used.Keys == slots.Keys
      && "" !in slots
      && (forall t :: t in leases ==> LeaseOk(t))
      && SlotsDistinct()
      && (forall h {:trigger Accounted(h)} :: h in used ==> Accounted(h))
      && pidPaths.Keys <= leases.Keys
      && orphans.Keys <= quarantined
      && (forall h :: h in orphans ==> orphans[h] != [])
    }

    ghost predicate LeaseOk(t: Token)
      requires t in leases
    {
      var l := leases[t];
      && t < minted && l.token == t && l.attemptId != ""
      && l.host in slots && l.host !in quarantined && l.slot < slots[l.host]
    }

    ghost predicate SlotsDistinct() {
      forall t, u, h, s :: Holds(t, h, s) && Holds(u, h, s) ==> t == u
    }

    ghost predicate Holds(t: Token, h: Host, s: nat) {
      t in leases && leases[t].host == h && leases[t].slot == s
    }

    /** The used slots of h are exactly the slots of the leases on h. */
    ghost predicate Accounted(h: Host)
      requires h in used
    {
      && (forall t, s :: Holds(t, h, s) ==> s in used[h])
      && (forall s :: s in used[h] ==> exists t :: Holds(t, h, s))
    }

    ghost function TokensOn(h: Host): set<Token> {
      set t | t in leases && leases[t].host == h
    }

    /** The pid paths registered by leases on h, in the order the first n leases were granted. */
    function PathsOn(h: Host, n: nat): seq<string> {
      if n == 0 then []
      else
        PathsOn(h, n - 1) +
        if n - 1 in leases && leases[n - 1].host == h && n - 1 in pidPaths
        then [pidPaths[n - 1]] else []
    }

    function OrphansOf(h: Host): seq<string> {
      if h in orphans then orphans[h] else []
    }

    predicate Extendable(t: Token, now: Time) {
      t in leases && now < leases[t].expiry
    }

    predicate Expired(t: Token, now: Time) {
      t in leases && leases[t].expiry <= now
    }

    function ExpiredHosts(now: Time): set<Host> {
      set t | t in leases && leases[t].expiry <= now :: leases[t].host
    }
  }

  // --- choosing a host and a slot ----------------------------------------------

  lemma {:induction false} BestExists(p: Pool, hosts: set<Host>)
    requires hosts != {} && hosts <= p.slots.Keys && hosts <= p.used.Keys
    ensures exists h :: p.IsBest(hosts, h)
    decreases hosts
  {
    var x :| x in hosts;
    if hosts == {x} {
      assert p.IsBest(hosts, x);
    } else {
      BestExists(p, hosts - {x});
      var b :| p.IsBest(hosts - {x}, b);
      BelowTotal(x, b);
      if p.Free(x) > p.Free(b) || (p.Free(x) == p.Free(b) && Below(x, b)) {
        forall c | c in hosts && c != x && p.Free(c) == p.Free(x) ensures Below(x, c) {
          if c != b { BelowTransitive(x, b, c); }
        }
        assert p.IsBest(hosts, x);
      } else {
        assert p.IsBest(hosts, b);
      }
    }
  }

  lemma BestUnique(p: Pool, hosts: set<Host>, g: Host, h: Host)
    requires hosts <= p.slots.Keys && hosts <= p.used.Keys
    requires p.IsBest(hosts, g) && p.IsBest(hosts, h)
    ensures g == h
  {
    if g != h && Below(g, h) { BelowAsymmetric(g, h); }
  }

  ghost function Best(p: Pool, hosts: set<Host>): (h: Host)
    requires hosts != {} && hosts <= p.slots.Keys && hosts <= p.used.Keys
    ensures p.IsBest(hosts, h)
  {
    BestExists(p, hosts);
    var h :| p.IsBest(hosts, h);
    h
  }

  ghost predicate IsFirstFree(taken: set<nat>, s: nat) {
    s !in taken && forall i: nat :: i < s ==> i in taken
  }

  /** Counting alone shows that a host with a positive free count has a free index in range. */
  lemma FreeSlotExists(taken: set<nat>, n: nat)
    requires |taken| < n
    ensures exists s: nat :: s < n && IsFirstFree(taken, s)
  {
    if forall i: nat :: i < n ==> i in taken {
      RangeSize(taken, n);
    } else {
      var i: nat :| i < n && i !in taken;
      SmallestGap(taken, i);
    }
  }

  lemma {:induction false} SmallestGap(taken: set<nat>, i: nat)
    requires i !in taken
    ensures exists s: nat :: s <= i && IsFirstFree(taken, s)
  {
    if j: nat :| j < i && j !in taken {
      SmallestGap(taken, j);
    } else {
      assert IsFirstFree(taken, i);
    }
  }

  ghost function FirstFree(taken: set<nat>, n: nat): (s: nat)
    requires |taken| < n
    ensures s < n && IsFirstFree(taken, s)
  {
    FreeSlotExists(taken, n);
    var s: nat :| s < n && IsFirstFree(taken, s);
    s
  }

  // --- what each operation does to the state -----------------------------------

  ghost function Acquired(p: Pool, attemptId: string, exclude: set<Host>, now: Time): (Pool, Grant)
    requires p.Valid()
  {
    var hosts := p.Candidates(exclude);
    if hosts == {} then (p, Full)
    else
      var h := Best(p, hosts);
      var s := FirstFree(p.used[h], p.slots[h]);
      var taken := p.(used := p.used[h := p.used[h] + {s}], minted := p.minted + 1);
      if attemptId == "" then (taken, Rejected)
      else
        var l := Lease(p.minted, h, s, attemptId, now + p.ttl, now);
        (taken.(leases := p.leases[l.token := l]), Granted(l))
  }

  function Released(p: Pool, t: Token): Pool
    requires p.used.Keys == p.slots.Keys
  {
    if t !in p.leases then p
    else
      var l := p.leases[t];
      p.(leases := p.leases - {t}, pidPaths := p.pidPaths - {t},
         used := if l.host in p.used then p.used[l.host := p.used[l.host] - {l.slot}] else p.used)
  }

  function Registered(p: Pool, t: Token, path: string): Pool {
    if t in p.leases then p.(pidPaths := p.pidPaths[t := path]) else p
  }

  function Beaten(p: Pool, t: Token, now: Time): Pool {
    if p.Extendable(t, now)
    then p.(leases := p.leases[t := p.leases[t].(heartbeat := now, expiry := now + p.ttl)])
    else p
  }

  function KeptLeases(p: Pool, hs: set<Host>): map<Token, Lease> {
    map t | t in p.leases && p.leases[t].host !in hs :: p.leases[t]
  }

  function KeptPids(p: Pool, hs: set<Host>): map<Token, string> {
    map t | t in p.pidPaths && t in p.leases && p.leases[t].host !in hs :: p.pidPaths[t]
  }

  function KeptSlots(p: Pool, hs: set<Host>): map<Host, set<nat>> {
    map h | h in p.used :: if h in hs then {} else p.used[h]
  }

  /** The orphan list of h once every host of hs is quarantined: the pid paths registered by the
      leases that are dropped join it, oldest lease first. */
  function OrphansWith(p: Pool, hs: set<Host>, h: Host): seq<string> {
    p.OrphansOf(h) + if h in hs then p.PathsOn(h, p.minted) else []
  }

  function OrphanLists(p: Pool, hs: set<Host>): map<Host, seq<string>> {
    map h | h in p.orphans.Keys + hs && OrphansWith(p, hs, h) != [] :: OrphansWith(p, hs, h)
  }

  /** Quarantine every host of hs: their leases are dropped and their slots are free. */
  function Isolated(p: Pool, hs: set<Host>): Pool {
    p.(quarantined := p.quarantined + hs, leases := KeptLeases(p, hs), used := KeptSlots(p, hs),
       pidPaths := KeptPids(p, hs), orphans := OrphanLists(p, hs))
  }

  function Readmitted(p: Pool, h: Host): Pool {
    p.(orphans := p.orphans - {h}, quarantined := p.quarantined - {h})
  }

  function Swept(p: Pool, now: Time): Pool { Isolated(p, p.ExpiredHosts(now)) }

  // --- operations as data ------------------------------------------------------

  datatype Op =
    | Acquire(attemptId: string, exclude: set<Host>, now: Time)
    | Release(token: Token)
    | RegisterPid(token: Token, path: string)
    | Heartbeat(token: Token, now: Time)
    | Quarantine(host: Host)
    | MarkReconciled(host: Host)
    | Sweep(now: Time)

  ghost function Step(p: Pool, op: Op): Pool
    requires p.Valid()
  {
    match op
    case Acquire(a, e, now) => Acquired(p, a, e, now).0
    case Release(t) => Released(p, t)
    case RegisterPid(t, path) => Registered(p, t, path)
    case Heartbeat(t, now) => Beaten(p, t, now)
    case Quarantine(h) => Isolated(p, {h})
    case MarkReconciled(h) => Readmitted(p, h)
    case Sweep(now) => Swept(p, now)
  }

  /** An acquisition that names its attempt, or any other operation. */
  predicate Proper(op: Op) {
    op.Acquire? ==> op.attemptId != ""
  }

  // --- the invariant -----------------------------------------------------------

  lemma AcquiredAccounted(p: Pool, attemptId: string, exclude: set<Host>, now: Time, h: Host)
    requires p.Valid() && attemptId != ""
    requires var r := Acquired(p, attemptId, exclude, now); r.1.Granted? && h in r.0.used
    ensures Acquired(p, attemptId, exclude, now).0.Accounted(h)
  {
    var (q, g) := Acquired(p, attemptId, exclude, now);
    var l := g.lease;
    assert p.Accounted(h) && p.Accounted(l.host);
    assert forall t, x, s :: q.Holds(t, x, s) ==> p.Holds(t, x, s) || (t == l.token && x == l.host && s == l.slot);
    forall s | s in q.used[h] ensures exists t :: q.Holds(t, h, s) {
      if s in p.used[h] {
        var t :| p.Holds(t, h, s);
        assert q.Holds(t, h, s);
      } else {
        assert q.Holds(l.token, h, s);
      }
    }
  }

  lemma AcquiredDistinct(p: Pool, attemptId: string, exclude: set<Host>, now: Time)
    requires p.Valid() && attemptId != "" && Acquired(p, attemptId, exclude, now).1.Granted?
    ensures Acquired(p, attemptId, exclude, now).0.SlotsDistinct()
  {
    var (q, g) := Acquired(p, attemptId, exclude, now);
    var l := g.lease;
    assert p.Accounted(l.host);
    assert forall t, h, s :: q.Holds(t, h, s) ==> p.Holds(t, h, s) || (t == l.token && h == l.host && s == l.slot);
  }

  lemma AcquiredValid(p: Pool, attemptId: string, exclude: set<Host>, now: Time)
    requires p.Valid() && attemptId != ""
    ensures Acquired(p, attemptId, exclude, now).0.Valid()
  {
    var (q, g) := Acquired(p, attemptId, exclude, now);
    if g.Granted? {
      AcquiredDistinct(p, attemptId, exclude, now);
      forall h | h in q.used ensures q.Accounted(h) { AcquiredAccounted(p, attemptId, exclude, now, h); }
      assert forall t :: t in p.leases ==> p.LeaseOk(t);
    }
  }

  lemma ReleasedValid(p: Pool, t: Token)
    requires p.Valid()
    ensures Released(p, t).Valid()
  {
    var q := Released(p, t);
    assert forall u, h, s :: q.Holds(u, h, s) ==> p.Holds(u, h, s);
    if t in p.leases { assert p.Holds(t, p.leases[t].host, p.leases[t].slot); }
    forall h | h in q.used ensures q.Accounted(h) {
      assert p.Accounted(h);
      forall s | s in q.used[h] ensures exists u :: q.Holds(u, h, s) {
        var u :| p.Holds(u, h, s);
        assert q.Holds(u, h, s);
      }
    }
  }

  lemma BeatenValid(p: Pool, t: Token, now: Time)
    requires p.Valid()
    ensures Beaten(p, t, now).Valid()
  {
    SameSlotsValid(p, Beaten(p, t, now));
  }

  /** Changing neither who holds which slot nor what is quarantined keeps the slot accounts. */
  lemma SameSlotsValid(p: Pool, q: Pool)
    requires p.Valid() && q.used == p.used && q.leases.Keys == p.leases.Keys
    requires forall t :: t in p.leases ==>
      q.leases[t].host == p.leases[t].host && q.leases[t].slot == p.leases[t].slot
    ensures q.SlotsDistinct()
    ensures forall h {:trigger q.Accounted(h)} :: h in q.used ==> q.Accounted(h)
  {
    assert forall t, h, s :: q.Holds(t, h, s) ==> p.Holds(t, h, s);
    forall h | h in q.used ensures q.Accounted(h) {
      assert p.Accounted(h);
      forall s | s in q.used[h] ensures exists t :: q.Holds(t, h, s) {
        var t :| p.Holds(t, h, s);
        assert q.Holds(t, h, s);
      }
    }
  }

  lemma IsolatedValid(p: Pool, hs: set<Host>)
    requires p.Valid()
    ensures Isolated(p, hs).Valid()
  {
    var q := Isolated(p, hs);
    assert forall t, h, s :: q.Holds(t, h, s) ==> p.Holds(t, h, s);
    forall h | h in q.used ensures q.Accounted(h) {
      assert p.Accounted(h);
      forall s | s in q.used[h] ensures exists t :: q.Holds(t, h, s) {
        var t :| p.Holds(t, h, s);
        assert q.Holds(t, h, s);
      }
    }
  }

  lemma ReadmittedValid(p: Pool, h: Host)
    requires p.Valid()
    ensures Readmitted(p, h).Valid()
  {
    SameSlotsValid(p, Readmitted(p, h));
  }

  lemma RegisteredValid(p: Pool, t: Token, path: string)
    requires p.Valid()
    ensures Registered(p, t, path).Valid()
  {
    SameSlotsValid(p, Registered(p, t, path));
  }

  /** Granting an unnamed attempt takes the slot before the lease object refuses the empty id,
      so the slot is used by no lease. */
  lemma RejectedLeaks(p: Pool, exclude: set<Host>, now: Time)
    requires p.Valid() && p.Candidates(exclude) != {}
    ensures !Acquired(p, "", exclude, now).0.Valid()
  {
    var q := Acquired(p, "", exclude, now).0;
    var h := Best(p, p.Candidates(exclude));
    var s := FirstFree(p.used[h], p.slots[h]);
    assert p.Accounted(h);
    assert s in q.used[h];
    assert forall t :: q.Holds(t, h, s) ==> p.Holds(t, h, s);
    assert !q.Accounted(h);
  }

  /** Every operation keeps the invariant, except an acquisition without an attempt id that
      finds a candidate host. */
  lemma StepValid(p: Pool, op: Op)
    requires p.Valid()
    ensures Step(p, op).Valid() <==> Proper(op) || p.Candidates(op.exclude) == {}
  {
    match op
    case Acquire(a, e, now) =>
      if a != "" { AcquiredValid(p, a, e, now); }
      else if p.Candidates(e) != {} { RejectedLeaks(p, e, now); }
    case Release(t) => ReleasedValid(p, t);
    case RegisterPid(t, path) => RegisteredValid(p, t, path);
    case Heartbeat(t, now) => BeatenValid(p, t, now);
    case Quarantine(h) => IsolatedValid(p, {h});
    case MarkReconciled(h) => ReadmittedValid(p, h);
    case Sweep(now) => IsolatedValid(p, p.ExpiredHosts(now));
  }
}
