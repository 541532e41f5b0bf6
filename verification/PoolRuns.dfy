/** What holds over whole runs of pool operations: conservation of slots, the lifetime of a lease,
    the frozen state of a quarantined host, and which host an acquisition is given. */
module PoolRuns {
  import opened Basics
  import opened PoolStates

  ghost predicate ProperRun(ops: seq<Op>) {
    forall i :: 0 <= i < |ops| ==> Proper(ops[i])
  }

  /** The pool after ops, which are the calls of all clients in the order they were served. */
  ghost function After(p: Pool, ops: seq<Op>): (q: Pool)
    requires p.Valid() && ProperRun(ops)
    ensures q.Valid()
    decreases |ops|
  {
    if ops == [] then p
    else
      StepValid(p, ops[0]);
      After(Step(p, ops[0]), ops[1..])
  }

  lemma {:induction false} AfterConcat(p: Pool, a: seq<Op>, b: seq<Op>)
    requires p.Valid() && ProperRun(a) && ProperRun(b)
    ensures ProperRun(a + b) && After(p, a + b) == After(After(p, a), b)
    decreases |a|
  {
    if a == [] {
      assert a + b == b;
    } else {
      StepValid(p, a[0]);
      assert (a + b)[0] == a[0] && (a + b)[1..] == a[1..] + b;
      AfterConcat(Step(p, a[0]), a[1..], b);
    }
  }

  lemma {:induction false} AfterThen(p: Pool, ops: seq<Op>, op: Op)
    requires p.Valid() && ProperRun(ops) && Proper(op)
    ensures ProperRun(ops + [op]) && After(p, ops + [op]) == Step(After(p, ops), op)
  {
    StepValid(After(p, ops), op);
    AfterConcat(p, ops, [op]);
    assert After(After(p, ops), [op]) == Step(After(p, ops), op);
  }

  // --- conservation ------------------------------------------------------------

  ghost function FreeCounts(p: Pool): map<Host, int>
    requires p.Valid()
  {
    map h | h in p.slots :: p.Free(h)
  }

  ghost function SlotCounts(p: Pool): map<Host, int> { map h | h in p.slots :: p.slots[h] }

  ghost function UsedCounts(p: Pool): map<Host, int> { map h | h in p.used :: |p.used[h]| }

  ghost function TokensOnAny(p: Pool, hs: set<Host>): set<Token> {
    set t | t in p.leases && p.leases[t].host in hs
  }

  lemma TokensPerHost(p: Pool, h: Host)
    requires p.Valid() && h in p.slots
    ensures |p.TokensOn(h)| == |p.used[h]|
  {
    assert p.Accounted(h);
    var slotOf := map t | t in p.leases :: p.leases[t].slot;
    forall a, b | a in p.TokensOn(h) && b in p.TokensOn(h) && slotOf[a] == slotOf[b] ensures a == b {
      assert p.Holds(a, h, slotOf[a]) && p.Holds(b, h, slotOf[a]);
    }
    ImageSize(p.TokensOn(h), slotOf);
    var image := Image(p.TokensOn(h), slotOf);
    forall s | s in image ensures s in p.used[h] {
      var t :| t in p.TokensOn(h) && slotOf[t] == s;
      assert p.Holds(t, h, s);
    }
    forall s | s in p.used[h] ensures s in image {
      var t: Token :| p.Holds(t, h, s);
      assert t in p.TokensOn(h) && slotOf[t] == s;
    }
    assert image == p.used[h];
  }

  lemma {:induction false} UsedSlotsAreLeases(p: Pool, hs: set<Host>)
    requires p.Valid() && hs <= p.slots.Keys
    ensures Sum(UsedCounts(p), hs) == |TokensOnAny(p, hs)|
    decreases hs
  {
    if hs == {} {
      assert TokensOnAny(p, hs) == {};
    } else {
      var h :| h in hs;
      SumSplit(UsedCounts(p), hs, h);
      UsedSlotsAreLeases(p, hs - {h});
      TokensPerHost(p, h);
      assert TokensOnAny(p, hs) == TokensOnAny(p, hs - {h}) + p.TokensOn(h);
      assert TokensOnAny(p, hs - {h}) !! p.TokensOn(h);
    }
  }

  /** No slot is lost or invented: the free slots of the live hosts and the live leases together
      are all the slots of the live hosts. */
  lemma {:induction false} Conservation(p: Pool, ops: seq<Op>)
    requires p.Valid() && ProperRun(ops)
    ensures var q := After(p, ops);
            Sum(FreeCounts(q), q.Live()) + |q.leases| == Sum(SlotCounts(q), q.Live())
  {
    var q := After(p, ops);
    UsedSlotsAreLeases(q, q.Live());
    assert forall t {:trigger q.LeaseOk(t)} :: t in q.leases ==> q.LeaseOk(t);
    assert TokensOnAny(q, q.Live()) == q.leases.Keys;
    SumDifference(SlotCounts(q), UsedCounts(q), FreeCounts(q), q.Live());
  }

  // --- what an acquisition is given --------------------------------------------

  ghost predicate Taken(p: Pool, h: Host, s: nat) {
    exists t :: p.Holds(t, h, s)
  }

  /** Nothing is granted exactly when every preferred host is full.  Otherwise the host is the
      most-free preferred one, smallest label on ties; it repeats an excluded host only when
      every live host is excluded; the slot is the smallest one nobody holds; and the lease, under a
      new token, expires one ttl from now. */
  lemma AcquiredChoice(p: Pool, attemptId: string, exclude: set<Host>, now: Time)
    requires p.Valid() && attemptId != ""
    ensures var (q, g) := Acquired(p, attemptId, exclude, now);
            && (g.Full? <==> forall h :: h in p.Preferred(exclude) ==> p.Free(h) == 0)
            && (g.Full? ==> q == p)
            && (g.Granted? ==>
                  var l := g.lease;
                  && l.host in p.Live() && p.IsBest(p.Candidates(exclude), l.host)
                  && (l.host in exclude ==> p.Live() <= exclude)
                  && !Taken(p, l.host, l.slot)
                  && (forall s: nat :: s < l.slot ==> Taken(p, l.host, s))
                  && l == Lease(p.minted, l.host, l.slot, attemptId, now + p.ttl, now)
                  && q.leases == p.leases[l.token := l] && l.token !in p.leases
                  && q.pidPaths == p.pidPaths && q.quarantined == p.quarantined && q.orphans == p.orphans)
            && !g.Rejected?
  {
    forall h | h in p.slots ensures p.Free(h) >= 0 { FreeNonNegative(p, h); }
    var (q, g) := Acquired(p, attemptId, exclude, now);
    if g.Full? {
      forall h | h in p.Preferred(exclude) ensures p.Free(h) == 0 {
        assert h !in p.Candidates(exclude);
      }
    }
    if g.Granted? {
      var l := g.lease;
      assert p.Accounted(l.host);
      forall s: nat | s < l.slot ensures Taken(p, l.host, s) { assert s in p.used[l.host]; }
      if l.host in exclude {
        forall h | h in p.Live() ensures h in exclude { assert h in p.Live() - exclude || h in exclude; }
      }
      assert forall t :: t in p.leases ==> p.LeaseOk(t) && t < p.minted;
    }
  }

  /** h may be drawn from: it is not quarantined, and not excluded unless all live hosts are. */
  predicate Eligible(p: Pool, exclude: set<Host>, h: Host) {
    && h in p.slots && h !in p.quarantined
    && (h in exclude ==> forall g :: g in p.slots && g !in p.quarantined ==> g in exclude)
  }

  lemma EligibleIsPreferred(p: Pool, exclude: set<Host>)
    ensures forall h :: Eligible(p, exclude, h) <==> h in p.Preferred(exclude)
  {
    if g :| g in p.Live() - exclude {
      assert g in p.slots && g !in p.quarantined && g !in exclude;
    } else {
      assert forall g :: g in p.Live() ==> g in p.Live() - exclude || g in exclude;
    }
  }

  /** The choice of an acquisition in terms of slot counts: it finds nothing exactly when every
      eligible host uses all its slots; otherwise no eligible host has more slots free than the one
      that is granted, or as many and a smaller label. */
  lemma ChoiceInDetail(p: Pool, attemptId: string, exclude: set<Host>, now: Time)
    requires p.Valid() && attemptId != ""
    ensures var g := Acquired(p, attemptId, exclude, now).1;
            && (g.Full? <==> forall h :: Eligible(p, exclude, h) ==> |p.used[h]| == p.slots[h])
            && (g.Granted? ==>
                  && Eligible(p, exclude, g.lease.host) && |p.used[g.lease.host]| < p.slots[g.lease.host]
                  && forall c :: Eligible(p, exclude, c) && c != g.lease.host ==> Beats(p, g.lease.host, c))
  {
    EligibleIsPreferred(p, exclude);
    AcquiredChoice(p, attemptId, exclude, now);
    forall h | h in p.slots ensures |p.used[h]| <= p.slots[h] { FreeNonNegative(p, h); }
    var g := Acquired(p, attemptId, exclude, now).1;
    if g.Granted? {
      forall c | Eligible(p, exclude, c) && c != g.lease.host ensures Beats(p, g.lease.host, c) {
        assert c in p.Preferred(exclude) && (c in p.Candidates(exclude) <==> |p.used[c]| < p.slots[c]);
      }
    }
  }

  /** h has more slots free than c, or as many and a smaller label. */
  predicate Beats(p: Pool, h: Host, c: Host)
    requires h in p.slots && h in p.used && c in p.slots && c in p.used
  {
    var best, left := p.slots[h] - |p.used[h]|, p.slots[c] - |p.used[c]|;
    left < best || (left == best && Below(h, c))
  }

  /** A grant takes its slot, and changes no other slot, lease or path. */
  lemma GrantEffect(p: Pool, attemptId: string, exclude: set<Host>, now: Time)
    requires p.Valid() && attemptId != ""
    ensures var (q, g) := Acquired(p, attemptId, exclude, now);
            g.Granted? ==>
              && (forall c :: c in p.used ==>
                    c in q.used && q.used[c] == p.used[c] + if c == g.lease.host then {g.lease.slot} else {})
              && forall u :: u != g.lease.token ==> SameLease(p, q, u)
  {}

  lemma FreeNonNegative(p: Pool, h: Host)
    requires p.Valid() && h in p.slots
    ensures p.Free(h) >= 0
  {
    assert p.Accounted(h);
    forall s | s in p.used[h] ensures s < p.slots[h] {
      var t :| p.Holds(t, h, s);
      assert p.LeaseOk(t);
    }
    BoundedSize(p.used[h], p.slots[h]);
  }

  /** Releasing what was just granted undoes the grant: only the token is spent. */
  lemma {:induction false} ReleaseUndoesAcquire(p: Pool, attemptId: string, exclude: set<Host>, now: Time)
    requires p.Valid()
    ensures var (q, g) := Acquired(p, attemptId, exclude, now);
            g.Granted? ==> Released(q, g.lease.token) == p.(minted := p.minted + 1)
  {
    var (q, g) := Acquired(p, attemptId, exclude, now);
    if g.Granted? {
      var l := g.lease;
      assert forall t :: t in p.leases ==> p.LeaseOk(t) && t < p.minted;
      var r := Released(q, l.token);
      assert r.leases == p.leases;
      assert r.pidPaths == p.pidPaths;
      assert q.used[l.host] - {l.slot} == p.used[l.host];
      assert r.used == p.used;
    }
  }

  // --- the lifetime of a lease -------------------------------------------------

  function TimeOf(op: Op, before: Time): Time {
    match op
    case Acquire(_, _, now) => now
    case Heartbeat(_, now) => now
    case Sweep(now) => now
    case _ => before
  }

  /** The clock readings of ops never go back, and none precedes from. */
  predicate Clocked(ops: seq<Op>, from: Time) {
    ops == [] || (TimeOf(ops[0], from) >= from && Clocked(ops[1..], TimeOf(ops[0], from)))
  }

  function EndTime(ops: seq<Op>, from: Time): Time {
    if ops == [] then from else EndTime(ops[1..], TimeOf(ops[0], from))
  }

  /** A lease is at each instant either extendable or expired, never both: a heartbeat at that
      instant extends it exactly when a sweep at that instant would not count it as expired. */
  lemma {:induction false} ExtendableXorExpired(p: Pool, t: Token, now: Time)
    requires p.Valid() && t in p.leases && p.ttl > 0.0
    ensures p.Expired(t, now) ==> Beaten(p, t, now) == p && t !in Swept(p, now).leases
    ensures !p.Expired(t, now) ==> !Beaten(p, t, now).Expired(t, now)
    ensures (Beaten(p, t, now).leases[t].expiry == now + p.ttl) || p.Expired(t, now)
    ensures t !in Swept(p, now).leases <==>
            exists u :: p.Expired(u, now) && p.leases[u].host == p.leases[t].host
  {
    assert p.Expired(t, now) ==> p.leases[t].host in p.ExpiredHosts(now);
    if t !in Swept(p, now).leases {
      assert p.leases[t].host in p.ExpiredHosts(now);
      var u :| u in p.leases && p.leases[u].expiry <= now && p.leases[u].host == p.leases[t].host;
      assert p.Expired(u, now);
    }
    if u :| p.Expired(u, now) && p.leases[u].host == p.leases[t].host {
      assert p.leases[u].host in p.ExpiredHosts(now);
    }
  }

  /** Once a heartbeat for an issued token is refused, every later one is, whatever is called in
      between. */
  lemma {:induction false} RefusedForever(p: Pool, t: Token, from: Time, ops: seq<Op>)
    requires p.Valid() && ProperRun(ops) && Clocked(ops, from)
    requires t < p.minted && !p.Extendable(t, from)
    ensures forall now :: now >= EndTime(ops, from) ==> !After(p, ops).Extendable(t, now)
    decreases |ops|
  {
    if ops != [] {
      StepValid(p, ops[0]);
      RefusedForever(Step(p, ops[0]), t, TimeOf(ops[0], from), ops[1..]);
    }
  }

  /** At every moment of ops, less than ttl has passed since the last beat of t, which at the
      start was at last. */
  predicate Timely(ops: seq<Op>, t: Token, last: Time, ttl: Time)
    decreases |ops|
  {
    ops == [] ||
    (&& TimeOf(ops[0], last) < last + ttl
     && Timely(ops[1..], t, if ops[0].Heartbeat? && ops[0].token == t then ops[0].now else last, ttl))
  }

  /** No sweep among ops, run from p, finds the lease t expired. */
  ghost predicate NeverExpired(p: Pool, ops: seq<Op>, t: Token)
    requires p.Valid() && ProperRun(ops)
    decreases |ops|
  {
    ops == [] ||
    (StepValid(p, ops[0]);
     && (ops[0].Sweep? ==> !p.Expired(t, ops[0].now))
     && NeverExpired(Step(p, ops[0]), ops[1..], t))
  }

  /** Nothing other than its own expiry takes the lease t away during ops. */
  ghost predicate Undisturbed(p: Pool, ops: seq<Op>, t: Token, h: Host)
    requires p.Valid() && ProperRun(ops)
    decreases |ops|
  {
    ops == [] ||
    (StepValid(p, ops[0]);
     && ops[0] != Release(t) && ops[0] != Quarantine(h)
     && (ops[0].Sweep? ==> forall u :: u != t && p.Expired(u, ops[0].now) ==> p.leases[u].host != h)
     && Undisturbed(Step(p, ops[0]), ops[1..], t, h))
  }

  /** What one call does to a lease whose holder beat at last, in time. */
  lemma BeatKeepsExpiry(p: Pool, op: Op, t: Token, last: Time)
    requires p.Valid() && Proper(op) && t < p.minted && (t in p.leases ==> p.leases[t].expiry == last + p.ttl)
    requires op.Heartbeat? && op.token == t ==> op.now < last + p.ttl
    ensures var q := Step(p, op);
            t in q.leases ==>
              && t in p.leases && q.leases[t].host == p.leases[t].host
              && q.leases[t].expiry == (if op.Heartbeat? && op.token == t then op.now else last) + q.ttl
  {}

  lemma SpareKeeps(p: Pool, op: Op, t: Token)
    requires p.Valid() && Proper(op) && t in p.leases
    requires op != Release(t) && op != Quarantine(p.leases[t].host)
    requires op.Sweep? ==> p.leases[t].host !in p.ExpiredHosts(op.now)
    ensures t in Step(p, op).leases && Step(p, op).leases[t].host == p.leases[t].host
  {}

  /** A holder that always beats less than ttl after its previous beat is the expired lease of no
      sweep, and keeps its lease unless something other than its own expiry takes it. */
  lemma {:induction false} BeatingHolderKeepsLease(p: Pool, ops: seq<Op>, t: Token, last: Time)
    requires p.Valid() && ProperRun(ops)
    requires t in p.leases ==> p.leases[t].expiry == last + p.ttl
    requires t < p.minted && Timely(ops, t, last, p.ttl)
    ensures NeverExpired(p, ops, t)
    ensures t in p.leases && Undisturbed(p, ops, t, p.leases[t].host) ==> t in After(p, ops).leases
    decreases |ops|
  {
    if ops != [] {
      var op := ops[0];
      StepValid(p, op);
      var q := Step(p, op);
      var next := if op.Heartbeat? && op.token == t then op.now else last;
      BeatKeepsExpiry(p, op, t, last);
      BeatingHolderKeepsLease(q, ops[1..], t, next);
      if t in p.leases && Undisturbed(p, ops, t, p.leases[t].host) { SpareKeeps(p, op, t); }
    }
  }

  // --- quarantine --------------------------------------------------------------

  lemma {:induction false} NoLeasePaths(p: Pool, h: Host, n: nat)
    requires forall t :: t in p.leases ==> p.leases[t].host != h
    ensures p.PathsOn(h, n) == []
  {
    if n > 0 { NoLeasePaths(p, h, n - 1); }
  }

  /** Until the host is marked reconciled, a quarantined host stays quarantined, holds no lease,
      and keeps exactly the orphan list it had. */
  lemma {:induction false} QuarantinedFrozen(p: Pool, ops: seq<Op>, h: Host)
    requires p.Valid() && ProperRun(ops) && h in p.quarantined
    requires MarkReconciled(h) !in ops
    ensures var q := After(p, ops);
            && h in q.quarantined && q.OrphansOf(h) == p.OrphansOf(h)
            && forall t :: t in q.leases ==> q.leases[t].host != h
    decreases |ops|
  {
    NoLeaseOnQuarantined(p, h);
    if ops != [] {
      StepValid(p, ops[0]);
      StepKeepsQuarantine(p, ops[0], h);
      QuarantinedFrozen(Step(p, ops[0]), ops[1..], h);
    }
  }

  lemma NoLeaseOnQuarantined(p: Pool, h: Host)
    requires p.Valid() && h in p.quarantined
    ensures forall t :: t in p.leases ==> p.leases[t].host != h
  {
    assert forall t :: t in p.leases ==> p.LeaseOk(t);
  }

  lemma StepKeepsQuarantine(p: Pool, op: Op, h: Host)
    requires p.Valid() && h in p.quarantined && op != MarkReconciled(h)
    ensures h in Step(p, op).quarantined && Step(p, op).OrphansOf(h) == p.OrphansOf(h)
  {
    NoLeaseOnQuarantined(p, h);
    NoLeasePaths(p, h, p.minted);
  }

  /** Quarantining records every pid path the dropped leases had registered, after those already
      recorded, and frees all slots of the host; nothing else changes for other hosts. */
  lemma {:induction false} QuarantineRecordsPaths(p: Pool, h: Host, t: Token)
    requires p.Valid() && t in p.pidPaths && p.leases[t].host == h
    ensures var q := Step(p, Quarantine(h));
            && t !in q.leases && p.pidPaths[t] in q.OrphansOf(h)
            && p.OrphansOf(h) <= q.OrphansOf(h)
            && (forall g :: g != h ==> q.OrphansOf(g) == p.OrphansOf(g))
            && (h in q.used ==> q.used[h] == {})
  {
    assert p.LeaseOk(t);
    PathRecorded(p, h, t, p.minted);
  }

  lemma {:induction false} PathRecorded(p: Pool, h: Host, t: Token, n: nat)
    requires t < n && t in p.leases && t in p.pidPaths && p.leases[t].host == h
    ensures p.pidPaths[t] in p.PathsOn(h, n)
  {
    if t < n - 1 { PathRecorded(p, h, t, n - 1); }
  }

  // --- the registered pid paths ------------------------------------------------------

  /** The registered path of t is path, or none. */
  predicate PathIs(p: Pool, t: Token, path: Option<string>) {
    path == if t in p.pidPaths then Some(p.pidPaths[t]) else None
  }

  /** Nothing but registering a path for the lease t itself changes the path of t, as long as t is
      held; in particular no other lease's registration or release does. */
  lemma PathUntouched(p: Pool, op: Op, t: Token, path: Option<string>)
    requires p.Valid() && t in p.leases && PathIs(p, t, path)
    requires !(op.RegisterPid? && op.token == t) && t in Step(p, op).leases
    ensures PathIs(Step(p, op), t, path)
  {}

  /** Registering a path for a live lease puts it on record and leaves everything else as it was;
      for a token that is no lease it does nothing. */
  lemma RegisterExact(p: Pool, t: Token, path: string)
    requires p.Valid()
    ensures var q := Step(p, RegisterPid(t, path));
            && (t in p.leases ==> PathIs(q, t, Some(path)))
            && (t !in p.leases ==> q == p)
            && (forall u :: u != t ==> (u in q.pidPaths <==> u in p.pidPaths))
            && (forall u :: u != t && u in p.pidPaths ==> q.pidPaths[u] == p.pidPaths[u])
            && q.(pidPaths := p.pidPaths) == p
  {}

  /** A call that takes the lease t away either releases t, or quarantines its host and keeps the
      path of t among the orphans. */
  lemma TakenAway(p: Pool, op: Op, t: Token)
    requires p.Valid() && t in p.leases && t !in Step(p, op).leases && op != Release(t)
    ensures var q := Step(p, op); var h := p.leases[t].host;
            h in q.quarantined && (t in p.pidPaths ==> p.pidPaths[t] in q.OrphansOf(h))
  {
    assert p.LeaseOk(t);
    if t in p.pidPaths { PathRecorded(p, p.leases[t].host, t, p.minted); }
  }

  /** These calls neither release the lease t, nor register another path for it, nor readmit h. */
  predicate Spares(ops: seq<Op>, t: Token, h: Host) {
    forall i :: 0 <= i < |ops| ==>
      ops[i] != Release(t) && !(ops[i].RegisterPid? && ops[i].token == t) && ops[i] != MarkReconciled(h)
  }

  /** The lease t is held on h with this path, or h is quarantined with the path among its orphans. */
  predicate PathKept(p: Pool, t: Token, h: Host, path: string) {
    || (t in p.leases && p.leases[t].host == h && PathIs(p, t, Some(path)))
    || (t !in p.leases && h in p.quarantined && path in p.OrphansOf(h))
  }

  /** No registered path is lost: through every run that does not release the lease or readmit its
      host, the path stays with the lease, and once the lease is dropped it is an orphan of the host. */
  lemma {:induction false} NoPathIsLost(p: Pool, ops: seq<Op>, t: Token, h: Host, path: string)
    requires p.Valid() && ProperRun(ops) && Spares(ops, t, h) && t < p.minted && PathKept(p, t, h, path)
    ensures PathKept(After(p, ops), t, h, path)
    decreases |ops|
  {
    if ops != [] {
      var op, q := ops[0], Step(p, ops[0]);
      StepValid(p, op);
      PathStep(p, op, t, h, path);
      NoPathIsLost(q, ops[1..], t, h, path);
    }
  }

  lemma PathStep(p: Pool, op: Op, t: Token, h: Host, path: string)
    requires p.Valid() && Proper(op) && Spares([op], t, h) && t < p.minted && PathKept(p, t, h, path)
    ensures PathKept(Step(p, op), t, h, path) && t < Step(p, op).minted
  {
    assert [op][0] == op;
    var q := Step(p, op);
    if t in p.leases {
      if t in q.leases { PathUntouched(p, op, t, Some(path)); } else { TakenAway(p, op, t); }
    } else {
      StepKeepsQuarantine(p, op, h);
    }
  }

  /** From the registration on: a path registered for a live lease is kept in this way. */
  lemma RegisteredPathIsKept(p: Pool, t: Token, path: string, ops: seq<Op>)
    requires p.Valid() && t in p.leases && ProperRun(ops) && Spares(ops, t, p.leases[t].host)
    ensures ProperRun([RegisterPid(t, path)] + ops)
    ensures PathKept(After(p, [RegisterPid(t, path)] + ops), t, p.leases[t].host, path)
  {
    assert p.LeaseOk(t);
    var one := [RegisterPid(t, path)];
    StepValid(p, one[0]);
    assert After(p, one) == Step(p, one[0]) by { assert one[1..] == []; }
    RegisterExact(p, t, path);
    NoPathIsLost(After(p, one), ops, t, p.leases[t].host, path);
    AfterConcat(p, one, ops);
  }

  // --- what the other calls leave as it was --------------------------------------------------

  /** The tokens whose paths join the orphans of h, in the order in which they were granted. */
  function DroppedPaths(p: Pool, h: Host, n: nat): seq<Token> {
    if n == 0 then []
    else
      DroppedPaths(p, h, n - 1)
      + if n - 1 in p.pidPaths && n - 1 in p.leases && p.leases[n - 1].host == h then [n - 1] else []
  }

  lemma {:induction false} DroppedInOrder(p: Pool, h: Host, n: nat)
    ensures var ts := DroppedPaths(p, h, n);
            && (forall t: Token :: t in ts <==> t < n && t in p.pidPaths && t in p.leases && p.leases[t].host == h)
            && (forall i, k :: 0 <= i < k < |ts| ==> ts[i] < ts[k])
  {
    if n > 0 {
      DroppedInOrder(p, h, n - 1);
      var before, ts := DroppedPaths(p, h, n - 1), DroppedPaths(p, h, n);
      assert ts == before || ts == before + [n - 1];
      assert forall i :: 0 <= i < |before| ==> before[i] in before && before[i] < n - 1;
    }
  }

  /** The paths that join the orphans of h are those of the tokens dropped there, each once. */
  lemma {:induction false} DroppedPathsExact(p: Pool, h: Host, n: nat)
    ensures var ts := DroppedPaths(p, h, n);
            && |p.PathsOn(h, n)| == |ts|
            && (forall i :: 0 <= i < |ts| ==> ts[i] in p.pidPaths && p.PathsOn(h, n)[i] == p.pidPaths[ts[i]])
  {
    if n > 0 { DroppedPathsExact(p, h, n - 1); }
  }

  /** What stays the same in every call: the hosts with their slots, and the time to live. */
  lemma SlotsAreFixed(p: Pool, op: Op)
    requires p.Valid()
    ensures Step(p, op).slots == p.slots && Step(p, op).ttl == p.ttl
    ensures Step(p, op).minted == p.minted || (op.Acquire? && Step(p, op).minted == p.minted + 1)
  {}

  /** The lease u, its slot and its path are in q as in p. */
  ghost predicate SameLease(p: Pool, q: Pool, u: Token) {
    && (u in q.leases <==> u in p.leases) && (u in p.leases && u in q.leases ==> q.leases[u] == p.leases[u])
    && PathIs(q, u, if u in p.pidPaths then Some(p.pidPaths[u]) else None)
  }

  ghost predicate SameQuarantine(p: Pool, q: Pool) {
    q.quarantined == p.quarantined && forall h :: q.OrphansOf(h) == p.OrphansOf(h)
  }

  /** A release takes away the lease it names, its slot and its path, and nothing else. */
  lemma ReleaseEffect(p: Pool, t: Token)
    requires p.Valid()
    ensures var q := Step(p, Release(t));
            && t !in q.leases && t !in q.pidPaths && SameQuarantine(p, q)
            && (forall u :: u != t ==> SameLease(p, q, u))
            && (forall h :: h in p.slots ==>
                  && h in q.used
                  && q.used[h] == p.used[h] - if t in p.leases && p.leases[t].host == h then {p.leases[t].slot} else {})
  {
    if t in p.leases { assert p.LeaseOk(t); }
  }

  /** A heartbeat moves the expiry of a lease that is live before its deadline, and nothing else. */
  lemma BeatEffect(p: Pool, t: Token, now: Time)
    requires p.Valid()
    ensures var q := Step(p, Heartbeat(t, now));
            && q.used == p.used && SameQuarantine(p, q) && (forall u :: u != t ==> SameLease(p, q, u))
            && (if t in p.leases && now < p.leases[t].expiry
                then t in q.leases && q.leases[t] == p.leases[t].(heartbeat := now, expiry := now + p.ttl)
                else SameLease(p, q, t))
            && PathIs(q, t, if t in p.pidPaths then Some(p.pidPaths[t]) else None)
  {}

  /** q is p with exactly the hosts of hs quarantined besides: their leases are dropped, their slots
      are free, the paths of the dropped leases are appended to their orphans; other hosts are left
      alone. */
  ghost predicate Isolates(p: Pool, q: Pool, hs: set<Host>) {
    && (forall h :: h in q.quarantined <==> h in p.quarantined || h in hs)
    && (forall t :: t in p.leases ==>
          if p.leases[t].host in hs then t !in q.leases && t !in q.pidPaths else SameLease(p, q, t))
    && (forall t :: t !in p.leases ==> t !in q.leases && t !in q.pidPaths)
    && (forall h :: h in p.used ==> h in q.used && q.used[h] == if h in hs then {} else p.used[h])
    && (forall h :: q.OrphansOf(h) == p.OrphansOf(h) + if h in hs then p.PathsOn(h, p.minted) else [])
  }

  lemma IsolationLeases(p: Pool, hs: set<Host>, t: Token)
    requires p.Valid()
    ensures var q := Isolated(p, hs);
            if t in p.leases && p.leases[t].host !in hs then SameLease(p, q, t) else t !in q.leases && t !in q.pidPaths
  {}

  lemma IsolationEffect(p: Pool, hs: set<Host>)
    requires p.Valid()
    ensures Isolates(p, Isolated(p, hs), hs)
  {
    forall t
      ensures var q := Isolated(p, hs);
              if t in p.leases && p.leases[t].host !in hs then SameLease(p, q, t)
              else t !in q.leases && t !in q.pidPaths
    {
      IsolationLeases(p, hs, t);
    }
  }

  lemma QuarantineEffect(p: Pool, h: Host)
    requires p.Valid()
    ensures Isolates(p, Step(p, Quarantine(h)), {h})
  {
    IsolationEffect(p, {h});
  }

  /** A sweep quarantines exactly the hosts of the leases whose deadline has come. */
  lemma SweepEffect(p: Pool, now: Time)
    requires p.Valid()
    ensures exists hs :: Isolates(p, Step(p, Sweep(now)), hs)
                         && forall h :: h in hs <==> exists t :: Expires(p, t, h, now)
  {
    var hs := p.ExpiredHosts(now);
    IsolationEffect(p, hs);
    forall h ensures h in hs <==> exists t :: Expires(p, t, h, now) {
      if h in hs {
        var t :| t in p.leases && p.leases[t].expiry <= now && p.leases[t].host == h;
        assert Expires(p, t, h, now);
      }
    }
    assert Isolates(p, Step(p, Sweep(now)), hs);
  }

  predicate Expires(p: Pool, t: Token, h: Host, now: Time) {
    t in p.leases && p.leases[t].host == h && now >= p.leases[t].expiry
  }

  /** Marking a host reconciled makes it live again with no orphans on record, and nothing else. */
  lemma ReadmitEffect(p: Pool, h: Host)
    requires p.Valid()
    ensures var q := Step(p, MarkReconciled(h));
            && h !in q.quarantined && q.OrphansOf(h) == [] && (h in p.slots ==> h in q.Live())
            && q.used == p.used && q.leases == p.leases && q.pidPaths == p.pidPaths
            && (forall g :: g != h ==> (g in q.quarantined <==> g in p.quarantined) && q.OrphansOf(g) == p.OrphansOf(g))
  {}

  // --- the live-host view ----------------------------------------------------------

  function HostsUpTo(p: Pool, n: nat): map<string, Host> {
    if n == 0 then map[]
    else if n - 1 in p.leases then HostsUpTo(p, n - 1)[p.leases[n - 1].attemptId := p.leases[n - 1].host]
    else HostsUpTo(p, n - 1)
  }

  ghost predicate AttemptsDistinct(p: Pool) {
    forall t, u :: t in p.leases && u in p.leases && p.leases[t].attemptId == p.leases[u].attemptId ==> t == u
  }

  lemma {:induction false} HostsUpToShows(p: Pool, n: nat)
    requires AttemptsDistinct(p)
    ensures forall t :: t in p.leases && t < n ==>
              p.leases[t].attemptId in HostsUpTo(p, n) && HostsUpTo(p, n)[p.leases[t].attemptId] == p.leases[t].host
    ensures forall a :: a in HostsUpTo(p, n) ==> exists t :: t in p.leases && t < n && p.leases[t].attemptId == a
  {
    if n > 0 { HostsUpToShows(p, n - 1); }
  }

  /** Whatever leases there are, the view shows the attempt of a lease with the host of the lease granted
      to it last. */
  lemma {:induction false} ViewShowsLatest(p: Pool, n: nat, t: Token)
    requires LatestOf(p, n, t)
    ensures p.leases[t].attemptId in HostsUpTo(p, n)
    ensures HostsUpTo(p, n)[p.leases[t].attemptId] == p.leases[t].host
  {
    if t < n - 1 { ViewShowsLatest(p, n - 1, t); }
  }

  /** And it shows nothing else. */
  lemma {:induction false} ViewShowsLeases(p: Pool, n: nat, a: string)
    requires a in HostsUpTo(p, n)
    ensures exists t :: LatestOf(p, n, t) && p.leases[t].attemptId == a
  {
    if n - 1 in p.leases && p.leases[n - 1].attemptId == a {
      assert LatestOf(p, n, n - 1);
    } else {
      ViewShowsLeases(p, n - 1, a);
      var t :| LatestOf(p, n - 1, t) && p.leases[t].attemptId == a;
      assert LatestOf(p, n, t);
    }
  }

  /** Of the first n tokens, t is the last whose lease names its attempt. */
  predicate LatestOf(p: Pool, n: nat, t: Token) {
    t in p.leases && t < n && forall u :: u in p.leases && t < u < n ==> p.leases[u].attemptId != p.leases[t].attemptId
  }

  function AttemptNames(p: Pool): map<Token, string> { map t | t in p.leases :: p.leases[t].attemptId }

  lemma ViewShowsNames(p: Pool)
    requires p.Valid() && AttemptsDistinct(p)
    ensures Image(p.leases.Keys, AttemptNames(p)) == HostsUpTo(p, p.minted).Keys
  {
    var m, names := HostsUpTo(p, p.minted), AttemptNames(p);
    HostsUpToShows(p, p.minted);
    assert forall t :: t in p.leases ==> p.LeaseOk(t) && t < p.minted;
    forall a | a in m ensures a in Image(p.leases.Keys, names) {
      var t :| t in p.leases && t < p.minted && p.leases[t].attemptId == a;
      assert names[t] == a;
    }
    forall a | a in Image(p.leases.Keys, names) ensures a in m {
      var t :| t in p.leases && names[t] == a;
    }
  }

  /** Where no two leases name the same attempt, the view has exactly one entry per lease. */
  lemma {:induction false} ViewLosesNothing(p: Pool)
    requires p.Valid() && AttemptsDistinct(p)
    ensures var m := HostsUpTo(p, p.minted);
            && (forall t :: t in p.leases ==>
                  p.leases[t].attemptId in m && m[p.leases[t].attemptId] == p.leases[t].host)
            && (forall a :: a in m ==> exists t :: t in p.leases && p.leases[t].attemptId == a)
            && |m| == |p.leases|
  {
    HostsUpToShows(p, p.minted);
    assert forall t :: t in p.leases ==> p.LeaseOk(t) && t < p.minted;
    ViewShowsNames(p);
    ImageSize(p.leases.Keys, AttemptNames(p));
    assert |HostsUpTo(p, p.minted).Keys| == |HostsUpTo(p, p.minted)| && |p.leases.Keys| == |p.leases|;
  }
}
