/** The owner file of a remote host and the script that acquires, refreshes and releases it.  The
    script runs under an exclusive file lock and replaces the file in one step, so each run is one
    step of a trace over any number of sessions. */
module SessionLocks {
  import opened Basics

  type Session = string

  datatype Beat = At(time: Time) | NotANumber

  /** NotARecord: the file holds JSON that is not an object. */
  datatype File = Absent | Unparsable | NotARecord | Owner(session: Option<Session>, heartbeat: Beat)

  datatype Action = Acquire | Heartbeat | Release

  datatype Event = Event(action: Action, session: Session, ttl: Time, now: Time)

  const CONFLICT := 3
  const LOST := 4

  predicate OwnedBy(f: File, s: Session) { f.Owner? && f.session == Some(s) }

  /** The record still protects its owner against an acquirer that applies ttl at now. */
  predicate Protected(f: File, ttl: Time, now: Time) {
    f.Owner? && f.heartbeat.At? && now - f.heartbeat.time <= ttl
  }

  function Operated(f: File, e: Event): (File, int) {
    match e.action
    case Acquire =>
      if !OwnedBy(f, e.session) && Protected(f, e.ttl, e.now) then (f, CONFLICT)
      else (Owner(Some(e.session), At(e.now)), 0)
    case Heartbeat =>
      if OwnedBy(f, e.session) then (Owner(Some(e.session), At(e.now)), 0) else (f, LOST)
    case Release =>
      (if OwnedBy(f, e.session) then Absent else f, 0)
  }

  class OwnerFile {
    var file: File

    /** The script, as it runs under the guard lock. */
    method Operate(e: Event) returns (code: int)
      modifies this
      ensures (file, code) == Operated(old(file), e)
    {
      var readable := !file.Absent? && !file.Unparsable?;
      var owned := readable && file.Owner? && file.session == Some(e.session);
      if e.action == Acquire && !owned && readable && file.Owner? {
        var live := if file.heartbeat.At? then e.now - file.heartbeat.time <= e.ttl else false;
        if live { return CONFLICT; }
      }
      if e.action == Heartbeat && !owned { return LOST; }
      if e.action == Acquire || e.action == Heartbeat {
        file := Owner(Some(e.session), At(e.now));
      } else if owned {
        file := Absent;
      }
      return 0;
    }
  }

  // --- traces ----------------------------------------------------------------------

  function FileAfter(f: File, tr: seq<Event>): File {
    if tr == [] then f else Operated(FileAfter(f, tr[..|tr| - 1]), tr[|tr| - 1]).0
  }

  function CodeAt(f: File, tr: seq<Event>, i: nat): int
    requires i < |tr|
  {
    Operated(FileAfter(f, tr[..i]), tr[i]).1
  }

  predicate Takes(f: File, tr: seq<Event>, i: nat)
    requires i < |tr|
  {
    tr[i].action == Acquire && CodeAt(f, tr, i) == 0
  }

  predicate Refreshes(f: File, tr: seq<Event>, i: nat, s: Session)
    requires i < |tr|
  {
    tr[i].session == s && tr[i].action != Release && CodeAt(f, tr, i) == 0
  }

  /** The j-th event neither gives the lock to another session nor is a release by s. */
  ghost predicate Leaves(f: File, tr: seq<Event>, s: Session, j: nat)
    requires j < |tr|
  {
    !(Takes(f, tr, j) && tr[j].session != s) && !(tr[j].action == Release && tr[j].session == s)
  }

  /** The i-th event is a successful acquisition by s, after which no other session acquires
      successfully and s does not release. */
  ghost predicate TookAndKept(f: File, tr: seq<Event>, s: Session, i: nat)
    requires i < |tr|
  {
    && Takes(f, tr, i) && tr[i].session == s
    && forall j :: i < j < |tr| ==> Leaves(f, tr, s, j)
  }

  /** s is the last successful acquirer, and has not released since. */
  ghost predicate Owns(f: File, tr: seq<Event>, s: Session) {
    exists i: nat :: i < |tr| && TookAndKept(f, tr, s, i)
  }

  ghost predicate Monotone(tr: seq<Event>) {
    forall i, j :: 0 <= i < j < |tr| ==> tr[i].now <= tr[j].now
  }

  /** Looking at a prefix does not change what its events did. */
  lemma PrefixAgrees(f: File, tr: seq<Event>, n: nat, i: nat)
    requires i < n <= |tr|
    ensures CodeAt(f, tr[..n], i) == CodeAt(f, tr, i) && tr[..n][i] == tr[i]
  {
    assert tr[..n][..i] == tr[..i];
  }

  lemma PrefixKept(f: File, tr: seq<Event>, s: Session, i: nat)
    requires i < |tr| - 1
    ensures TookAndKept(f, tr, s, i) <==> TookAndKept(f, tr[..|tr| - 1], s, i) && Leaves(f, tr, s, |tr| - 1)
  {
    var n := |tr| - 1;
    PrefixAgrees(f, tr, n, i);
    forall j | i < j < n ensures Leaves(f, tr[..n], s, j) <==> Leaves(f, tr, s, j) {
      PrefixAgrees(f, tr, n, j);
    }
  }

  lemma {:induction false} OwnsStep(f: File, tr: seq<Event>, s: Session)
    requires tr != []
    ensures var n := |tr| - 1;
            Owns(f, tr, s) <==>
              (Takes(f, tr, n) && tr[n].session == s) || (Owns(f, tr[..n], s) && Leaves(f, tr, s, n))
  {
    var n := |tr| - 1;
    if Takes(f, tr, n) && tr[n].session == s { assert TookAndKept(f, tr, s, n); }
    if Owns(f, tr[..n], s) && Leaves(f, tr, s, n) {
      var i: nat :| i < n && TookAndKept(f, tr[..n], s, i);
      PrefixKept(f, tr, s, i);
    }
    if Owns(f, tr, s) {
      var i: nat :| i < |tr| && TookAndKept(f, tr, s, i);
      if i < n { PrefixKept(f, tr, s, i); }
    }
  }

  /** The file names s as its owner exactly when s is the last successful acquirer and has not
      released since. */
  lemma {:induction false} OwnerIsLastAcquirer(f: File, tr: seq<Event>, s: Session)
    requires !f.Owner?
    ensures OwnedBy(FileAfter(f, tr), s) <==> Owns(f, tr, s)
    decreases |tr|
  {
    if tr != [] {
      var n := |tr| - 1;
      OwnerIsLastAcquirer(f, tr[..n], s);
      OwnsStep(f, tr, s);
    }
  }

  lemma SameRefreshes(f: File, tr: seq<Event>, s: Session)
    requires tr != []
    ensures forall i: nat :: i < |tr| - 1 ==> (Refreshes(f, tr[..|tr| - 1], i, s) <==> Refreshes(f, tr, i, s))
  {
    forall i: nat | i < |tr| - 1 ensures Refreshes(f, tr[..|tr| - 1], i, s) <==> Refreshes(f, tr, i, s) {
      PrefixAgrees(f, tr, |tr| - 1, i);
    }
  }

  /** Every record in the file names an owner, and carries the time of that owner's latest
      successful acquisition or heartbeat. */
  lemma {:induction false} RecordIsLatestRefresh(f: File, tr: seq<Event>)
    requires !f.Owner? && Monotone(tr) && FileAfter(f, tr).Owner?
    ensures var g := FileAfter(f, tr);
            && g.session.Some? && g.heartbeat.At?
            && (exists i: nat :: i < |tr| && Refreshes(f, tr, i, g.session.value) && tr[i].now == g.heartbeat.time)
            && (forall i: nat :: i < |tr| && Refreshes(f, tr, i, g.session.value) ==> tr[i].now <= g.heartbeat.time)
    decreases |tr|
  {
    var n, g := |tr| - 1, FileAfter(f, tr);
    var before := FileAfter(f, tr[..n]);
    if g == Owner(Some(tr[n].session), At(tr[n].now)) && tr[n].action != Release && CodeAt(f, tr, n) == 0 {
      assert Refreshes(f, tr, n, g.session.value);
    } else {
      assert g == before;
      RecordIsLatestRefresh(f, tr[..n]);
      SameRefreshes(f, tr, g.session.value);
      var i: nat :| i < n && Refreshes(f, tr[..n], i, g.session.value) && tr[..n][i].now == g.heartbeat.time;
      assert Refreshes(f, tr, i, g.session.value);
      assert !Refreshes(f, tr, n, g.session.value);
    }
  }

  /** t is when the session s last acquired or refreshed successfully in tr. */
  ghost predicate LatestRefresh(f: File, tr: seq<Event>, s: Session, t: Time) {
    && (exists i: nat :: i < |tr| && Refreshes(f, tr, i, s) && tr[i].now == t)
    && (forall i: nat :: i < |tr| && Refreshes(f, tr, i, s) ==> tr[i].now <= t)
  }

  /** An acquisition succeeds exactly when nobody else owns the lock, or more than the acquirer's
      ttl has passed since the owner's last successful acquisition or heartbeat. */
  lemma {:induction false} TakeoverExact(f: File, tr: seq<Event>, k: nat)
    requires !f.Owner? && Monotone(tr) && k < |tr| && tr[k].action == Acquire
    ensures Takes(f, tr, k) <==>
            forall o, t :: o != tr[k].session && Owns(f, tr[..k], o) && LatestRefresh(f, tr[..k], o, t)
              ==> tr[k].now - t > tr[k].ttl
  {
    var before := tr[..k];
    var g := FileAfter(f, before);
    forall o ensures OwnedBy(g, o) <==> Owns(f, before, o) { OwnerIsLastAcquirer(f, before, o); }
    if g.Owner? {
      RecordIsLatestRefresh(f, before);
      var o := g.session.value;
      assert Owns(f, before, o) && LatestRefresh(f, before, o, g.heartbeat.time);
      forall t | LatestRefresh(f, before, o, t) ensures t == g.heartbeat.time {}
    }
  }

  /** An acquisition exits 0 and names its session with the current time, or exits 3 and leaves the
      file as it is; the latter exactly when the file names another session (or none) with a time
      that is no longer ago than the ttl, whatever else the file may hold. */
  lemma AcquireExact(f: File, tr: seq<Event>, k: nat)
    requires k < |tr| && tr[k].action == Acquire
    ensures var before, e := FileAfter(f, tr[..k]), tr[k];
            var protected := before.Owner? && before.session != Some(e.session) && before.heartbeat.At?
                             && e.now <= before.heartbeat.time + e.ttl;
            && CodeAt(f, tr, k) == (if protected then 3 else 0)
            && FileAfter(f, tr[..k + 1]) == if protected then before else Owner(Some(e.session), At(e.now))
  {
    assert tr[..k + 1][..k] == tr[..k];
  }

  /** A heartbeat succeeds exactly for the owner, and then the file names it with the current time;
      for anybody else it exits 4 and leaves the file as it is. */
  lemma {:induction false} HeartbeatExact(f: File, tr: seq<Event>, k: nat)
    requires !f.Owner? && k < |tr| && tr[k].action == Heartbeat
    ensures var e, owns := tr[k], Owns(f, tr[..k], tr[k].session);
            && CodeAt(f, tr, k) == (if owns then 0 else 4)
            && FileAfter(f, tr[..k + 1]) == if owns then Owner(Some(e.session), At(e.now)) else FileAfter(f, tr[..k])
  {
    OwnerIsLastAcquirer(f, tr[..k], tr[k].session);
    assert tr[..k + 1][..k] == tr[..k];
  }

  /** A release always exits 0; it removes the file exactly for the owner. */
  lemma {:induction false} ReleaseExact(f: File, tr: seq<Event>, k: nat)
    requires !f.Owner? && k < |tr| && tr[k].action == Release
    ensures CodeAt(f, tr, k) == 0
    ensures FileAfter(f, tr[..k + 1]) == if Owns(f, tr[..k], tr[k].session) then Absent else FileAfter(f, tr[..k])
  {
    OwnerIsLastAcquirer(f, tr[..k], tr[k].session);
    assert tr[..k + 1][..k] == tr[..k];
  }

  lemma {:induction false} NotOwnerUntilAcquire(f: File, tr: seq<Event>, k: nat, s: Session)
    requires k <= |tr| && !OwnedBy(FileAfter(f, tr[..k]), s)
    requires forall j :: k <= j < |tr| ==> !(tr[j].action == Acquire && tr[j].session == s)
    ensures !OwnedBy(FileAfter(f, tr), s)
    decreases |tr|
  {
    if k == |tr| {
      assert tr[..k] == tr;
    } else {
      assert tr[..|tr| - 1][..k] == tr[..k];
      NotOwnerUntilAcquire(f, tr[..|tr| - 1], k, s);
    }
  }

  /** After another session took the lock, a heartbeat or release of the displaced session leaves
      the file as it is, and the heartbeat says that the lock is lost, until it acquires again. */
  lemma {:induction false} DisplacedIsPowerless(f: File, tr: seq<Event>, k: nat, j: nat, s: Session)
    requires k < j < |tr| && Takes(f, tr, k) && tr[k].session != s
    requires forall i :: k <= i < j ==> !(tr[i].action == Acquire && tr[i].session == s)
    requires tr[j].session == s && tr[j].action != Acquire
    ensures FileAfter(f, tr[..j + 1]) == FileAfter(f, tr[..j])
    ensures tr[j].action == Heartbeat ==> CodeAt(f, tr, j) == LOST
  {
    assert tr[..k + 1][..k] == tr[..k];
    assert tr[..j][..k + 1] == tr[..k + 1];
    NotOwnerUntilAcquire(f, tr[..j], k + 1, s);
    assert tr[..j + 1][..j] == tr[..j];
  }

  /** Neither a foreign attempt to acquire within the ttl of a refresh, nor anything else but its
      own release, takes the lock from its owner. */
  lemma {:induction false} LastStepKeeps(f: File, tr: seq<Event>, s: Session)
    requires !f.Owner? && Monotone(tr) && tr != []
    requires Owns(f, tr[..|tr| - 1], s) && !(tr[|tr| - 1].action == Release && tr[|tr| - 1].session == s)
    requires tr[|tr| - 1].action == Acquire && tr[|tr| - 1].session != s ==>
               exists i: nat ::
                 i < |tr| - 1 && Refreshes(f, tr, i, s) && tr[|tr| - 1].now - tr[i].now <= tr[|tr| - 1].ttl
    ensures Owns(f, tr, s)
  {
    var n := |tr| - 1;
    var shorter := tr[..n];
    OwnsStep(f, tr, s);
    if tr[n].action == Acquire && tr[n].session != s {
      var i: nat :| i < n && Refreshes(f, tr, i, s) && tr[n].now - tr[i].now <= tr[n].ttl;
      PrefixAgrees(f, tr, n, i);
      OwnerIsLastAcquirer(f, shorter, s);
      RecordIsLatestRefresh(f, shorter);
      assert Refreshes(f, shorter, i, s);
    }
  }

  /** An owner that has refreshed within the ttl of every other session's attempt to acquire, and
      has not released, still owns the lock. */
  lemma {:induction false} RefreshedOwnerKeeps(f: File, tr: seq<Event>, k: nat, s: Session)
    requires !f.Owner? && Monotone(tr) && k <= |tr| && Owns(f, tr[..k], s)
    requires forall j :: k <= j < |tr| ==> !(tr[j].action == Release && tr[j].session == s)
    requires forall j :: k <= j < |tr| && tr[j].action == Acquire && tr[j].session != s ==>
               exists i: nat :: i < j && Refreshes(f, tr, i, s) && tr[j].now - tr[i].now <= tr[j].ttl
    ensures Owns(f, tr, s)
    decreases |tr|
  {
    if k == |tr| {
      assert tr[..k] == tr;
    } else {
      var n := |tr| - 1;
      var shorter := tr[..n];
      assert shorter[..k] == tr[..k];
      forall j | k <= j < n && shorter[j].action == Acquire && shorter[j].session != s
        ensures exists i: nat ::
                  i < j && Refreshes(f, shorter, i, s) && shorter[j].now - shorter[i].now <= shorter[j].ttl
      {
        var i: nat :| i < j && Refreshes(f, tr, i, s) && tr[j].now - tr[i].now <= tr[j].ttl;
        PrefixAgrees(f, tr, n, i);
        assert Refreshes(f, shorter, i, s);
      }
      RefreshedOwnerKeeps(f, shorter, k, s);
      LastStepKeeps(f, tr, s);
    }
  }
}
