/** Losing the remote session: the heartbeat thread and the registration of its callback, and the
    backend's race between a loss notification, submissions and cancellations. */
module LossCallbacks {
  import opened Basics

  type Failure = string

  datatype Phase = Ready | Calling | Finished

  /** heartbeat: the thread whose beat may fail; registrar: the caller that registers a callback. */
  datatype State = State(failure: Option<Failure>, registered: bool, heartbeat: Phase, registrar: Phase,
                         invocations: seq<Failure>)

  datatype Event = BeatFails(failure: Failure) | HeartbeatCalls | Registers | RegistrarCalls

  const INITIAL := State(None, false, Ready, Ready, [])

  predicate Enabled(s: State, e: Event) {
    match e
    case BeatFails(_) => s.heartbeat == Ready
    case HeartbeatCalls => s.heartbeat == Calling && s.failure.Some?
    case Registers => s.registrar == Ready
    case RegistrarCalls => s.registrar == Calling && s.failure.Some?
  }

  /** The failure is recorded and the callback read under one lock; so is the callback recorded and
      the failure read.  The calls themselves are made outside it. */
  function Next(s: State, e: Event): State
    requires Enabled(s, e)
  {
    match e
    case BeatFails(f) => s.(failure := Some(f), heartbeat := if s.registered then Calling else Finished)
    case HeartbeatCalls => s.(invocations := s.invocations + [s.failure.value], heartbeat := Finished)
    case Registers => s.(registered := true, registrar := if s.failure.Some? then Calling else Finished)
    case RegistrarCalls => s.(invocations := s.invocations + [s.failure.value], registrar := Finished)
  }

  predicate Interleaving(s: State, es: seq<Event>)
    decreases |es|
  {
    es == [] || (Enabled(s, es[0]) && Interleaving(Next(s, es[0]), es[1..]))
  }

  function Reached(s: State, es: seq<Event>): State
    requires Interleaving(s, es)
    decreases |es|
  {
    if es == [] then s else Reached(Next(s, es[0]), es[1..])
  }

  /** At most one side is about to call or has called, and once both have taken their locked step
      exactly one side is or has. */
  predicate Inv(s: State) {
    && (s.failure.Some? <==> s.heartbeat != Ready) && (s.registered <==> s.registrar != Ready)
    && (s.heartbeat == Calling || s.registrar == Calling ==> s.failure.Some? && s.registered && s.invocations == [])
    && !(s.heartbeat == Calling && s.registrar == Calling)
    && (s.failure.Some? && s.registered && s.heartbeat != Calling && s.registrar != Calling ==>
          s.invocations == [s.failure.value])
    && (s.failure.None? || !s.registered ==> s.invocations == [])
  }

  lemma {:induction false} InvReached(s: State, es: seq<Event>)
    requires Inv(s) && Interleaving(s, es)
    ensures Inv(Reached(s, es))
    decreases |es|
  {
    if es != [] { InvReached(Next(s, es[0]), es[1..]); }
  }

  /** However the failing beat and the registration interleave, the callback is called at most once,
      and exactly once with the recorded failure when both are through. */
  lemma CalledExactlyOnce(es: seq<Event>)
    requires Interleaving(INITIAL, es)
    ensures var s := Reached(INITIAL, es);
            && |s.invocations| <= 1
            && (s.heartbeat == Finished && s.registrar == Finished ==>
                  s.failure.Some? && s.invocations == [s.failure.value])
            && (forall f :: BeatFails(f) in es ==> s.failure == Some(f))
            && (s.heartbeat == Calling ==> Enabled(s, HeartbeatCalls))
            && (s.registrar == Calling ==> Enabled(s, RegistrarCalls))
  {
    InvReached(INITIAL, es);
    forall f | BeatFails(f) in es ensures Reached(INITIAL, es).failure == Some(f) { FailureStays(INITIAL, es, f); }
  }

  /** The failure that the beat raised is the one that stays on record. */
  lemma {:induction false} FailureStays(s: State, es: seq<Event>, f: Failure)
    requires Inv(s) && Interleaving(s, es) && (BeatFails(f) in es || s.failure == Some(f))
    ensures Reached(s, es).failure == Some(f)
    decreases |es|
  {
    if es != [] {
      assert Inv(Next(s, es[0]));
      assert BeatFails(f) in es[1..] || es[0] == BeatFails(f) || s.failure == Some(f);
      FailureStays(Next(s, es[0]), es[1..], f);
    }
  }
}

module SessionLoss {
  import opened Basics

  type Token = nat  // a submission's token; the n-th one created is n
  type ThreadId = nat

  /** The check for a lost session is made at the start of a submission, and again at its end, where
      a loss means that the submission cancels its own task. */
  datatype Place = AtStart | AtEnd(token: Token)

  /** A thread inside the backend: where it is, the tokens it still has to request cancellation of,
      and the token it has marked as requested and is about to cancel. */
  datatype Stage = CheckLoss(place: Place) | CheckFlag(place: Place) | Notify(place: Place)
                 | Create | Record(token: Token) | Draining

  datatype Thread = Thread(stage: Stage, queue: seq<Token>, claimed: Option<Token>)

  /** lost: the recorded session loss; flagged: the failure the heartbeat threads show; created: how
      many tasks were created; refs: the recorded ones, in order; cancels: the cancel calls made. */
  datatype Backend = Backend(lost: bool, flagged: bool, created: nat, refs: seq<Token>,
                             requested: set<Token>, cancels: seq<Token>, threads: map<ThreadId, Thread>)

  datatype Event =
    | Submit(id: ThreadId)
    | LossCallback(id: ThreadId)
    | ClientCancel(id: ThreadId, token: Token)
    | BeatLost
    | Proceed(id: ThreadId)
    | Leave(id: ThreadId)

  function Own(place: Place): seq<Token> { if place.AtEnd? then [place.token] else [] }

  predicate Idle(t: Thread) { t.stage == Draining && t.queue == [] && t.claimed == None }

  predicate Enabled(s: Backend, e: Event) {
    match e
    case Submit(id) => id !in s.threads
    case LossCallback(id) => id !in s.threads
    case ClientCancel(id, t) => id !in s.threads && t in s.refs
    case BeatLost => true
    case Proceed(id) => id in s.threads && !Idle(s.threads[id])
    case Leave(id) => id in s.threads && Idle(s.threads[id])
  }

  function Next(s: Backend, e: Event): Backend
    requires Enabled(s, e)
  {
    match e
    case Submit(id) => s.(threads := s.threads[id := Thread(CheckLoss(AtStart), [], None)])
    case LossCallback(id) => s.(threads := s.threads[id := Thread(Notify(AtStart), [], None)])
    case ClientCancel(id, t) => s.(threads := s.threads[id := Thread(Draining, [t], None)])
    case BeatLost => s.(flagged := true)
    case Leave(id) => s.(threads := s.threads - {id})
    case Proceed(id) =>
      var t := s.threads[id];
      match t.stage
      case CheckLoss(place) =>
        With(s, id, if s.lost then Thread(Draining, Own(place), None) else Thread(CheckFlag(place), [], None))
      case CheckFlag(place) =>
        With(s, id, if s.flagged then Thread(Notify(place), [], None)
                    else if place == AtStart then Thread(Create, [], None)
                    else Thread(Draining, [], None))
      case Notify(place) =>
        With(s.(lost := true), id, Thread(Draining, (if s.lost then [] else s.refs) + Own(place), None))
      case Create => With(s.(created := s.created + 1), id, Thread(Record(s.created), [], None))
      case Record(tok) => With(s.(refs := s.refs + [tok]), id, Thread(CheckLoss(AtEnd(tok)), [], None))
      case Draining =>
        if t.claimed.Some? then With(s.(cancels := s.cancels + [t.claimed.value]), id, t.(claimed := None))
        else
          var tok := t.queue[0];
          if tok in s.requested then With(s, id, t.(queue := t.queue[1..]))
          else With(s.(requested := s.requested + {tok}), id, Thread(Draining, t.queue[1..], Some(tok)))
  }

  function With(s: Backend, id: ThreadId, t: Thread): Backend { s.(threads := s.threads[id := t]) }

  // --- the invariant -----------------------------------------------------------------

  predicate Claims(s: Backend, id: ThreadId, tok: Token) { id in s.threads && s.threads[id].claimed == Some(tok) }

  predicate Recording(s: Backend, id: ThreadId, tok: Token) { id in s.threads && s.threads[id].stage == Record(tok) }

  /** The thread is bound to request the cancellation of tok if the session is lost. */
  predicate Covers(s: Backend, id: ThreadId, tok: Token) {
    && id in s.threads
    && (|| tok in s.threads[id].queue || s.threads[id].stage == Record(tok)
        || s.threads[id].stage == CheckLoss(AtEnd(tok)))
  }

  /** The thread only knows tokens that were created. */
  ghost predicate ThreadOk(t: Thread, created: nat) {
    && (t.stage != Draining ==> t.queue == [] && t.claimed == None)
    && (forall tok :: tok in t.queue ==> tok < created)
    && (t.stage.Record? ==> t.stage.token < created)
    && (t.stage.CheckLoss? || t.stage.CheckFlag? || t.stage.Notify? ==>
          (t.stage.place.AtEnd? ==> t.stage.place.token < created))
  }

  ghost predicate Threads(s: Backend) {
    && (forall id {:trigger ThreadOk(s.threads[id], s.created)} ::
          id in s.threads ==> ThreadOk(s.threads[id], s.created))
    && (forall tok :: tok in s.refs ==> tok < s.created)
  }

  /** A token is requested exactly when its cancel call was made or some thread is about to make it;
      no call is made twice. */
  ghost predicate Accounts(s: Backend) {
    && (forall tok :: tok in s.requested ==> tok < s.created && (tok in s.cancels || exists id :: Claims(s, id, tok)))
    && (forall tok :: tok in s.cancels ==> tok in s.requested)
    && (forall id, tok :: Claims(s, id, tok) ==> tok in s.requested && tok !in s.cancels)
    && (forall i, j, tok :: Claims(s, i, tok) && Claims(s, j, tok) ==> i == j)
    && (forall i, j :: 0 <= i < j < |s.cancels| ==> s.cancels[i] != s.cancels[j])
  }

  /** Every created task is recorded or about to be; and once the session is lost, every one is
      requested or bound to be. */
  ghost predicate Coverage(s: Backend) {
    && (forall tok: Token :: tok < s.created ==> tok in s.refs || exists id :: Recording(s, id, tok))
    && (s.lost ==> forall tok: Token :: tok < s.created ==> tok in s.requested || exists id :: Covers(s, id, tok))
  }

  ghost predicate Inv(s: Backend) { Threads(s) && Accounts(s) && Coverage(s) }

  lemma AccountsKept(s: Backend, e: Event)
    requires Inv(s) && Enabled(s, e)
    ensures Accounts(Next(s, e))
  {
    var r := Next(s, e);
    if e.Proceed? && s.threads[e.id].stage == Draining {
      var t := s.threads[e.id];
      if t.claimed.Some? { CancelAccounts(s, e.id); }
      else if t.queue[0] !in s.requested { ClaimAccounts(s, e.id); }
      else { SameAccounts(s, r); }
    } else {
      if e.Proceed? || e.Leave? { assert ThreadOk(s.threads[e.id], s.created); }
      SameAccounts(s, r);
    }
  }

  lemma SameAccounts(s: Backend, r: Backend)
    requires Accounts(s) && r.requested == s.requested && r.cancels == s.cancels && r.created >= s.created
    requires forall id, tok :: Claims(r, id, tok) <==> Claims(s, id, tok)
    ensures Accounts(r)
  {
    forall tok | tok in r.requested && tok !in r.cancels ensures exists id :: Claims(r, id, tok) {
      var id :| Claims(s, id, tok);
      assert Claims(r, id, tok);
    }
  }

  lemma CancelAccounts(s: Backend, id: ThreadId)
    requires Inv(s) && Enabled(s, Proceed(id)) && s.threads[id].stage == Draining && s.threads[id].claimed.Some?
    ensures Accounts(Next(s, Proceed(id)))
  {
    var r, done := Next(s, Proceed(id)), s.threads[id].claimed.value;
    assert Claims(s, id, done);
    forall j, tok ensures Claims(r, j, tok) <==> Claims(s, j, tok) && j != id {}
    forall tok | tok in r.requested && tok !in r.cancels ensures exists j :: Claims(r, j, tok) {
      var j :| Claims(s, j, tok);
      assert tok != done by { assert r.cancels[|r.cancels| - 1] == done; }
      assert Claims(r, j, tok);
    }
  }

  lemma ClaimAccounts(s: Backend, id: ThreadId)
    requires Inv(s) && Enabled(s, Proceed(id))
    requires s.threads[id].stage == Draining && s.threads[id].claimed.None? && s.threads[id].queue[0] !in s.requested
    ensures Accounts(Next(s, Proceed(id)))
  {
    var r, next := Next(s, Proceed(id)), s.threads[id].queue[0];
    assert ThreadOk(s.threads[id], s.created) && next in s.threads[id].queue;
    forall j, tok ensures Claims(r, j, tok) <==> Claims(s, j, tok) || (j == id && tok == next) {}
    forall tok | tok in r.requested && tok !in r.cancels ensures exists j :: Claims(r, j, tok) {
      if tok == next {
        assert Claims(r, id, tok);
      } else {
        var j :| Claims(s, j, tok);
        assert Claims(r, j, tok);
      }
    }
  }

  lemma ThreadsKept(s: Backend, e: Event)
    requires Threads(s) && Enabled(s, e)
    ensures Threads(Next(s, e))
  {
    var r := Next(s, e);
    if e.Proceed? {
      assert ThreadOk(s.threads[e.id], s.created);
      ProceedKeepsThread(s, e);
    }
    forall id | id in r.threads ensures ThreadOk(r.threads[id], r.created) {
      if id in s.threads { assert ThreadOk(s.threads[id], s.created); }
    }
  }

  lemma ProceedKeepsThread(s: Backend, e: Event)
    requires Threads(s) && Enabled(s, e) && e.Proceed? && ThreadOk(s.threads[e.id], s.created)
    ensures ThreadOk(Next(s, e).threads[e.id], Next(s, e).created)
    ensures forall tok :: tok in Next(s, e).refs ==> tok < Next(s, e).created
  {
    var t := s.threads[e.id];
    if t.stage == Draining && t.queue != [] {
      forall tok | tok in t.queue[1..] ensures tok in t.queue {}
    }
  }

  lemma CoverageKept(s: Backend, e: Event)
    requires Inv(s) && Enabled(s, e)
    ensures Coverage(Next(s, e))
  {
    var r := Next(s, e);
    forall tok: Token | tok < r.created ensures tok in r.refs || exists id :: Recording(r, id, tok) {
      if tok !in r.refs { StillRecording(s, e, tok); }
    }
    if r.lost {
      forall tok: Token | tok < r.created ensures tok in r.requested || exists id :: Covers(r, id, tok) {
        if tok !in r.requested { StillCovered(s, e, tok); }
      }
    }
  }

  lemma StillRecording(s: Backend, e: Event, tok: Token)
    requires Inv(s) && Enabled(s, e) && tok < Next(s, e).created && tok !in Next(s, e).refs
    ensures exists id :: Recording(Next(s, e), id, tok)
  {
    var r := Next(s, e);
    if tok == s.created {
      assert Recording(r, e.id, tok);
    } else {
      var id :| Recording(s, id, tok);
      assert Recording(r, id, tok);
    }
  }

  lemma StillCovered(s: Backend, e: Event, tok: Token)
    requires Inv(s) && Enabled(s, e)
    requires var r := Next(s, e); r.lost && tok < r.created && tok !in r.requested
    ensures exists id :: Covers(Next(s, e), id, tok)
  {
    var r := Next(s, e);
    if !s.lost {
      if tok in s.refs {
        assert Covers(r, e.id, tok);
      } else {
        var id :| Recording(s, id, tok);
        assert Covers(r, id, tok);
      }
    } else if tok == s.created {
      assert Covers(r, e.id, tok);
    } else {
      var id :| Covers(s, id, tok);
      var queue := s.threads[id].queue;
      assert ThreadOk(s.threads[id], s.created);
      assert tok in queue ==> tok == queue[0] || tok in queue[1..];
      assert Covers(r, id, tok);
    }
  }

  // --- all interleavings --------------------------------------------------------------

  const INITIAL := Backend(false, false, 0, [], {}, [], map[])

  predicate Interleaving(s: Backend, es: seq<Event>)
    decreases |es|
  {
    es == [] || (Enabled(s, es[0]) && Interleaving(Next(s, es[0]), es[1..]))
  }

  function Reached(s: Backend, es: seq<Event>): Backend
    requires Interleaving(s, es)
    decreases |es|
  {
    if es == [] then s else Reached(Next(s, es[0]), es[1..])
  }

  lemma {:induction false} InvReached(s: Backend, es: seq<Event>)
    requires Inv(s) && Interleaving(s, es)
    ensures Inv(Reached(s, es))
    decreases |es|
  {
    if es != [] {
      ThreadsKept(s, es[0]);
      AccountsKept(s, es[0]);
      CoverageKept(s, es[0]);
      InvReached(Next(s, es[0]), es[1..]);
    }
  }

  /** Whatever submissions, loss notifications and client cancellations interleave: no task is
      cancelled twice; and once the session is lost and every call has come back, every task that
      was ever created has been cancelled, by exactly one cancel call. */
  lemma {:induction false} LossMissesNoTask(es: seq<Event>)
    requires Interleaving(INITIAL, es)
    ensures var s := Reached(INITIAL, es);
            && (forall i, j :: 0 <= i < j < |s.cancels| ==> s.cancels[i] != s.cancels[j])
            && (forall tok :: tok in s.cancels ==> tok < s.created)
            && (s.lost && (forall id :: id in s.threads ==> Idle(s.threads[id])) ==>
                  forall tok: Token :: tok < s.created ==> multiset(s.cancels)[tok] == 1)
  {
    InvReached(INITIAL, es);
    var s := Reached(INITIAL, es);
    if s.lost && forall id :: id in s.threads ==> Idle(s.threads[id]) {
      forall tok: Token | tok < s.created ensures multiset(s.cancels)[tok] == 1 {
        assert forall id :: !Covers(s, id, tok) && !Claims(s, id, tok);
        OnceInDistinct(s.cancels, tok);
      }
    }
  }

  lemma {:induction false} OnceInDistinct(xs: seq<Token>, x: Token)
    requires x in xs && forall i, j :: 0 <= i < j < |xs| ==> xs[i] != xs[j]
    ensures multiset(xs)[x] == 1
  {
    var i :| 0 <= i < |xs| && xs[i] == x;
    var before, after := xs[..i], xs[i + 1..];
    assert xs == before + [x] + after;
    assert x !in before && x !in after;
    assert multiset(xs) == multiset(before) + multiset{x} + multiset(after);
  }

  // --- cancellations that a client asks for ---------------------------------------------

  /** The tokens that clients asked to cancel. */
  function Asked(es: seq<Event>): set<Token>
    decreases |es|
  {
    if es == [] then {} else Asked(es[1..]) + if es[0].ClientCancel? then {es[0].token} else {}
  }

  predicate Queued(s: Backend, id: ThreadId, tok: Token) { id in s.threads && tok in s.threads[id].queue }

  /** Every token asked for is requested, or some thread is bound to request it; and without a loss
      nothing else is. */
  ghost predicate AskedInv(s: Backend, asked: set<Token>) {
    && (forall tok :: tok in asked ==> tok < s.created && (tok in s.requested || exists id :: Queued(s, id, tok)))
    && (!s.lost ==> forall tok :: tok in s.requested ==> tok in asked)
    && (!s.lost ==> forall id, tok :: Queued(s, id, tok) ==> tok in asked)
  }

  lemma AskedKept(s: Backend, e: Event, asked: set<Token>)
    requires Inv(s) && AskedInv(s, asked) && Enabled(s, e)
    ensures AskedInv(Next(s, e), asked + Asked([e]))
  {
    var r, now := Next(s, e), asked + Asked([e]);
    assert [e][1..] == [] && Asked([e][1..]) == {};
    assert Asked([e]) == if e.ClientCancel? then {e.token} else {};
    forall tok | tok in now ensures tok < r.created && (tok in r.requested || exists id :: Queued(r, id, tok)) {
      StillAsked(s, e, asked, tok);
    }
    if !r.lost {
      forall id, tok | Queued(r, id, tok) ensures tok in now { QueuedIsAsked(s, e, asked, id, tok); }
      forall tok | tok in r.requested ensures tok in now {
        if tok !in s.requested { assert Queued(s, e.id, tok); }
      }
    }
  }

  lemma StillAsked(s: Backend, e: Event, asked: set<Token>, tok: Token)
    requires Inv(s) && AskedInv(s, asked) && Enabled(s, e)
    requires tok in asked || (e.ClientCancel? && tok == e.token)
    ensures var r := Next(s, e); tok < r.created && (tok in r.requested || exists id :: Queued(r, id, tok))
  {
    var r := Next(s, e);
    if tok in asked {
      if tok !in r.requested {
        var id :| Queued(s, id, tok);
        var queue := s.threads[id].queue;
        assert ThreadOk(s.threads[id], s.created);
        assert tok == queue[0] || tok in queue[1..];
        assert Queued(r, id, tok);
      }
    } else {
      assert Queued(r, e.id, tok);
    }
  }

  lemma QueuedIsAsked(s: Backend, e: Event, asked: set<Token>, id: ThreadId, tok: Token)
    requires Inv(s) && AskedInv(s, asked) && Enabled(s, e) && !Next(s, e).lost && Queued(Next(s, e), id, tok)
    ensures tok in asked || (e.ClientCancel? && tok == e.token)
  {
    if Queued(s, id, tok) {
      assert tok in asked;
    } else if id in s.threads {
      assert ThreadOk(s.threads[id], s.created);
      assert forall x :: s.threads[id].queue != [] && x in s.threads[id].queue[1..] ==> x in s.threads[id].queue;
    }
  }

  lemma {:induction false} AskedReached(s: Backend, es: seq<Event>, asked: set<Token>)
    requires Inv(s) && AskedInv(s, asked) && Interleaving(s, es)
    ensures AskedInv(Reached(s, es), asked + Asked(es))
    decreases |es|
  {
    if es != [] {
      ThreadsKept(s, es[0]);
      AccountsKept(s, es[0]);
      CoverageKept(s, es[0]);
      AskedKept(s, es[0], asked);
      AskedReached(Next(s, es[0]), es[1..], asked + Asked([es[0]]));
      assert [es[0]][1..] == [];
      assert asked + Asked([es[0]]) + Asked(es[1..]) == asked + Asked(es);
    } else {
      assert asked + Asked(es) == asked;
    }
  }

  /** Whatever interleaves, lost or not: once every call has come back, every task that a client asked
      to cancel has been cancelled by exactly one cancel call; and without a loss no other has. */
  lemma {:induction false} AskedIsCancelledOnce(es: seq<Event>)
    requires Interleaving(INITIAL, es)
    ensures var s := Reached(INITIAL, es);
            && ((forall id :: id in s.threads ==> Idle(s.threads[id])) ==>
                  forall tok :: tok in Asked(es) ==> multiset(s.cancels)[tok] == 1)
            && (!s.lost ==> forall tok :: tok in s.cancels ==> tok in Asked(es))
  {
    InvReached(INITIAL, es);
    AskedReached(INITIAL, es, {});
    assert {} + Asked(es) == Asked(es);
    var s := Reached(INITIAL, es);
    if forall id :: id in s.threads ==> Idle(s.threads[id]) {
      forall tok | tok in Asked(es) ensures multiset(s.cancels)[tok] == 1 {
        assert forall id :: !Queued(s, id, tok) && !Claims(s, id, tok);
        OnceInDistinct(s.cancels, tok);
      }
    }
  }

  // --- submissions on a healthy session, and after a loss -------------------------------------

  function Submits(es: seq<Event>): nat
    decreases |es|
  {
    if es == [] then 0 else Submits(es[1..]) + if es[0].Submit? then 1 else 0
  }

  /** The submissions that have yet to make the check for a lost session, and those that have passed
      it, but have not created their task. */
  predicate AtCheck(t: Thread) { t.stage == CheckLoss(AtStart) }

  predicate Passed(t: Thread) { t.stage == CheckFlag(AtStart) || t.stage == Create }

  ghost function Entering(s: Backend): set<ThreadId> {
    set id | id in s.threads && (AtCheck(s.threads[id]) || Passed(s.threads[id]))
  }

  ghost function Admitted(s: Backend): set<ThreadId> { set id | id in s.threads && Passed(s.threads[id]) }

  /** An event concerns one thread at most. */
  lemma OthersStay(s: Backend, e: Event, id: ThreadId)
    requires Enabled(s, e) && (e.BeatLost? || id != e.id)
    ensures id in Next(s, e).threads <==> id in s.threads
    ensures id in s.threads ==> Next(s, e).threads[id] == s.threads[id]
  {}

  lemma EnteringSets(s: Backend, e: Event)
    requires Enabled(s, e) && !Next(s, e).lost && !Next(s, e).flagged
    ensures var before, after := Entering(s), Entering(Next(s, e));
            if e.Submit? then e.id !in before && after == before + {e.id}
            else if e.Proceed? && s.threads[e.id].stage == Create then e.id !in after && before == after + {e.id}
            else after == before
  {
    var r := Next(s, e);
    forall id | e.BeatLost? || id != e.id ensures id in Entering(r) <==> id in Entering(s) { OthersStay(s, e, id); }
    if !e.BeatLost? && !e.Submit? && !(e.Proceed? && s.threads[e.id].stage == Create) { SameEntering(s, e); }
  }

  lemma EnteringStep(s: Backend, e: Event)
    requires Enabled(s, e) && !Next(s, e).lost && !Next(s, e).flagged
    ensures Next(s, e).created + |Entering(Next(s, e))| == s.created + |Entering(s)| + Submits([e])
  {
    EnteringSets(s, e);
    assert [e][1..] == [] && Submits([e][1..]) == 0;
  }

  lemma SameEntering(s: Backend, e: Event)
    requires Enabled(s, e) && !Next(s, e).lost && !Next(s, e).flagged && !e.BeatLost? && !e.Submit?
    requires !(e.Proceed? && s.threads[e.id].stage == Create)
    ensures e.id in Entering(Next(s, e)) <==> e.id in Entering(s)
  {}

  lemma {:induction false} HealthyReached(s: Backend, es: seq<Event>)
    requires Interleaving(s, es) && !Reached(s, es).lost && !Reached(s, es).flagged
    ensures !s.lost && !s.flagged
    ensures var r := Reached(s, es); r.created + |Entering(r)| == s.created + |Entering(s)| + Submits(es)
    decreases |es|
  {
    if es != [] {
      HealthyReached(Next(s, es[0]), es[1..]);
      EnteringStep(s, es[0]);
      assert [es[0]][1..] == [];
    }
  }

  /** While the session is healthy every submission creates one task, and records it. */
  lemma {:induction false} HealthySubmissionsCreate(es: seq<Event>)
    requires Interleaving(INITIAL, es)
    ensures var s := Reached(INITIAL, es);
            !s.lost && !s.flagged && (forall id :: id in s.threads ==> Idle(s.threads[id])) ==>
              s.created == Submits(es) && forall tok: Token :: tok < s.created ==> tok in s.refs
  {
    InvReached(INITIAL, es);
    var s := Reached(INITIAL, es);
    if !s.lost && !s.flagged && forall id :: id in s.threads ==> Idle(s.threads[id]) {
      HealthyReached(INITIAL, es);
      assert Entering(INITIAL) == {} && Entering(s) == {};
      assert forall id, tok :: !Recording(s, id, tok);
    }
  }

  /** After the loss only submissions that had passed its check can still create a task: whatever
      happens, no submission that begins, or makes the check, from then on does. */
  lemma {:induction false} LossStopsSubmissions(s: Backend, es: seq<Event>)
    requires Interleaving(s, es) && s.lost
    ensures Reached(s, es).lost && Reached(s, es).created + |Admitted(Reached(s, es))| <= s.created + |Admitted(s)|
    decreases |es|
  {
    if es != [] {
      AdmittedShrinks(s, es[0]);
      LossStopsSubmissions(Next(s, es[0]), es[1..]);
    }
  }

  lemma AdmittedShrinks(s: Backend, e: Event)
    requires Enabled(s, e) && s.lost
    ensures Next(s, e).lost && Next(s, e).created + |Admitted(Next(s, e))| <= s.created + |Admitted(s)|
  {
    var r := Next(s, e);
    forall id | e.BeatLost? || id != e.id ensures id in Admitted(r) <==> id in Admitted(s) { OthersStay(s, e, id); }
    if !e.BeatLost? && e.id in Admitted(s) && e.id !in Admitted(r) {
      assert Admitted(s) == Admitted(r) + {e.id};
    } else {
      if !e.BeatLost? { NotAdmitted(s, e); }
      assert Admitted(r) == Admitted(s);
    }
  }

  lemma NotAdmitted(s: Backend, e: Event)
    requires Enabled(s, e) && s.lost && !e.BeatLost?
    ensures e.id in Admitted(Next(s, e)) ==> e.id in Admitted(s)
    ensures e.id in Admitted(Next(s, e)) || e.id !in Admitted(s) ==> Next(s, e).created == s.created
  {}

  /** A submission that finds the flag of the heartbeat threads set makes the loss known instead of
      creating a task. */
  lemma FlagBecomesLoss(s: Backend, id: ThreadId)
    requires Enabled(s, Proceed(id)) && s.flagged && s.threads[id].stage == CheckFlag(AtStart)
    ensures var r := Next(s, Proceed(id));
            && r.created == s.created && Enabled(r, Proceed(id))
            && Next(r, Proceed(id)).lost && Next(r, Proceed(id)).created == s.created
  {}
}
