/** Batches of jobs: submission, polling for completion, and running a batch in order. */
module Batches {
  import opened Basics
  import opened Attempts
  import opened Teardown

  datatype JobHandle = JobHandle(batch: string, job: string, token: nat)

  datatype BatchResult = BatchResult(id: string, status: Status)

  /** What asking for the status of a job, and for its result, returns. */
  datatype Answer = Running | Terminal | Unavailable(exc: Exc)

  datatype Resolution = Resolved(result: BatchResult) | Unresolved(exc: Exc)

  datatype Polled = NotYet | Over(result: BatchResult) | Failing(exc: Exc)

  datatype Problem = DuplicateIds | InvalidBatchId | SetupFailed(exc: Exc) | BatchExists | Interrupted(exc: Exc)

  datatype Submission = Submitted(handles: seq<JobHandle>) | NotSubmitted(problem: Problem)

  datatype BatchOutcome = Ordered(results: seq<BatchResult>) | BatchFailed(results: seq<BatchResult>)
                        | NoResults(problem: Problem)

  // --- distinct ids --------------------------------------------------------------------

  ghost predicate Distinct<T>(s: seq<T>) { forall i, j :: 0 <= i < j < |s| ==> s[i] != s[j] }

  lemma {:induction false} NoneTwiceIsDistinct<T>(s: seq<T>)
    ensures (forall x :: x in s ==> multiset(s)[x] <= 1) <==> Distinct(s)
  {
    if s != [] {
      var head, rest := s[0], s[1..];
      assert s == [head] + rest;
      NoneTwiceIsDistinct(rest);
      assert multiset(s) == multiset{head} + multiset(rest);
      assert forall x :: x in rest ==> x in s && multiset(s)[x] >= multiset(rest)[x];
      if head in rest {
        var j :| 0 <= j < |rest| && rest[j] == head;
        assert s[0] == s[j + 1];
        assert multiset(s)[head] >= 2;
      } else if Distinct(rest) {
        forall i, j | 0 <= i < j < |s| ensures s[i] != s[j] {
          if i > 0 { assert s[i] == rest[i - 1] && s[j] == rest[j - 1]; } else { assert s[j] == rest[j - 1]; }
        }
      } else {
        var i, j :| 0 <= i < j < |rest| && rest[i] == rest[j];
        assert s[i + 1] == s[j + 1];
        var x :| x in rest && multiset(rest)[x] > 1;
        assert multiset(s)[x] > 1;
      }
    }
  }

  // --- the backend -----------------------------------------------------------------------

  /** The backend as its callers see it. Every call may be answered differently from the one before;
      calls is the number of polling calls made, and asked the number of submissions. */
  class Backend {
    const refuses: nat -> Option<Exc>
    const cancelFails: JobHandle -> bool
    const answer: (JobHandle, nat) -> Answer
    const resolution: (JobHandle, nat) -> Resolution
    var asked: nat
    var calls: nat
    var created: seq<JobHandle>
    var cancels: seq<JobHandle>

    constructor (refuses: nat -> Option<Exc>, cancelFails: JobHandle -> bool,
                 answer: (JobHandle, nat) -> Answer, resolution: (JobHandle, nat) -> Resolution)
      ensures this.refuses == refuses && this.cancelFails == cancelFails
      ensures this.answer == answer && this.resolution == resolution
      ensures asked == 0 && calls == 0 && created == [] && cancels == []
    {
      this.refuses, this.cancelFails, this.answer, this.resolution := refuses, cancelFails, answer, resolution;
      asked, calls, created, cancels := 0, 0, [], [];
    }

    method Submit(batch: string, job: string) returns (handle: JobHandle, raised: Option<Exc>)
      modifies this`asked, this`created
      ensures asked == old(asked) + 1 && raised == refuses(old(asked))
      ensures handle == JobHandle(batch, job, old(asked))
      ensures created == if raised.None? then old(created) + [handle] else old(created)
    {
      raised, handle := refuses(asked), JobHandle(batch, job, asked);
      asked := asked + 1;
      if raised.None? { created := created + [handle]; }
    }

    method Cancel(handle: JobHandle) returns (raised: bool)
      modifies this`cancels
      ensures cancels == old(cancels) + [handle] && raised == cancelFails(handle)
    {
      cancels := cancels + [handle];
      return cancelFails(handle);
    }

    method Status(handle: JobHandle) returns (a: Answer)
      modifies this`calls
      ensures calls == old(calls) + 1 && a == answer(handle, old(calls))
    {
      a := answer(handle, calls);
      calls := calls + 1;
    }

    method Resolve(handle: JobHandle) returns (r: Resolution)
      modifies this`calls
      ensures calls == old(calls) + 1 && r == resolution(handle, old(calls))
    {
      r := resolution(handle, calls);
      calls := calls + 1;
    }

    /** From some call on, asking about any of these jobs no longer says that it is running. */
    ghost predicate Settles(handles: seq<JobHandle>, horizon: nat) {
      forall h, t: nat {:trigger answer(h, t)} :: h in handles && t >= horizon ==> !answer(h, t).Running?
    }

    /** The backend said that the job is over, and then gave this result for it. */
    ghost predicate Gave(h: JobHandle, r: BatchResult) {
      && (exists t: nat :: answer(h, t) == Terminal)
      && exists t: nat :: resolution(h, t) == Resolved(r)
    }

    /** Each result was given for the handle at its place. */
    ghost predicate Delivered(handles: seq<JobHandle>, results: seq<BatchResult>) {
      |handles| == |results| && forall k :: 0 <= k < |results| ==> Gave(handles[k], results[k])
    }

    lemma DeliveredMore(hs: seq<JobHandle>, rs: seq<BatchResult>, more: seq<JobHandle>, results: seq<BatchResult>)
      requires Delivered(hs, rs) && Delivered(more, results)
      ensures Delivered(hs + more, rs + results)
    {}

    /** Some polling call about one of these jobs raises this. */
    ghost predicate Disturbs(handles: seq<JobHandle>, e: Exc) {
      || (exists h, t: nat :: h in handles && answer(h, t) == Unavailable(e))
      || (exists h, t: nat :: h in handles && resolution(h, t) == Unresolved(e))
    }

    lemma SettlesLess(some: seq<JobHandle>, all: seq<JobHandle>, horizon: nat)
      requires Settles(all, horizon) && multiset(some) <= multiset(all)
      ensures Settles(some, horizon)
    {
      forall h | h in some ensures h in all { SomeOf(some, all, h); }
    }

    lemma DisturbsMore(some: seq<JobHandle>, all: seq<JobHandle>, e: Exc)
      requires Disturbs(some, e) && multiset(some) <= multiset(all)
      ensures Disturbs(all, e)
    {
      if h, t: nat :| h in some && answer(h, t) == Unavailable(e) {
        SomeOf(some, all, h);
      } else {
        var h, t: nat :| h in some && resolution(h, t) == Unresolved(e);
        SomeOf(some, all, h);
      }
    }

    /** The result of a job carries the id of the job. */
    ghost predicate Labelled() {
      forall h, t: nat {:trigger resolution(h, t)} :: resolution(h, t).Resolved? ==> resolution(h, t).result.id == h.job
    }
  }

  // --- the dispatcher ----------------------------------------------------------------------

  /** The handles created for the first n jobs of a batch, submitted one after the other. */
  function HandlesFor(batch: string, ids: seq<string>, n: nat, first: nat): seq<JobHandle>
    requires n <= |ids|
  {
    seq(n, i requires 0 <= i < n => JobHandle(batch, ids[i], first + i))
  }

  /** The id of each job occurs once, and the batch id is valid if there is one. */
  ghost predicate WellFormed(ids: seq<string>, batchId: Option<string>) {
    (forall x :: multiset(ids)[x] <= 1) && (forall b :: batchId == Some(b) ==> ValidId(b))
  }

  function IdOr(batchId: Option<string>, made: string): string {
    if batchId.Some? then batchId.value else made
  }

  lemma TakeOne<T>(s: seq<T>, i: nat)
    requires i < |s|
    ensures multiset(s[..i + 1]) == multiset(s[..i]) + multiset{s[i]}
    ensures multiset(s[..i + 1]) <= multiset(s)
  {
    assert s[..i + 1] == s[..i] + [s[i]] && s == s[..i + 1] + s[i + 1..];
  }

  /** The element at i joins one of the two parts that the elements before it were sorted into. */
  lemma Joins<T>(a: seq<T>, b: seq<T>, s: seq<T>, i: nat)
    requires i < |s| && multiset(a) + multiset(b) == multiset(s[..i])
    ensures multiset(a) <= multiset(s) && multiset(a + [s[i]]) <= multiset(s)
    ensures multiset(a + [s[i]]) + multiset(b) == multiset(s[..i + 1])
    ensures multiset(a) + multiset(b + [s[i]]) == multiset(s[..i + 1])
  {
    TakeOne(s, i);
    assert multiset(a + [s[i]]) == multiset(a) + multiset{s[i]};
    assert multiset(b + [s[i]]) == multiset(b) + multiset{s[i]};
  }

  lemma SomeOf<T>(s: seq<T>, all: seq<T>, x: T)
    requires multiset(s) <= multiset(all) && x in s
    ensures x in all
  {
    assert x in multiset(s) && x in multiset(all);
  }

  /** A round moves the handles over from the remaining ones to the resolved ones. */
  lemma Moved<T>(resolved: seq<T>, remaining: seq<T>, all: seq<T>, over: seq<T>, next: seq<T>)
    requires multiset(resolved) + multiset(remaining) == multiset(all)
    requires multiset(over) <= multiset(remaining)
    ensures multiset(resolved + over) <= multiset(all)
    ensures multiset(over) + multiset(next) == multiset(remaining) ==>
              multiset(resolved + over) + multiset(next) == multiset(all)
  {
    assert multiset(resolved + over) == multiset(resolved) + multiset(over);
  }

  /** Once every handle was resolved, the result under the id of a job is the one its handle gave. */
  lemma Found(b: Backend, ids: seq<string>, handles: seq<JobHandle>, results: seq<BatchResult>,
              resolved: seq<JobHandle>, i: nat)
    requires b.Labelled() && Distinct(ids) && |handles| == |ids| && i < |ids|
    requires forall k :: 0 <= k < |ids| ==> handles[k].job == ids[k]
    requires b.Delivered(resolved, results) && multiset(resolved) == multiset(handles)
    ensures exists r :: r in results && r.id == ids[i]
    ensures forall r :: r in results && r.id == ids[i] ==> b.Gave(handles[i], r)
  {
    SomeOf(handles, resolved, handles[i]);
    var k :| 0 <= k < |resolved| && resolved[k] == handles[i];
    assert b.Gave(resolved[k], results[k]) && results[k] in results;
    forall r | r in results && r.id == ids[i] ensures b.Gave(handles[i], r) {
      var j :| 0 <= j < |results| && results[j] == r;
      assert b.Gave(resolved[j], r);
      SomeOf(resolved, handles, resolved[j]);
      var n :| 0 <= n < |handles| && handles[n] == resolved[j];
    }
  }

  /** Submitting the jobs from the first call on ended as r, with handles sent created: all of them,
      or those before the first refusal. */
  ghost predicate Loaded(refuses: nat -> Option<Exc>, b: string, ids: seq<string>, first: nat,
                         sent: seq<JobHandle>, r: Submission)
  {
    && |sent| <= |ids| && sent == HandlesFor(b, ids, |sent|, first)
    && (forall k :: first <= k < first + |sent| ==> refuses(k).None?)
    && match r
       case Submitted(handles) => |sent| == |ids| && handles == sent
       case NotSubmitted(problem) =>
         |sent| < |ids| && refuses(first + |sent|).Some? && problem == Interrupted(refuses(first + |sent|).value)
  }

  /** The jobs were submitted in order, each under its own id and in its own call, up to the first call
      that was refused. */
  lemma LoadedMeans(refuses: nat -> Option<Exc>, b: string, ids: seq<string>, first: nat,
                    sent: seq<JobHandle>, r: Submission)
    requires Loaded(refuses, b, ids, first, sent, r)
    ensures |sent| <= |ids|
    ensures forall k :: 0 <= k < |sent| ==>
              sent[k].batch == b && sent[k].job == ids[k] && sent[k].token == first + k
    ensures r == Submitted(sent) <==> forall k :: first <= k < first + |ids| ==> refuses(k).None?
    ensures r != Submitted(sent) ==> exists e :: r == NotSubmitted(Interrupted(e)) && refuses(first + |sent|) == Some(e)
    ensures forall k :: first <= k < first + |sent| ==> refuses(k).None?
  {}

  class Dispatcher {
    const backend: Backend
    const raiseOnFailure: bool
    var batches: set<string>
    var setupDone: bool
    var outstanding: seq<JobHandle>

    constructor (backend: Backend, raiseOnFailure: bool, batches: set<string>)
      ensures this.backend == backend && this.raiseOnFailure == raiseOnFailure
      ensures this.batches == batches && !setupDone && outstanding == []
    {
      this.backend, this.raiseOnFailure, this.batches := backend, raiseOnFailure, batches;
      setupDone, outstanding := false, [];
    }

    /** Why a batch is turned away before any of its jobs is submitted. */
    ghost function Rejection(ids: seq<string>, batchId: Option<string>, made: string, setup: Option<Exc>)
      : Option<Problem>
      reads this`setupDone, this`batches
    {
      if !Distinct(ids) then Some(DuplicateIds)
      else if batchId.Some? && !ValidId(batchId.value) then Some(InvalidBatchId)
      else if !setupDone && setup.Some? then Some(SetupFailed(setup.value))
      else if IdOr(batchId, made) in batches then Some(BatchExists)
      else None
    }

    /** The checks in their order: a batch without duplicates and with a valid id sets the hosts up, if
        need be, and then needs a directory that nobody has. */
    lemma RejectionExact(ids: seq<string>, batchId: Option<string>, made: string, setup: Option<Exc>)
      ensures var r := Rejection(ids, batchId, made, setup);
              && (r == Some(DuplicateIds) <==> exists x :: multiset(ids)[x] > 1)
              && (r == Some(InvalidBatchId) <==>
                    (forall x :: multiset(ids)[x] <= 1) && (exists b :: batchId == Some(b) && !ValidId(b)))
              && (r.Some? && r.value.SetupFailed? <==>
                    WellFormed(ids, batchId) && !setupDone && setup.Some?)
              && (r.Some? && r.value.SetupFailed? ==> setup == Some(r.value.exc))
              && (r == Some(BatchExists) <==>
                    WellFormed(ids, batchId) && (setupDone || setup.None?)
                    && ((batchId.Some? && batchId.value in batches) || (batchId.None? && made in batches)))
              && (r.Some? ==> !r.value.Interrupted?)
    {
      NoneTwiceIsDistinct(ids);
      assert forall x :: multiset(ids)[x] > 1 ==> x in ids;
    }

    /** Submit a batch; made is the id made up for a batch without one, and setup what the first
        setup raises. Handles of a batch that was cut short stay outstanding, and cancellation was
        requested for each of them, once. */
    method Submit(ids: seq<string>, batchId: Option<string>, made: string, setup: Option<Exc>)
      returns (r: Submission, ghost sent: seq<JobHandle>)
      modifies this`batches, this`setupDone, this`outstanding, backend`asked, backend`created, backend`cancels
      ensures var rejection := old(Rejection(ids, batchId, made, setup));
              if rejection.Some? then r == NotSubmitted(rejection.value) && sent == [] && batches == old(batches)
              else setupDone && batches == old(batches) + {IdOr(batchId, made)}
                   && Loaded(backend.refuses, IdOr(batchId, made), ids, old(backend.asked), sent, r)
      ensures setupDone <==> old(setupDone) || (WellFormed(ids, batchId) && setup.None?)
      ensures outstanding == old(outstanding) + sent && backend.created == old(backend.created) + sent
      ensures backend.cancels == old(backend.cancels) + if r.Submitted? then [] else sent
      ensures backend.asked == old(backend.asked) + |sent|
                               + if old(Rejection(ids, batchId, made, setup)).Some? || r.Submitted? then 0 else 1
    {
      RejectionExact(ids, batchId, made, setup);
      NoneTwiceIsDistinct(ids);
      sent := [];
      if exists x :: x in ids && multiset(ids)[x] > 1 { return NotSubmitted(DuplicateIds), sent; }
      if batchId.Some? && !ValidId(batchId.value) { return NotSubmitted(InvalidBatchId), sent; }
      if !setupDone {
        if setup.Some? { return NotSubmitted(SetupFailed(setup.value)), sent; }
        setupDone := true;
      }
      var b := IdOr(batchId, made);
      if b in batches { return NotSubmitted(BatchExists), sent; }
      batches := batches + {b};
      r, sent := SubmitAll(b, ids);
    }

    /** Submit the jobs one by one; when one is refused, request cancellation of those before it. */
    method SubmitAll(b: string, ids: seq<string>) returns (r: Submission, ghost sent: seq<JobHandle>)
      modifies this`outstanding, backend`asked, backend`created, backend`cancels
      ensures Loaded(backend.refuses, b, ids, old(backend.asked), sent, r)
      ensures outstanding == old(outstanding) + sent && backend.created == old(backend.created) + sent
      ensures backend.cancels == old(backend.cancels) + if r.Submitted? then [] else sent
      ensures backend.asked == old(backend.asked) + |sent| + if r.Submitted? then 0 else 1
    {
      var handles := [];
      ghost var first := backend.asked;
      for i := 0 to |ids|
        invariant handles == HandlesFor(b, ids, i, first) && backend.asked == first + i
        invariant outstanding == old(outstanding) + handles && backend.created == old(backend.created) + handles
        invariant backend.cancels == old(backend.cancels)
        invariant forall k :: first <= k < first + i ==> backend.refuses(k).None?
      {
        var handle, raised := backend.Submit(b, ids[i]);
        if raised.Some? {
          CancelAll(handles);
          return NotSubmitted(Interrupted(raised.value)), handles;
        }
        handles := handles + [handle];
        outstanding := outstanding + [handle];
      }
      return Submitted(handles), handles;
    }

    /** A failing request does not keep the others from being made. */
    method CancelAll(handles: seq<JobHandle>)
      modifies backend`cancels
      ensures backend.cancels == old(backend.cancels) + handles
    {
      for i := 0 to |handles|
        invariant backend.cancels == old(backend.cancels) + handles[..i]
      {
        var _ := backend.Cancel(handles[i]);
      }
      assert handles[..|handles|] == handles;
    }

    /** Poll the handles round after round, and resolve each as soon as it is over. */
    method AsCompleted(handles: seq<JobHandle>, ghost horizon: nat)
      returns (results: seq<BatchResult>, ghost resolved: seq<JobHandle>, raised: Option<Exc>)
      requires backend.Settles(handles, horizon)
      modifies backend`calls
      ensures backend.Delivered(resolved, results) && multiset(resolved) <= multiset(handles)
      ensures raised.None? ==> multiset(resolved) == multiset(handles)
      ensures raised.Some? ==> backend.Disturbs(handles, raised.value)
    {
      results, resolved, raised := [], [], None;
      var remaining := handles;
      assert backend.Delivered(resolved, results);

      while remaining != []
        invariant backend.Delivered(resolved, results) && raised.None?
        invariant multiset(resolved) + multiset(remaining) == multiset(handles)
        decreases if backend.calls < horizon then horizon - backend.calls else 0, |remaining|
      {
        backend.SettlesLess(remaining, handles, horizon);
        var more, next; ghost var over;
        more, over, next, raised := Round(remaining, horizon);
        Moved(resolved, remaining, handles, over, next);
        backend.DeliveredMore(resolved, results, over, more);
        results, resolved := results + more, resolved + over;
        if raised.Some? {
          backend.DisturbsMore(remaining, handles, raised.value);
          return;
        }
        remaining := next;
      }
    }

    method PollOne(h: JobHandle, ghost remaining: seq<JobHandle>, ghost horizon: nat) returns (p: Polled)
      requires backend.Settles(remaining, horizon) && h in remaining
      modifies backend`calls
      ensures backend.calls > old(backend.calls)
      ensures p.Failing? ==> backend.Disturbs(remaining, p.exc)
      ensures p.Over? ==> backend.Gave(h, p.result)
      ensures p.NotYet? ==> old(backend.calls) < horizon
    {
      ghost var t := backend.calls;
      var a := backend.Status(h);
      if a.Unavailable? { return Failing(a.exc); }
      if a.Running? { return NotYet; }
      var r := backend.Resolve(h);
      if r.Unresolved? { return Failing(r.exc); }
      assert backend.answer(h, t) == Terminal && backend.resolution(h, t + 1) == Resolved(r.result);
      return Over(r.result);
    }

    /** One round over the jobs that were still running. */
    method Round(remaining: seq<JobHandle>, ghost horizon: nat)
      returns (results: seq<BatchResult>, ghost resolved: seq<JobHandle>, next: seq<JobHandle>, raised: Option<Exc>)
      requires backend.Settles(remaining, horizon)
      modifies backend`calls
      ensures backend.Delivered(resolved, results) && multiset(resolved) <= multiset(remaining)
      ensures raised.Some? ==> backend.Disturbs(remaining, raised.value)
      ensures raised.None? ==>
                && multiset(resolved) + multiset(next) == multiset(remaining)
                && backend.calls >= old(backend.calls) + |remaining|
                && (old(backend.calls) >= horizon ==> next == [])
    {
      results, resolved, next := [], [], [];
      for i := 0 to |remaining|
        invariant backend.Delivered(resolved, results)
        invariant multiset(resolved) + multiset(next) == multiset(remaining[..i])
        invariant backend.calls >= old(backend.calls) + i && (old(backend.calls) >= horizon ==> next == [])
      {
        var h := remaining[i];
        Joins(resolved, next, remaining, i);
        assert h in remaining;
        var p := PollOne(h, remaining, horizon);
        match p {
          case Failing(e) => return results, resolved, next, Some(e);
          case Over(result) =>
            backend.DeliveredMore(resolved, results, [h], [result]);
            results, resolved := results + [result], resolved + [h];
          case NotYet => next := next + [h];
        }
      }
      assert remaining[..|remaining|] == remaining;
      raised := None;
    }

    /** The results by the id they carry, a later one replacing an earlier one. */
    method ById(results: seq<BatchResult>) returns (byId: map<string, BatchResult>)
      ensures forall k :: 0 <= k < |results| ==> results[k].id in byId
      ensures forall id :: id in byId ==> byId[id].id == id && byId[id] in results
    {
      byId := map[];
      for i := 0 to |results|
        invariant forall k :: 0 <= k < i ==> results[k].id in byId
        invariant forall id :: id in byId ==> byId[id].id == id && byId[id] in results
      {
        byId := byId[results[i].id := results[i]];
      }
    }

    /** Submit a batch and wait for all of it: one result per job, in the order of the jobs. */
    method Run(ids: seq<string>, batchId: Option<string>, made: string, setup: Option<Exc>, ghost horizon: nat)
      returns (outcome: BatchOutcome, ghost handles: seq<JobHandle>)
      requires backend.Labelled()
      requires backend.Settles(HandlesFor(IdOr(batchId, made), ids, |ids|, backend.asked), horizon)
      modifies this`batches, this`setupDone, this`outstanding, backend
      ensures !outcome.NoResults? ==>
                && |outcome.results| == |ids| == |handles|
                && (forall i :: 0 <= i < |ids| ==> handles[i].job == ids[i] && outcome.results[i].id == ids[i])
                && (forall i :: 0 <= i < |ids| ==> backend.Gave(handles[i], outcome.results[i]))
                && (outcome.BatchFailed? <==>
                      raiseOnFailure && exists i :: 0 <= i < |ids| && outcome.results[i].status != Succeeded)
      ensures setupDone <==> old(setupDone) || (WellFormed(ids, batchId) && setup.None?)
      ensures |handles| <= |ids| && handles == HandlesFor(IdOr(batchId, made), ids, |handles|, old(backend.asked))
      ensures outstanding == old(outstanding) + handles
      ensures backend.cancels == old(backend.cancels) + if |handles| < |ids| then handles else []
      ensures batches == old(batches)
                + if old(Rejection(ids, batchId, made, setup)).Some? then {} else {IdOr(batchId, made)}
      ensures old(Rejection(ids, batchId, made, setup)).Some? ==>
                outcome == NoResults(old(Rejection(ids, batchId, made, setup)).value)
      ensures outcome.NoResults? && old(Rejection(ids, batchId, made, setup)).None? ==>
                && outcome.problem.Interrupted?
                && ((exists k: nat :: backend.refuses(k) == Some(outcome.problem.exc))
                    || backend.Disturbs(handles, outcome.problem.exc))
    {
      handles := [];
      var s;
      s, handles := Submit(ids, batchId, made, setup);
      if s.NotSubmitted? { return NoResults(s.problem), handles; }
      var results; ghost var resolved; var raised;
      results, resolved, raised := AsCompleted(s.handles, horizon);
      if raised.Some? { return NoResults(Interrupted(raised.value)), handles; }
      var ordered := InOrder(ids, results, handles, resolved);
      outcome := if raiseOnFailure && exists r :: r in ordered && r.status != Succeeded
                 then BatchFailed(ordered) else Ordered(ordered);
    }

    /** Look up the result of each job in turn. */
    method InOrder(ids: seq<string>, results: seq<BatchResult>, ghost handles: seq<JobHandle>,
                   ghost resolved: seq<JobHandle>)
      returns (ordered: seq<BatchResult>)
      requires backend.Labelled() && Distinct(ids) && |handles| == |ids|
      requires forall k :: 0 <= k < |ids| ==> handles[k].job == ids[k]
      requires backend.Delivered(resolved, results) && multiset(resolved) == multiset(handles)
      ensures |ordered| == |ids|
      ensures forall k :: 0 <= k < |ids| ==> ordered[k].id == ids[k] && backend.Gave(handles[k], ordered[k])
    {
      var byId := ById(results);
      ordered := [];
      for i := 0 to |ids|
        invariant |ordered| == i
        invariant forall k :: 0 <= k < i ==> ordered[k].id == ids[k] && backend.Gave(handles[k], ordered[k])
      {
        Found(backend, ids, handles, results, resolved, i);
        ordered := ordered + [byId[ids[i]]];
      }
    }
  }
}
