# ray-dispatcher: the safety of its slot leases, jobs, sessions and publications

A dispatcher of jobs to shared machines is safe if a machine's slot never changes hands while something
may still be running in it, if no task is forgotten when a session is lost, and if an interrupted
publication leaves nothing half done. These are properties of whole runs, with retries, time-outs,
sweeps and several clients interleaved. This project models the state machines of ray-dispatcher that
are responsible for them, in Dafny, and proves what they keep. `dafny verify dfyconfig.toml` checks all
of it.

| file | models |
|---|---|
| `Basics.dfy` | label order, finite sums and set sizes |
| `PoolStates.dfy`, `PoolRuns.dfy`, `LeasePools.dfy` | the lease pool: its invariant and state functions, theorems about whole runs, and the class whose methods are proved equal to the state functions |
| `LeaseServices.dfy` | the pool behind one condition variable, over all interleavings of clients |
| `Remotes.dfy` | a remote host as its commands and clock show it; terminating a process group, reconciling a host |
| `Attempts.dfy` | supervising one attempt and classifying what came of it |
| `JobTraces.dfy`, `Jobs.dfy` | traces of the attempts of a job and what follows from them, and the retry loop, run against a shared pool, that is proved to produce them |
| `Workers.dfy` | the job loop as a worker of the teardown model |
| `Sweeper.dfy` | one pass of the sweeper with other clients' calls in between |
| `SessionLocks.dfy` | the owner file of a host over traces of any number of sessions |
| `SessionLoss.dfy` | the loss callback, and the race of loss, submission and cancellation |
| `Teardown.dfy` | workers, sweeper and drain together; attempt ids and the live-host view |
| `Publishing.dfy` | the script that replaces a directory, stopped anywhere any number of times |
| `Outputs.dfy` | the overlap check and the collection of outputs |
| `Batches.dfy` | submitting and running batches |

## How the world enters

- Exceptions are outcomes. What commands, clocks, disks, interrupts and other clients do is given
  from outside, as scripts or as functions of the number of the call, and every theorem is about all
  of them. Times are real numbers.
- A lease token is the number of its grant: the token factory never repeats itself, and a dictionary
  keyed by tokens iterates in increasing order.
- In `LeasePools` the set of healthy hosts is the set of hosts the pool was built with, which the
  code never changes. Slot counts are natural numbers and host labels are not empty, as an
  inventory demands.
- In `Jobs`, the calls of other clients are served at every point where they can come in between the
  job's own. An acquisition that is still waiting when its script ends is `StillWaiting`.
- `LeaseServices`, `SessionLoss`, `LossCallbacks` and `Teardown` are transition systems over all
  interleavings of the steps between two points where another coroutine or thread may run. In
  `Teardown` a worker acquires only when it holds nothing and releases what it holds; that the calls
  of a job are such a worker's is proved in `Workers`. A worker may also end at any time.
- A connection to a host is an object with a record of the commands it carried, the replies it got,
  and a clock. Each attempt of a job and each host of a sweep has its own, so that every clock may
  have moved on in between, and the contracts say what each of them carried.
- In `SessionLocks` a run of the script is one step, because it holds an exclusive file lock and
  replaces the file by one rename.

## Where the code does not do what it is meant to

Three properties fail, each on exactly described inputs.

- **An unconfirmed cleanup can be swallowed.** When a run timed out and its cleanup was not
  confirmed, `execute_attempt` (scheduling.py:454-482) first pulls the logs and writes the record of
  the attempt. If a log pull raises anything but a transport error (or a lost lease), or the write
  fails, that exception replaces the cleanup failure, `run_job` does not quarantine, and its
  `finally` hands the slot back although processes may be alive. `JobTraces.SwallowedExample` is
  such a run. `JobTraces.QuarantineExact` and `JobTraces.HandbackExact` show that handing back is
  safe if and only if this does not happen.
- **The output destination `.` is always present.** The overlap check (models.py:218-222) accepts it
  when it is the only output, and the staging directory exists before anything is pulled.
  `Outputs.RootOutputAlwaysPresent` is the case; `Outputs.GenuineExact` shows that presence is
  genuine for all pulls if and only if no destination is `.`.
- **An acquisition with an empty attempt id leaks a slot.** The slot is taken before the lease object
  refuses the empty id (scheduling.py:125-136 and 63-71). `PoolStates.StepValid` shows that this is
  the only operation that breaks the pool's invariant, exactly when it finds a candidate host.
  `run_job` never passes an empty id.

## Model

| member | source | states |
|---|---|---|
| `LeasePools.LeasePool.constructor` | src/it/unimib/data/nanofaas/ray_dispatcher/scheduling.py:74-95 | a new pool is valid, leases nothing, and quarantines nothing |
| `LeasePools.LeasePool.HealthyHostCount` | src/it/unimib/data/nanofaas/ray_dispatcher/scheduling.py:97-109 | counts the hosts that are not quarantined |
| `LeasePools.LeasePool.FreeSlots` | src/it/unimib/data/nanofaas/ray_dispatcher/scheduling.py:111-113 | free slots of the live hosts plus live leases is exactly the number of slots of the live hosts |
| `LeasePools.LeasePool.MostFree` | src/it/unimib/data/nanofaas/ray_dispatcher/scheduling.py:124-125 | the chosen candidate is most free, with the smallest label among equals |
| `LeasePools.LeasePool.TakeSlot` | src/it/unimib/data/nanofaas/ray_dispatcher/scheduling.py:103-107 | the smallest free index in range is taken, and only that |
| `LeasePools.LeasePool.Acquire` | src/it/unimib/data/nanofaas/ray_dispatcher/scheduling.py:115-137 | the whole new state and the grant are those of the state function `Acquired`, whose meaning `AcquiredChoice` states; the invariant is kept for a named attempt |
| `LeasePools.LeasePool.Release` | src/it/unimib/data/nanofaas/ray_dispatcher/scheduling.py:139-145 | frees the slot exactly when the token is a live lease, says so, forgets the pid path, and keeps the invariant |
| `LeasePools.LeasePool.RegisterPid` | src/it/unimib/data/nanofaas/ray_dispatcher/scheduling.py:147-150 | records the path for a live lease only |
| `LeasePools.LeasePool.OrphanPaths` | src/it/unimib/data/nanofaas/ray_dispatcher/scheduling.py:152-154 | a snapshot of the recorded paths; only quarantined hosts have any |
| `LeasePools.LeasePool.Heartbeat` | src/it/unimib/data/nanofaas/ray_dispatcher/scheduling.py:156-164 | extends the lease exactly when it is live strictly before its deadline, and says so |
| `LeasePools.LeasePool.Quarantine` | src/it/unimib/data/nanofaas/ray_dispatcher/scheduling.py:166-173 | dropping the leases of a host one by one amounts to one step: leases gone, slots free, pid paths appended to the orphan list in grant order |
| `LeasePools.LeasePool.MarkReconciled` | src/it/unimib/data/nanofaas/ray_dispatcher/scheduling.py:175-177 | forgets the orphans and readmits the host |
| `LeasePools.LeasePool.SweepExpired` | src/it/unimib/data/nanofaas/ray_dispatcher/scheduling.py:179-184 | quarantining the affected hosts in any order is one step on their set; exactly the hosts of expired leases, sorted |
| `LeasePools.LeasePool.QuarantinedHosts` | src/it/unimib/data/nanofaas/ray_dispatcher/scheduling.py:186-187 | the quarantined hosts, sorted |
| `Basics.SortedLabels` | src/it/unimib/data/nanofaas/ray_dispatcher/scheduling.py:184-187 | each label of the set once, in the order of code points |
| `Basics.BelowExact` | src/it/unimib/data/nanofaas/ray_dispatcher/scheduling.py:184-187 | the label order: the first character in which two labels differ decides, and a proper prefix comes first |
| `LeasePools.LeasePool.CurrentHosts` | src/it/unimib/data/nanofaas/ray_dispatcher/scheduling.py:189-190 | the view built in lease order, a later lease of the same attempt hiding an earlier one |
| `LeasePools.LeasePool.ServeAll` | src/it/unimib/data/nanofaas/ray_dispatcher/scheduling.py:115-187 | serving the calls of all clients, one after the other, is a run of the state functions |
| `LeasePools.DroppedAll` | src/it/unimib/data/nanofaas/ray_dispatcher/scheduling.py:166-173 | the loop over the leases of a host equals quarantining the host in one step |
| `LeasePools.IsolatedOneMore` | src/it/unimib/data/nanofaas/ray_dispatcher/scheduling.py:179-184 | quarantining hosts one after the other equals quarantining their set |
| `PoolStates.BestExists` | src/it/unimib/data/nanofaas/ray_dispatcher/scheduling.py:125 | sorting by label and taking the maximum of the free count always picks some candidate |
| `PoolStates.BestUnique` | src/it/unimib/data/nanofaas/ray_dispatcher/scheduling.py:125 | and there is only one candidate it can pick |
| `PoolStates.FreeSlotExists` | src/it/unimib/data/nanofaas/ray_dispatcher/scheduling.py:103-107 | a host whose used set is smaller than its slot count has a free index in range, so `next(...)` never fails |
| `PoolStates.RejectedLeaks` | src/it/unimib/data/nanofaas/ray_dispatcher/scheduling.py:125-136 | an acquisition without attempt id that finds a candidate takes a slot that no lease holds |
| `PoolStates.StepValid` | src/it/unimib/data/nanofaas/ray_dispatcher/scheduling.py:86-187 | every operation keeps the pool invariant, except exactly an acquisition without attempt id that finds a candidate |
| `PoolRuns.AfterConcat` | src/it/unimib/data/nanofaas/ray_dispatcher/scheduling.py:74-190 | runs compose |
| `PoolRuns.TokensPerHost` | src/it/unimib/data/nanofaas/ray_dispatcher/scheduling.py:86-187 | a host uses as many slots as it has leases |
| `PoolRuns.Conservation` | src/it/unimib/data/nanofaas/ray_dispatcher/scheduling.py:86-187 | after any run, free slots of live hosts plus live leases is the total of their slots |
| `PoolRuns.AcquiredChoice` | src/it/unimib/data/nanofaas/ray_dispatcher/scheduling.py:115-137 | nothing is granted exactly when all preferred hosts are full; an excluded host is repeated only if all live hosts are excluded; most free first, smallest label on ties; smallest slot nobody holds; a new token |
| `PoolRuns.FreeNonNegative` | src/it/unimib/data/nanofaas/ray_dispatcher/scheduling.py:100-101 | no host is ever over-committed |
| `PoolRuns.ReleaseUndoesAcquire` | src/it/unimib/data/nanofaas/ray_dispatcher/scheduling.py:115-145 | releasing what was granted restores the state, apart from the spent token |
| `PoolRuns.ExtendableXorExpired` | src/it/unimib/data/nanofaas/ray_dispatcher/scheduling.py:156-184 | at each instant a lease is either extendable by heartbeat or counted as expired by a sweep, never both; when a sweep takes it away |
| `PoolRuns.RefusedForever` | src/it/unimib/data/nanofaas/ray_dispatcher/scheduling.py:156-164 | under a clock that does not go back, a refused heartbeat stays refused at every time after every run |
| `PoolRuns.BeatingHolderKeepsLease` | src/it/unimib/data/nanofaas/ray_dispatcher/scheduling.py:156-184 | a holder whose beats are less than the ttl apart is never the expired lease of a sweep, and keeps its lease unless something else takes it |
| `PoolRuns.QuarantinedFrozen` | src/it/unimib/data/nanofaas/ray_dispatcher/scheduling.py:147-177 | until it is marked reconciled, a quarantined host stays so, holds no lease, and keeps its orphan list, through every run |
| `PoolRuns.QuarantineRecordsPaths` | src/it/unimib/data/nanofaas/ray_dispatcher/scheduling.py:166-173 | no pid path of a dropped lease is lost; earlier orphans are kept before it |
| `PoolRuns.ViewLosesNothing` | src/it/unimib/data/nanofaas/ray_dispatcher/scheduling.py:189-190 | where attempts are distinct the view has exactly one entry per lease |
| `PoolRuns.ViewShowsLatest` | src/it/unimib/data/nanofaas/ray_dispatcher/scheduling.py:189-190 | the attempt of any lease is in the view, with the host of the lease granted to it last |
| `PoolRuns.ViewShowsLeases` | src/it/unimib/data/nanofaas/ray_dispatcher/scheduling.py:189-190 | every entry of the view is the attempt of a lease |
| `PoolRuns.ChoiceInDetail` | src/it/unimib/data/nanofaas/ray_dispatcher/scheduling.py:115-125 | in terms of slot counts: nothing exactly when every eligible host uses all its slots; else the granted host beats every other eligible one |
| `PoolRuns.EligibleIsPreferred` | src/it/unimib/data/nanofaas/ray_dispatcher/scheduling.py:116-119 | eligible hosts are the live ones that are not excluded, or all live ones if all of those are excluded |
| `PoolRuns.GrantEffect` | src/it/unimib/data/nanofaas/ray_dispatcher/scheduling.py:126-137 | a grant takes one slot of its own host and leaves every other lease and path alone |
| `PoolRuns.ReleaseEffect` | src/it/unimib/data/nanofaas/ray_dispatcher/scheduling.py:139-145 | a release takes away the lease it names, its slot and its path, and nothing else |
| `PoolRuns.RegisterExact` | src/it/unimib/data/nanofaas/ray_dispatcher/scheduling.py:147-150 | registering puts this path on record for this live lease and leaves every other path and all else as it was; for an unknown token nothing changes |
| `PoolRuns.BeatEffect` | src/it/unimib/data/nanofaas/ray_dispatcher/scheduling.py:156-164 | a heartbeat moves the expiry of the live lease it names, and nothing else |
| `PoolRuns.QuarantineEffect` | src/it/unimib/data/nanofaas/ray_dispatcher/scheduling.py:166-173 | a quarantine takes away exactly the leases of its host, frees their slots, and appends their paths to its orphans in grant order |
| `PoolRuns.DroppedInOrder` | src/it/unimib/data/nanofaas/ray_dispatcher/scheduling.py:166-173 | the tokens dropped on a host are those of its leases with a path, in the order of their grants |
| `PoolRuns.DroppedPathsExact` | src/it/unimib/data/nanofaas/ray_dispatcher/scheduling.py:166-173 | what is appended to the orphans is the path of each of these tokens, once |
| `PoolRuns.SweepEffect` | src/it/unimib/data/nanofaas/ray_dispatcher/scheduling.py:179-184 | a sweep does that to exactly the hosts of the leases whose deadline has come |
| `PoolRuns.ReadmitEffect` | src/it/unimib/data/nanofaas/ray_dispatcher/scheduling.py:175-177 | readmission makes the host live with no orphans, and touches nothing else |
| `PoolRuns.PathUntouched` | src/it/unimib/data/nanofaas/ray_dispatcher/scheduling.py:139-184 | while a lease is held, no call but its own registration changes its path; in particular no other lease's release or registration does |
| `PoolRuns.TakenAway` | src/it/unimib/data/nanofaas/ray_dispatcher/scheduling.py:139-184 | a call that takes a lease away is its release, or quarantines its host and puts its path among the orphans there |
| `PoolRuns.NoPathIsLost` | src/it/unimib/data/nanofaas/ray_dispatcher/scheduling.py:147-177 | through every run without its release and the readmission of its host, a path stays with its lease or is an orphan of the host |
| `PoolRuns.RegisteredPathIsKept` | src/it/unimib/data/nanofaas/ray_dispatcher/scheduling.py:147-177 | the path last registered for a live lease is that path: it stays on record through every such run, and is an orphan of the lease's own host once the lease is gone |
| `LeaseServices.NoMoreRoom` | src/it/unimib/data/nanofaas/ray_dispatcher/scheduling.py:715-723 | a state with no more room serves no waiter that was unservable |
| `LeaseServices.GrantTakesRoom` | src/it/unimib/data/nanofaas/ray_dispatcher/scheduling.py:715-723 | a grant to one client enables no waiter |
| `LeaseServices.QuietCallKeepsFull` | src/it/unimib/data/nanofaas/ray_dispatcher/scheduling.py:730-739 | heartbeat, register_pid and an empty sweep, which notify nobody, enable no waiter |
| `LeaseServices.NextKeeps` | src/it/unimib/data/nanofaas/ray_dispatcher/scheduling.py:715-761 | every step of any coroutine keeps the invariant on parked waiters |
| `LeaseServices.NoWakeupIsLost` | src/it/unimib/data/nanofaas/ray_dispatcher/scheduling.py:715-761 | in every reachable state each waiter that was not notified is unservable while some host is live |
| `LeaseServices.WaiterLeaves` | src/it/unimib/data/nanofaas/ray_dispatcher/scheduling.py:715-723 | a waiter leaves only with a lease on a preferred host, or because no host is live, or because its caller gave up |
| `LeaseServices.EventMeans` | src/it/unimib/data/nanofaas/ray_dispatcher/scheduling.py:715-761 | the reply and the new state of every step: a lease exactly when an eligible host has a free slot, failure exactly when no host is live, else parked as asked; giving up takes away that waiter only; other calls do their step and notify all or leave the waiters alone |
| `LeaseServices.ServableIsServed` | src/it/unimib/data/nanofaas/ray_dispatcher/scheduling.py:715-723 | in every reachable state a waiter that an eligible host has a slot for can run and gets a lease when it runs; with no live host every waiter can run and fails |
| `LeaseServices.PoolIsRun` | src/it/unimib/data/nanofaas/ray_dispatcher/scheduling.py:715-761 | every interleaving takes the pool through a run of the calls that were made |
| `Remotes.TerminateProcessGroup` | src/it/unimib/data/nanofaas/ray_dispatcher/ssh.py:291-327 | true exactly when the last probe said gone; TERM once and first; KILL at most once, after probes that all saw the group alive, not before the waiting is over, and followed by one probe; nothing sent at or after the deadline; with instantaneous commands, exact sleeps and a start before the deadline the final probe always fits |
| `Remotes.AwaitExit` | src/it/unimib/data/nanofaas/ray_dispatcher/ssh.py:316-324 | the grace loop: terminates, probes only, ends by the deadline for waiting or when a probe says gone |
| `Remotes.Remote.Run` | src/it/unimib/data/nanofaas/ray_dispatcher/ssh.py:304-310 | a command goes on record with its time and the reply that the host gives to it |
| `Remotes.WaitThenForce` | src/it/unimib/data/nanofaas/ray_dispatcher/ssh.py:316-327 | the grace period, then KILL, not before the waiting is over |
| `Remotes.ForceExit` | src/it/unimib/data/nanofaas/ray_dispatcher/ssh.py:325-327 | KILL, half of the remaining time, and one last probe |
| `Remotes.BudgetStep` | src/it/unimib/data/nanofaas/ray_dispatcher/ssh.py:321-324 | each nap uses up a poll interval or reaches the end of waiting |
| `Remotes.ParsedIsForeign` | src/it/unimib/data/nanofaas/ray_dispatcher/scheduling.py:193-200 | a group is read exactly from a record that was read and names neither group 0 nor 1 |
| `Remotes.SendTerm` | src/it/unimib/data/nanofaas/ray_dispatcher/ssh.py:304-315 | TERM is the first command, sent once unless the deadline has passed; what it says decides whether there is anything to wait for |
| `Remotes.WatchOnce` | src/it/unimib/data/nanofaas/ray_dispatcher/ssh.py:316-324 | one turn of the grace loop: one probe, whose answer ends it or leads to a nap |
| `Remotes.KillRemotePgid` | src/it/unimib/data/nanofaas/ray_dispatcher/scheduling.py:302-321 | true exactly when the recorded group was confirmed gone; once the record is readable, TERM against its group comes next and the escalation is carried to its end (a raised reply, a probe that says gone, or KILL and a last probe), KILL not before ten seconds have passed; an unreadable record is given up only after half a second; with instantaneous commands the last probe always fits |
| `Remotes.ReconcileHost` | src/it/unimib/data/nanofaas/ray_dispatcher/scheduling.py:203-224 | clean exactly when the recorded group was confirmed gone, within the deadline; a readable record is pursued to the end of the escalation; dirty and unreachable exactly as the replies say |
| `Attempts.InvokeRunner` | src/it/unimib/data/nanofaas/ray_dispatcher/scheduling.py:334-381 | what supervision ends with, over all scripts of lease checks, clock readings, interrupts and worker errors; whenever something was raised the recorded group is pursued as `KillRemotePgid` does; cleaned exactly when the commands sent confirm it gone and the worker ended too |
| `Attempts.Await` | src/it/unimib/data/nanofaas/ray_dispatcher/scheduling.py:355-366 | the first exception of the wait loop, in the order of its checks |
| `Attempts.FirstRaisedExact` | src/it/unimib/data/nanofaas/ray_dispatcher/scheduling.py:355-366 | the wait raises at the first poll that is not quiet: what the lease check raises, or else the timeout when the deadline has come, or else the interrupt |
| `Attempts.RaisedExact` | src/it/unimib/data/nanofaas/ray_dispatcher/scheduling.py:352-370 | a failing start comes first, then the wait, then what the invocation raised, then the last lease check |
| `Attempts.ConcludedExplains` | src/it/unimib/data/nanofaas/ray_dispatcher/scheduling.py:454-523 | which run ends as what: a nonzero code is COMMAND whatever the collection did; code 0 with a transport error is COLLECTION with its message; code 0, collected, something required missing is OUTPUT_MISSING; and so for timed-out and unconfirmed runs |
| `Attempts.ExecuteAttempt` | src/it/unimib/data/nanofaas/ray_dispatcher/scheduling.py:384-523 | the outcome, with the failure kind that each end of a run has; outputs are published exactly when the run ended normally, the code is 0, nothing required is missing and publishing works |
| `JobTraces.QuarantineExact` | src/it/unimib/data/nanofaas/ray_dispatcher/scheduling.py:630-669 | while the runner may still be alive, run_job quarantines the host before releasing exactly when the cleanup failure is not swallowed |
| `JobTraces.SwallowedExample` | src/it/unimib/data/nanofaas/ray_dispatcher/scheduling.py:454-482 | a timed-out run, unconfirmed cleanup and a full disk: the host is not quarantined |
| `JobTraces.HandledConcludes` | src/it/unimib/data/nanofaas/ray_dispatcher/scheduling.py:630-685 | each way an attempt ends gives a result of its own number and host, or an exception; success exactly with published outputs |
| `JobTraces.HandlingMeans` | src/it/unimib/data/nanofaas/ray_dispatcher/scheduling.py:630-685 | for each end of an attempt: its failure kind, and quarantine for unconfirmed cleanups, and for a lost lease also when the cleanup was confirmed |
| `JobTraces.PreventedInOrder` | src/it/unimib/data/nanofaas/ray_dispatcher/scheduling.py:630-644 | what keeps the runner from being invoked comes in the order of the steps |
| `JobTraces.RegistersAndQuarantines` | src/it/unimib/data/nanofaas/ray_dispatcher/scheduling.py:630-685 | the pid path is registered for the attempt's own lease before the runner is invoked; a quarantine that was decided is in place before the release |
| `JobTraces.NeverReissued` | src/it/unimib/data/nanofaas/ray_dispatcher/scheduling.py:130-145 | a token that is no longer a lease never becomes one again, so a second release is a no-op |
| `JobTraces.CallsBalance` | src/it/unimib/data/nanofaas/ray_dispatcher/scheduling.py:618-685 | the lease calls of one attempt acquire, and release once, whatever happened; quarantine is called exactly when it was decided |
| `JobTraces.BracketConcat` | src/it/unimib/data/nanofaas/ray_dispatcher/scheduling.py:615-685 | balanced logs of lease calls compose |
| `JobTraces.BracketMeans` | src/it/unimib/data/nanofaas/ray_dispatcher/scheduling.py:615-685 | in a balanced log each lease acquired is released by a later call, before any other is acquired |
| `JobTraces.CallsBalanced` | src/it/unimib/data/nanofaas/ray_dispatcher/scheduling.py:615-691 | over a whole job every lease acquired is released before the next is acquired and before the job ends |
| `JobTraces.HandbackExact` | src/it/unimib/data/nanofaas/ray_dispatcher/scheduling.py:630-685 | if the pool still holds the lease when it is released, the runner never started, ended by itself or is confirmed gone by the host's answers, if and only if the cleanup failure was not swallowed |
| `JobTraces.HandbacksSafe` | src/it/unimib/data/nanofaas/ray_dispatcher/scheduling.py:615-685 | the same for every attempt of every job |
| `JobTraces.FreshHost` | src/it/unimib/data/nanofaas/ray_dispatcher/scheduling.py:115-125 | the granting pool has no better host than the one leased, and a tried host only if all its live hosts were tried |
| `JobTraces.OutcomeMeans` | src/it/unimib/data/nanofaas/ray_dispatcher/scheduling.py:715-723 | a look finds no hosts exactly when none is live, waits exactly when every eligible host is full, and else gets the lease that the pool grants |
| `JobTraces.RepeatOnlyWhenAllTried` | src/it/unimib/data/nanofaas/ray_dispatcher/scheduling.py:615-691 | along a job, attempt k got the lease that the pool grants with the hosts of the earlier attempts excluded, from the state the pool was in then; it repeats a host only if every host live then had been tried |
| `JobTraces.PublishedOnce` | src/it/unimib/data/nanofaas/ray_dispatcher/scheduling.py:507-508 | outputs are published at most once, by the last attempt |
| `JobTraces.ReportsHold` | src/it/unimib/data/nanofaas/ray_dispatcher/scheduling.py:541-560 | the assembled result reports the attempts: numbers, total duration, host, code, error and status of the last, output_dir exactly on success; out of hosts it fails and says so |
| `JobTraces.RetriesExactly` | src/it/unimib/data/nanofaas/ray_dispatcher/scheduling.py:686-691 | a failure is retried exactly when the policy names it and attempts remain |
| `JobTraces.TotalConcat` | src/it/unimib/data/nanofaas/ray_dispatcher/scheduling.py:541-560 | the duration of a job is that of its attempts together |
| `JobTraces.Advance` | src/it/unimib/data/nanofaas/ray_dispatcher/scheduling.py:686-691 | after an attempt the job ends as it should or goes on with one more host tried and one attempt fewer left |
| `JobTraces.Stops` | src/it/unimib/data/nanofaas/ray_dispatcher/scheduling.py:618-629 | what the job ends with when it gets no lease |
| `JobTraces.Extends` | src/it/unimib/data/nanofaas/ray_dispatcher/scheduling.py:615-691 | one more attempt, with all earlier hosts as the tried ones, keeps the trace faithful |
| `JobTraces.ServedMore` | src/it/unimib/data/nanofaas/ray_dispatcher/scheduling.py:615-691 | each attempt starts from the pool where the one before ended |
| `JobTraces.StaysReleased` | src/it/unimib/data/nanofaas/ray_dispatcher/scheduling.py:615-691 | released leases stay released whatever the pool serves next |
| `Jobs.AcquireLease` | src/it/unimib/data/nanofaas/ray_dispatcher/scheduling.py:715-723 | the first lease that the pool has to grant at one of its looks, or no live host at the last look, or in vain at every look; and the pool afterwards |
| `Jobs.TryAttempt` | src/it/unimib/data/nanofaas/ray_dispatcher/scheduling.py:630-644 | the body of the try block: the runner is invoked unless a step before it fails; the pool serves exactly the registration and the other clients' calls; the commands are those that the connection carried |
| `Jobs.LetGo` | src/it/unimib/data/nanofaas/ray_dispatcher/scheduling.py:645-685 | quarantine if asked, then release: the lease is gone in either case; the slot is freed exactly if the pool still held the lease, which it does not after a quarantine |
| `Jobs.UnderLease` | src/it/unimib/data/nanofaas/ray_dispatcher/scheduling.py:630-685 | one attempt under a lease, with exactly what the pool served, what the connection carried, and which lease calls were made |
| `Jobs.NextAttempt` | src/it/unimib/data/nanofaas/ray_dispatcher/scheduling.py:615-685 | acquisition and attempt together, or the acquisition that got no lease |
| `Jobs.Decide` | src/it/unimib/data/nanofaas/ray_dispatcher/scheduling.py:618-691 | the branches of the loop: when the job ends and with what |
| `Jobs.RunJob` | src/it/unimib/data/nanofaas/ray_dispatcher/scheduling.py:597-692 | terminates, and there is a trace of 1 to max_attempts attempts that tells everything: all but the last were retried and the last is final, or the pool turned the job away; the pool's last state is its first after serving the attempts' operations; each connection carried that attempt's commands; the lease calls are the attempts' calls; no lease is left |
| `Workers.CallIsEvent` | src/it/unimib/data/nanofaas/ray_dispatcher/backends/ssh_ray.py:129-153 | a lease call of a job is an enabled worker event of the teardown model, with the same effect on the pool |
| `Workers.OthersLeaveWorker` | src/it/unimib/data/nanofaas/ray_dispatcher/backends/ssh_ray.py:129-153 | events of other workers, of the sweeper and of teardown leave a worker as it is |
| `Workers.BracketIsWorker` | src/it/unimib/data/nanofaas/ray_dispatcher/scheduling.py:615-685 | where a log of lease calls stands is what the worker holds |
| `Workers.JobIsWorker` | src/it/unimib/data/nanofaas/ray_dispatcher/scheduling.py:615-691 | the lease calls of a whole job are a run of one idle worker of the teardown model, which ends idle |
| `Sweeper.ReconcileAll` | src/it/unimib/data/nanofaas/ray_dispatcher/backends/ssh_ray.py:366-373 | clean exactly when every recorded path was confirmed gone by its own commands, which the connection carried; it stops at the first that is not |
| `Sweeper.Expire` | src/it/unimib/data/nanofaas/ray_dispatcher/backends/ssh_ray.py:363-364 | expires exactly the dead leases before the quarantined hosts are listed |
| `Sweeper.SweepHost` | src/it/unimib/data/nanofaas/ray_dispatcher/backends/ssh_ray.py:365-380 | one visit: the paths listed, the reconciliation that the host received for each, and readmission exactly when there were paths, all were confirmed gone and no call was refused |
| `Sweeper.SweepOnce` | src/it/unimib/data/nanofaas/ray_dispatcher/backends/ssh_ray.py:349-380 | the pass is a chain of such visits along the sorted list of quarantined hosts, from the pool before it to the pool after it, with arbitrary calls of others in between; it stops at the first visit cut short; each host received the commands of its visit and nothing else |
| `Sweeper.VisitSound` | src/it/unimib/data/nanofaas/ray_dispatcher/backends/ssh_ray.py:363-380 | at readmission the host is still quarantined, without lease, and its record is still the snapshot, all of it confirmed gone |
| `Sweeper.ReadmissionSound` | src/it/unimib/data/nanofaas/ray_dispatcher/backends/ssh_ray.py:363-380 | over a whole pass every readmission is sound and every other listed host stays as it was |
| `Sweeper.PassKeepsFrozen` | src/it/unimib/data/nanofaas/ray_dispatcher/backends/ssh_ray.py:349-380 | from the pool before the pass: a quarantined host that was not soundly readmitted keeps its quarantine and its orphan list |
| `Sweeper.FrozenTransitive` | src/it/unimib/data/nanofaas/ray_dispatcher/backends/ssh_ray.py:363-380 | stretches of other clients' calls compose |
| `Sweeper.VisitMeans` | src/it/unimib/data/nanofaas/ray_dispatcher/backends/ssh_ray.py:363-380 | what a visit did: each path reconciled in order up to the first that is not clean; readmitted exactly when there were paths, all confirmed gone, and no call was refused |
| `Sweeper.BegunExpires` | src/it/unimib/data/nanofaas/ray_dispatcher/backends/ssh_ray.py:363-365 | a pass that begins takes away every lease whose deadline had come; its host is quarantined and its registered path on record when the hosts are listed |
| `Sweeper.RegisteredPathConfirmed` | src/it/unimib/data/nanofaas/ray_dispatcher/backends/ssh_ray.py:366-380 | a host is readmitted only after the very path registered for each lease on it, since its last readmission and not released, was confirmed gone |
| `SessionLocks.OwnerFile.Operate` | src/it/unimib/data/nanofaas/ray_dispatcher/locking.py:31-68 | one run of the script: the new file and the exit code for every kind of file content |
| `SessionLocks.OwnerIsLastAcquirer` | src/it/unimib/data/nanofaas/ray_dispatcher/locking.py:31-68 | the file names a session as owner exactly when it is the last successful acquirer and has not released |
| `SessionLocks.RecordIsLatestRefresh` | src/it/unimib/data/nanofaas/ray_dispatcher/locking.py:31-68 | the record carries the owner's latest successful acquisition or heartbeat |
| `SessionLocks.TakeoverExact` | src/it/unimib/data/nanofaas/ray_dispatcher/locking.py:41-48 | an acquisition succeeds exactly when nobody else owns the lock or more than the acquirer's ttl has passed since the owner's last refresh |
| `SessionLocks.DisplacedIsPowerless` | src/it/unimib/data/nanofaas/ray_dispatcher/locking.py:50-68 | a displaced session's heartbeat and release leave the file unchanged until it acquires again, and the heartbeat reports the loss |
| `SessionLocks.RefreshedOwnerKeeps` | src/it/unimib/data/nanofaas/ray_dispatcher/locking.py:41-57 | an owner that refreshes in time and does not release keeps the lock against every trace |
| `SessionLocks.NotOwnerUntilAcquire` | src/it/unimib/data/nanofaas/ray_dispatcher/locking.py:31-68 | only its own acquisition makes a session the owner |
| `SessionLocks.OwnsStep` | src/it/unimib/data/nanofaas/ray_dispatcher/locking.py:31-68 | how one more run of the script changes who owns the lock |
| `SessionLocks.AcquireExact` | src/it/unimib/data/nanofaas/ray_dispatcher/locking.py:41-57 | the code and the file after an acquisition: refused, and unchanged, exactly while another session is protected |
| `SessionLocks.HeartbeatExact` | src/it/unimib/data/nanofaas/ray_dispatcher/locking.py:50-57 | on every trace, a heartbeat exits 0 exactly for the owner, and then the file names it with the current time; else it exits 4 and leaves the file as it is |
| `SessionLocks.ReleaseExact` | src/it/unimib/data/nanofaas/ray_dispatcher/locking.py:58-67 | on every trace, a release exits 0, and removes the file exactly for the owner |
| `LossCallbacks.CalledExactlyOnce` | src/it/unimib/data/nanofaas/ray_dispatcher/locking.py:132-157 | over all interleavings of the failing beat and the registration the callback is called at most once, and exactly once, with the failure that the beat raised, when both are through; neither side gets stuck |
| `SessionLoss.LossMissesNoTask` | src/it/unimib/data/nanofaas/ray_dispatcher/backends/ssh_ray.py:236-259 | over all interleavings of submissions, loss notifications and client cancellations no task is cancelled twice, and after a loss every task ever created is cancelled exactly once |
| `SessionLoss.AskedIsCancelledOnce` | src/it/unimib/data/nanofaas/ray_dispatcher/backends/ssh_ray.py:443-458 | over all interleavings, lost or not: when every call has come back, each task a client asked to cancel was cancelled by exactly one call, and without a loss no other task was |
| `SessionLoss.HealthySubmissionsCreate` | src/it/unimib/data/nanofaas/ray_dispatcher/backends/ssh_ray.py:400-424 | while the session is healthy every submission creates one task and records it |
| `SessionLoss.LossStopsSubmissions` | src/it/unimib/data/nanofaas/ray_dispatcher/backends/ssh_ray.py:246-259 | after a loss no submission that has yet to pass its check creates a task |
| `SessionLoss.FlagBecomesLoss` | src/it/unimib/data/nanofaas/ray_dispatcher/backends/ssh_ray.py:246-259 | a submission that finds a heartbeat failed makes the loss known instead of creating a task |
| `SessionLoss.AccountsKept` | src/it/unimib/data/nanofaas/ray_dispatcher/backends/ssh_ray.py:443-453 | a token is requested exactly when its cancel call was made or is about to be made by one thread |
| `SessionLoss.CoverageKept` | src/it/unimib/data/nanofaas/ray_dispatcher/backends/ssh_ray.py:417-423 | after a loss every created task is requested or some thread is bound to request it |
| `SessionLoss.InvReached` | src/it/unimib/data/nanofaas/ray_dispatcher/backends/ssh_ray.py:400-424 | the invariant holds in every reachable state |
| `Teardown.AttemptIdDecodes` | src/it/unimib/data/nanofaas/ray_dispatcher/backends/ssh_ray.py:491-495 | splitting at the first slash gives back the exact pair, because ids contain none |
| `Teardown.RunningHosts` | src/it/unimib/data/nanofaas/ray_dispatcher/backends/ssh_ray.py:486-495 | one entry per entry of the view, each with the host of the view; an error exactly when an entry has no slash |
| `Teardown.ViewIsExact` | src/it/unimib/data/nanofaas/ray_dispatcher/scheduling.py:189-190 | over jobs of distinct pairs at most one lease names an attempt, so the view has one entry per lease and each decodes to the job that holds it |
| `Teardown.OwnerKept` | src/it/unimib/data/nanofaas/ray_dispatcher/scheduling.py:615-685 | a lease stays with the job it was last granted to |
| `Teardown.NextKept` | src/it/unimib/data/nanofaas/ray_dispatcher/backends/ssh_ray.py:515-545 | every step of workers, sweeper and drain keeps the invariant |
| `Teardown.DrainIsStable` | src/it/unimib/data/nanofaas/ray_dispatcher/backends/ssh_ray.py:515-585 | once the drain has returned there is no unfinished worker, no lease and no quarantined host, and no later step changes that; the lease actor is gone or ownership given up only past that point of teardown |
| `Teardown.StaysQuiet` | src/it/unimib/data/nanofaas/ray_dispatcher/backends/ssh_ray.py:515-585 | once quiet while draining, always quiet, through every run, even if teardown raises and is called again |
| `Teardown.DrainReturns` | src/it/unimib/data/nanofaas/ray_dispatcher/backends/ssh_ray.py:515-585 | a drain that finds workers, leases and quarantine all clear returns, and teardown then gives up sweeper, actor and ownership |
| `Teardown.DrainGoesOn` | src/it/unimib/data/nanofaas/ray_dispatcher/backends/ssh_ray.py:526-545 | a drain that finds any of them begins another round |
| `Teardown.WorkersMove` | src/it/unimib/data/nanofaas/ray_dispatcher/backends/ssh_ray.py:129-153 | each event moves the worker it names, and no other |
| `Teardown.PoolIsRun` | src/it/unimib/data/nanofaas/ray_dispatcher/backends/ssh_ray.py:515-585 | in every run of the system the pool goes through the calls that were made |
| `Publishing.RemoteDirectory.Replace` | src/it/unimib/data/nanofaas/ray_dispatcher/provisioning.py:244-253 | the script up to any stop: the three names afterwards |
| `Publishing.ScriptKeepsSafe` | src/it/unimib/data/nanofaas/ray_dispatcher/provisioning.py:320-331 | one run, stopped anywhere, keeps the names safe |
| `Publishing.CrashSafe` | src/it/unimib/data/nanofaas/ray_dispatcher/provisioning.py:244-253 | after any number of stopped runs the target is absent or whole, a partial old copy implies a whole target, and the version put in place last is in target or old |
| `Publishing.MovesFindRoom` | src/it/unimib/data/nanofaas/ray_dispatcher/provisioning.py:244-253 | every mv has an absent destination |
| `Publishing.RerunPublishes` | src/it/unimib/data/nanofaas/ray_dispatcher/provisioning.py:317-331 | an uninterrupted rerun ends with the new version alone |
| `Publishing.NeverPartial` | src/it/unimib/data/nanofaas/ray_dispatcher/provisioning.py:317-331 | from nothing, the target only ever holds the version put in place last |
| `Outputs.Accepts` | src/it/unimib/data/nanofaas/ray_dispatcher/models.py:218-222 | the overlap check accepts exactly the prefix-free destinations |
| `Outputs.PullError` | src/it/unimib/data/nanofaas/ray_dispatcher/results.py:133-142 | a failed pull counts as a missing output only for rsync codes 23 and 24 and an absent remote path; otherwise its own exception is raised, or that of the probe |
| `Outputs.CollectOutputs` | src/it/unimib/data/nanofaas/ray_dispatcher/results.py:112-148 | partitions the outputs in order into present, missing required and missing optional, and raises the first pull error |
| `Outputs.ListsExact` | src/it/unimib/data/nanofaas/ray_dispatcher/results.py:143-148 | each output is listed once, in the order of declaration: those that are there as present, absent required ones as missing required, absent optional ones as missing optional |
| `Outputs.ThereHasCause` | src/it/unimib/data/nanofaas/ray_dispatcher/results.py:129-132 | a path under staging exists exactly when it is staging, lies above an output's destination, or was created by a pull |
| `Outputs.PresentIffPulled` | src/it/unimib/data/nanofaas/ray_dispatcher/results.py:143-144 | for an accepted job an output is present exactly when its own pull created it, or its destination is the staging directory itself |
| `Outputs.GenuineExact` | src/it/unimib/data/nanofaas/ray_dispatcher/results.py:143-144 | presence is genuine for all pulls if and only if no destination is the staging directory itself |
| `Outputs.RootOutputAlwaysPresent` | src/it/unimib/data/nanofaas/ray_dispatcher/models.py:218-222 | the destination `.` alone is accepted, and marked present although nothing was pulled |
| `Outputs.MissingListed` | src/it/unimib/data/nanofaas/ray_dispatcher/results.py:145-146 | a required output that is not there is listed as missing |
| `Outputs.SucceededHasRequired` | src/it/unimib/data/nanofaas/ray_dispatcher/scheduling.py:487-508 | an attempt that succeeded publishes every required output, each created by its own pull |
| `Batches.NoneTwiceIsDistinct` | src/it/unimib/data/nanofaas/ray_dispatcher/dispatcher.py:94-97 | counting ids finds duplicates exactly when two jobs share an id |
| `Batches.Dispatcher.Submit` | src/it/unimib/data/nanofaas/ray_dispatcher/dispatcher.py:93-122 | the rejections in their order; setup counts as done exactly if it was before, or the batch was well formed and setup did not fail; else the handles created, all outstanding; a failure requests cancellation of every handle created before it, once each |
| `Batches.Dispatcher.RejectionExact` | src/it/unimib/data/nanofaas/ray_dispatcher/dispatcher.py:93-108 | which batches are turned away, and with which problem, in terms of the ids, the batch id, the setup and the directories there are |
| `Batches.LoadedMeans` | src/it/unimib/data/nanofaas/ray_dispatcher/dispatcher.py:109-122 | the jobs were submitted in order, each under its own id and the batch id, up to the first call that was refused |
| `Batches.Dispatcher.SubmitAll` | src/it/unimib/data/nanofaas/ray_dispatcher/dispatcher.py:109-122 | jobs are submitted in order up to the first refusal |
| `Batches.Dispatcher.AsCompleted` | src/it/unimib/data/nanofaas/ray_dispatcher/dispatcher.py:133-144 | terminates for every status oracle that settles; each handle is resolved exactly once; it raises only what a polling call raised |
| `Batches.Dispatcher.Round` | src/it/unimib/data/nanofaas/ray_dispatcher/dispatcher.py:136-142 | one pass resolves the finished handles and keeps the others |
| `Batches.Dispatcher.InOrder` | src/it/unimib/data/nanofaas/ray_dispatcher/dispatcher.py:149-151 | the result under each id is the one its own handle gave |
| `Batches.Dispatcher.Run` | src/it/unimib/data/nanofaas/ray_dispatcher/dispatcher.py:146-154 | one result per job in input order, each given for its handle; BatchFailedError exactly when asked for and some job did not succeed |
| `Batches.Found` | src/it/unimib/data/nanofaas/ray_dispatcher/dispatcher.py:149-151 | no result of another handle can be found under a job's id |

## Left out

- Physical processes: confirmed gone means that the last probe of the recorded group failed, as in
  the code; whether a probe can be wrong is not modelled.
- Interrupts outside the runner's wait loop, for example inside the cleanup or between `acquire` and
  `try`: the code promises nothing there.
- Jobs.RunJob: uses an ideal lease handle; RPC timeouts that `_ActorLeaseHandle` swallows and its
  heartbeat thread are not modelled, and a lost lease enters as a raised check.
- Sweeper.SweepOnce: assumes one sweep in flight; the sweeper thread and the drain sweeping at once
  are not modelled, nor is the time limit on single actor calls beyond their being refused.
- Updates in place of the lease service, the loss race and the drain: these are modelled on values,
  one step at a time, because what matters is their interleaving; their classes' updates in place
  are captured only for the pool, in `LeasePools`.
- Liveness of readmission: a host quarantined with no recorded pid path is deliberately never
  reconciled.
- Teardown.DrainIsStable: one client thread, actor calls of workers are atomic, and the return of
  the drain without a lease actor, which has no lease to wait for, is not modelled.
- SessionLoss.LossMissesNoTask: `ray.cancel` is taken not to raise; the draining flag checked by
  submit is in `Teardown`.
- LossCallbacks.CalledExactlyOnce: one registration; registering again after a failure calls again.
- SessionLocks.OwnerFile.Operate: crashes of the script between creating and renaming its temporary
  file leave the owner file as it was and are not modelled; ids that are not strings count as
  nobody's.
- Publishing.RemoteDirectory.Replace: a removal is the only command that can leave a half-done
  result; the `mkdir -p` of the environments' parent, manifests, digests and the smoke check are not
  modelled.
- Outputs.CollectOutputs: symbolic links in staging and the containment check of destinations are
  not modelled; a pull creates paths below its own destination only.
- Batches.Dispatcher.Run: errors of `mkdir` other than an existing directory, and teardown of the
  dispatcher, are not modelled; results carry only id and status.
- Log file paths in results, the runner manifest, remote layout strings, secrets, YAML loading,
  inventory and job field checks, uv and Python installation, and the remote runner itself: strings
  and single checks that no property here depends on.
- Digests of sources and environments: their field encodings are ambiguous in general and SHA-256 is
  opaque.
- Ray, Fabric, paramiko, rsync and subprocess internals: they appear as the answers of the calls
  made to them.
