# Palisade: a verified model of the lease-based lock family

Palisade grants locks as leases with fencing tokens. This project models its
protocols as timed state machines and proves what they promise over every run.

* **Redlock** (`Redlock`, `RedlockRounds`, `RedlockRing`, `RedlockAnomalies`):
  clients interleave node by node over a ring of independent stores under one
  clock. `Redlock` is the protocol and its theorems; `RedlockRing` holds the
  client calls over mutable nodes, each shown to take only protocol steps, with
  other clients acting between any two node visits, and `RedlockRounds` says what
  such a call sees; `RedlockAnomalies` gives the runs that fall outside the
  theorems' hypotheses.
* **Simulator and checker** (`Simulator`, `SimulatorProofs`, `SimulatorTurns`,
  `SimulatorRun`, `Checker`, `Timeline`, `Realtime`): the seeded scheduler as a
  loop over mutable state equal to a function of the scenario, the checker's loop
  against a declarative specification, and the exactness of its verdict on every
  simulated history. `SimulatorTurns` tells each move of the scheduler again as
  rules and shows that they allow exactly the simulated history.
* **Atomic scripts** (`Mutex`, `MutexRefinement`, `FairQueue`, `Semaphore`,
  `ReadWrite`): each Lua script is one step on a store class, equal to a step
  function; invariants and refinements are proved over all runs of those steps.
* **Smaller structures** (`BlackBox`, `QuotaRegistry`, `KeyStore`, `MultiLock`,
  `MultiLockProgress`, `Sessions`): the hash-chained recorder, the two-lock quota
  registry, several keys at once, and the session sweep.

Time is a natural number of milliseconds; a lease is live while `now < expiry`.
A token stands for one generated owner id; fresh tokens are parameters. What a
call cannot control (other clients' steps, lost requests, delays) is an
environment parameter quantified over by the theorems.

## Where the code differs from its documentation

* A manual renewal with another TTL than the acquisition's can break Redlock
  exclusion; `RedlockAnomalies.ExclusiveIffOneTtl` gives the exact condition,
  `ttl2 == ttl`, which a caller of `extend` can check. The open claim need not
  have the newest fence: the clock is not read again after the fence is
  allocated (`RedlockAnomalies.LateFenceOvertakes`), and a timed-out acquire
  command can still execute (`RedlockAnomalies.DelayedAcquireReopens`). It has
  it in all runs exactly when neither happens
  (`RedlockAnomalies.NewestIffPunctual`).
* The semaphore's key expiry is set by whichever permit was touched last. The
  capacity holds exactly when all callers use one TTL or there is one permit
  (`Semaphore.CapacityIffOneTtl`); for a single operation, when it does not cut
  below another live permit (`Semaphore.SafeIffNoCut`).
* The mutex's fence counter can expire while the lock is free, and fences then
  start again at 1 (`Mutex.LapseRestartsFences`). They increase exactly in runs
  where no acquire comes ten TTLs or more after the last successful acquire or
  extend (`Mutex.FencesIncreaseIffPrompt`).
* A black box of capacity 0 never evicts, because the length is compared before
  the push; the oldest frame's body and a lone frame's chain value are not
  protected (`BlackBox.BodyEditIsCaught`, `BlackBox.ChainEditIsCaught`); fields
  are told apart by zero bytes, so only records without any are told apart for
  certain (`BlackBox.TextDeterminesRecord`, `BlackBox.ZeroByteIsAmbiguous`); the
  newest frame can be rewritten together with its chain value
  (`BlackBox.ForgeryPassesIff` says exactly which forgeries pass).
* The read-write extend script lets any token refresh the readers' lease,
  although its header says any live reader (`ReadWrite.StrangersExtendReaders`),
  and a shorter TTL cuts other holders' leases. Grants last their TTL in all runs
  exactly when no shorter one is used (`ReadWrite.GrantsLastIffNotShorter`).
* Closing a session reports how many release calls were answered, not how many
  locks were freed (`Sessions.CountExceedsFreed`, `Sessions.LapseDuringClose`).
  On a store that answers, the two agree exactly when every bound pair is owned
  as its own release runs (`Sessions.CountIsExactUnderOthers`); if nobody else
  acts and no time passes meanwhile, when every bound key is held through the
  session and bound once (`Sessions.CountIsExact`).
* A heartbeat accepted between the sweep's snapshot and the session's turn does
  not save it (`Sessions.SessionBook.LateHeartbeat`). A session nobody closes
  survives a sweep exactly when it was not expired at the snapshot
  (`Sessions.SessionBook.SweepOnce`).
* `crates/redis/src/fair.rs:185-193` passes four arguments to a script that
  documents and reads five. The model covers both: with four, a lock whose
  holder's lease runs out while someone is queued goes to nobody until the queue
  key expires (`FairQueue.StuckIsReached`, `FairQueue.StuckUntilQueueExpires`),
  and there is no other way to get there (`FairQueue.StuckExactlyByLapse`).
  The theorems on order and fences are about the script as documented.

## Model

| member | source | states |
|---|---|---|
| `Redlock.MutualExclusion` | crates/redis/src/redlock.rs:125-176 | over every run of the protocol on any ring in which no renewal used another TTL, two open quorum claims belong to the same token: node-by-node rounds, timeouts, late commands, rollbacks, renewals, releases and clock ticks interleave freely |
| `Redlock.AlwaysInv` | crates/redis/src/redlock.rs:125-176 | in every world reached without a renewal at another TTL, each claim's support is a majority of nodes that still carry its lease to the end of its window, and each round in flight is backed by the nodes it counted |
| `Redlock.StepKeepsInv` | crates/redis/src/redlock.rs:134-173 | every protocol step, but a renewal started at another TTL, keeps that invariant |
| `Redlock.OpenClaimsCoincide` | crates/redis/src/redlock.rs:115-115 | the quorum of redlock.rs makes any two open windows share a node, hence a token |
| `Redlock.ReachableExcludes` | crates/redis/src/redlock.rs:159-166 | being reachable is a property kept by every step, and it carries exclusion: the bridge to the client calls below |
| `Redlock.BackedSurvives` | crates/redis/src/redlock.rs:296-320 | leases that back a claim survive any step that only the owner's own scripts could disturb |
| `Redlock.ActionIsGentle` | crates/redis/src/scripts/acquire.lua:14-27 | no step but the owner's own node release takes a live lease away or shortens it |
| `Redlock.EndRenewalKeepsPhase` | crates/redis/src/redlock.rs:312-320 | a renewal round with a quorum of answers moves the window to its own start plus TTL without losing the backing |
| `Redlock.FencesStrictlyIncrease` | crates/redis/src/redlock.rs:207-215 | whatever the TTLs, fences increase in allocation order |
| `Redlock.InTimeGrantsFollowClosedClaims` | crates/redis/src/redlock.rs:159-166 | when a fence is allocated before round start plus TTL, every earlier claim has been released or its window has closed, and its fence is smaller: fences increase in the order of the windows |
| `Redlock.OpenClaimHasNewestFence` | crates/redis/src/redlock.rs:159-166 | in runs under one TTL where no acquire command executes late, an open claim has the newest fence among all those allocated in time; NewestIffPunctual shows that neither the late commands nor the late fences can be admitted |
| `Redlock.AlwaysSuperseded` | crates/redis/src/redlock.rs:134-157 | once a later grant was allocated in time, its nodes never answer an earlier grant's token again |
| `RedlockAnomalies.ExclusiveIffOneTtl` | crates/redis/src/redlock.rs:454-479 | on a non-empty ring of any size, exclusion survives every run with acquisitions at ttl and renewals at ttl or ttl2 if and only if ttl2 == ttl |
| `RedlockAnomalies.OtherTtlDoubleClaims` | crates/redis/src/redlock.rs:296-320 | a renewal at any other TTL leads to a reachable world with two open claims |
| `RedlockAnomalies.LateFenceOvertakes` | crates/redis/src/redlock.rs:162-166 | a run in which a client stalls between the elapsed-time check and the allocation, and gets a fence newer than the open claim's for a window already closed |
| `RedlockAnomalies.DelayedAcquireReopens` | crates/redis/src/redlock.rs:138-156 | for every ring and TTL, a run with both fences allocated in time in which timed-out acquire commands execute late and let the older fence's claim reopen after the newer one was released |
| `RedlockAnomalies.NewestIffPunctual` | crates/redis/src/redlock.rs:138-166 | for every ring and TTL, over the runs under one TTL with or without fences allocated after the window and acquire commands that execute late: every open claim has the newest fence in all of them iff neither is admitted |
| `RedlockAnomalies.TwoClaims` | crates/redis/src/redlock.rs:125-176 | for every ring and TTL, two successive claims in time, the second on every node |
| `RedlockRing.Ring.constructor` | crates/redis/src/redlock.rs:95-121 | a fresh ring has no lease and an allocator at zero |
| `RedlockRing.Ring.AcquireScript` | crates/redis/src/scripts/acquire.lua:14-27 | one node's lock key after the script, and when it answers 1 or 2 |
| `RedlockRing.Ring.ExtendScript` | crates/redis/src/scripts/extend.lua:10-15 | exactly the owner's live lease moves to now plus TTL, and only then the answer is 1 |
| `RedlockRing.Ring.ReleaseScript` | crates/redis/src/scripts/release.lua:1-12 | exactly the owner's live lease goes, and only then the answer is 1 |
| `RedlockRing.Ring.TryLock` | crates/redis/src/redlock.rs:125-176 | with others acting between any two node visits, the round only takes protocol steps (it keeps every property they keep), and its answer is exact: InvalidConfig below 10 ms, Backend if a node fails; otherwise Ok only if more than half the nodes granted when visited and said so and more than a tenth of the TTL was left when judged, Held only if no more than half did or at most a tenth was left, and Backend if the allocator's answer is lost. The worlds of the visits and of the judgement are determined by the world at the call and the environment; undisturbed but for d ms before the judgement, it is Ok iff more than half the nodes are free and 10 d < 9 TTL, and else Held. Ok is a claim by those nodes with window start plus TTL and the newest fence; a refusal with all answers delivered leaves no node owned by the token |
| `RedlockRing.DelayedJudgement` | crates/redis/src/redlock.rs:159-167 | undisturbed but for a delay d before its judgement, the round is granted iff more than half the nodes are free and d is below nine tenths of the TTL, and else refused |
| `RedlockRing.JudgedByWhatIsLeft` | crates/redis/src/redlock.rs:159-175 | in any round, granted means a majority of grants and more than a tenth of the TTL left, refused means one of them is missing |
| `RedlockRounds.DelayedWalk` | crates/redis/src/redlock.rs:134-157 | a delay after the last visit does not change which nodes granted |
| `RedlockRounds.OthersAreUnhindered` | crates/redis/src/redlock.rs:134-136 | whatever step another client can take at some point of the round, it takes |
| `RedlockRounds.LateCommandsRun` | crates/redis/src/redlock.rs:138-156 | a timed-out acquire or extend command that runs late takes or renews the lease like any other |
| `RedlockRounds.TrailIsUnique` | crates/redis/src/redlock.rs:134-157 | the worlds a round sees are determined by its start and the environment |
| `RedlockRounds.QuietTrail` | crates/redis/src/redlock.rs:134-157 | undisturbed, each node is found as it was when the round began, at the same time |
| `RedlockRounds.QuietWalk` | crates/redis/src/redlock.rs:134-157 | undisturbed, the nodes that grant are those free at the start |
| `RedlockRounds.QuietRenewal` | crates/redis/src/redlock.rs:300-317 | undisturbed, the nodes that renew are those owned at the start |
| `RedlockRounds.QuietRelease` | crates/redis/src/redlock.rs:355-365 | undisturbed, a release meets its own lease iff some node was owned at the start |
| `RedlockRing.Ring.Finish` | crates/redis/src/redlock.rs:159-175 | the judgement on a completed walk, and the claim or rollback that follows |
| `RedlockRing.Ring.Walk` | crates/redis/src/redlock.rs:133-157 | it completes iff no node fails, and then the nodes collected are exactly those that granted when visited and said so, each once, in the worlds this walk sees; with every answer delivered all nodes carrying the token are among them |
| `RedlockRounds.MoreGrants` | crates/redis/src/redlock.rs:151-156 | one more node visited: who has granted so far |
| `RedlockRing.Ring.VisitNode` | crates/redis/src/redlock.rs:134-156 | one node: its lease afterwards and whether it is collected, when granted and heard, granted and unheard, refused, or never reached |
| `RedlockRing.Ring.Judge` | crates/redis/src/redlock.rs:159-162 | passes iff more than half the nodes answered and more than a tenth of the TTL is left |
| `RedlockRing.Ring.AllocateFence` | crates/redis/src/redlock.rs:207-215 | the allocator moves by one; heard, the fence and the claim are recorded, otherwise the acquisition is gone |
| `RedlockRing.Ring.RollBack` | crates/redis/src/redlock.rs:168-171 | every node whose release request gets through is left not owned by the token; with every answer delivered, no node is |
| `RedlockRing.Ring.ReleaseClaim` | crates/redis/src/redlock.rs:352-377 | the claim ends before the first node is visited; Ok iff some node was the token's when visited and said so, else Lost iff some node said it was not, else Backend, in the worlds this loop sees, which also give the world it leaves; undisturbed, Ok iff some node was owned; a second call does nothing; with every answer delivered no node is left owned by the token |
| `RedlockRing.Ring.FireExtend` | crates/redis/src/redlock.rs:296-325 | true iff a quorum of nodes were the token's when visited and said so, in the worlds this round sees, and then the window ends no earlier than round start plus TTL; else false iff some node said it was not, else Backend; undisturbed, the nodes renewed are those owned at the call |
| `RedlockRing.Ring.Extend` | crates/redis/src/redlock.rs:454-479 | the same answers as Ok, Lost and Backend; Ok only with more than half the nodes, and then the window ends at the later of its old end and round start plus TTL under the same fence; undisturbed, Ok iff more than half are owned; Lost from a round poisons the handle; a gone handle is Lost and a low TTL InvalidConfig, without a round; any error leaves the claim as it was |
| `RedlockRounds.MoreOwners` | crates/redis/src/redlock.rs:312-316 | one more node visited: who has answered as the owner so far |
| `RedlockRing.Ring.OthersAct` | crates/redis/src/redlock.rs:134-136 | other clients' steps, in turn, give exactly the world the model says, and cannot touch this token's client record, renewal rounds or leases |
| `Simulator.Rng.NextU64` | crates/testing/src/sim.rs:85-92 | the xorshift step on 64-bit words |
| `Simulator.Rng.DrawBelow` | crates/testing/src/sim.rs:94-96 | below(n): the next number modulo n, and nothing drawn when n is 0 |
| `Simulator.Rng.Pct` | crates/testing/src/sim.rs:98-100 | a percentage draw, using exactly one number |
| `Simulator.SimStore.Grant` | crates/testing/src/sim.rs:123-136 | CAS grant: refused over a live lease unless the bug flag is set; otherwise a new lease with the next fence |
| `Simulator.SimStore.Release` | crates/testing/src/sim.rs:140-148 | true iff the live entry is the worker's under that fence, and then the entry goes; nothing else changes |
| `Simulator.SimStore.Write` | crates/testing/src/sim.rs:158-171 | accepted iff the live entry is the worker's under that fence and the fence exceeds the last accepted one, which it becomes; with the bug flag everything is accepted and nothing recorded |
| `Simulator.TurnIsClassified` | crates/testing/src/sim.rs:228-336 | a turn is a grant, a quiet step, a freeze or a write with its release; the re-sleep branch of a holding worker is unreachable |
| `Simulator.AlwaysInv` | crates/testing/src/sim.rs:222-337 | timing, lease-end and fence invariants in every iteration of every run |
| `Simulator.PickIsEarliest` | crates/testing/src/sim.rs:222-226 | the worker picked wakes no later than any other, and time moves exactly to its wake time |
| `SimulatorProofs.Terminates` | crates/testing/src/sim.rs:222-340 | for every scenario the loop is over after workers * (3 * steps + 1) iterations, with at most 3 * workers * steps events |
| `SimulatorProofs.WorkRunsOut` | crates/testing/src/sim.rs:222-337 | the step-budget measure: every iteration with a worker left uses up one unit of it |
| `SimulatorProofs.TimeFollowsWakes` | crates/testing/src/sim.rs:226-226 | time never passes an unfinished worker's wake time and always moves to the picked worker's; a holding worker that runs stops holding |
| `SimulatorProofs.SortChangesNothing` | crates/testing/src/sim.rs:338-338 | the final stable sort is the identity |
| `SimulatorProofs.HistoryBalances` | crates/testing/src/sim.rs:274-334 | the k-th grant carries fence k; grants, writes and releases are equally many; and with fencing intact so are accepted writes and successful releases |
| `SimulatorProofs.AlwaysAccounted` | crates/testing/src/sim.rs:274-334 | the same balance in every iteration, with the workers now holding |
| `SimulatorProofs.LiveWriteIsAccepted` | crates/testing/src/sim.rs:158-171 | at every turn of every run, a live holder's write is accepted |
| `SimulatorProofs.PausedReleaseIsLost` | crates/testing/src/sim.rs:329-330 | a worker back from a pause never releases anything, under every flag: the debug assertion holds |
| `SimulatorProofs.VerdictIsExact` | crates/testing/src/sim.rs:193-340 | for every scenario, the checker's specification rejects the history iff some iteration granted over a live lease or accepted a write from a worker without one |
| `SimulatorProofs.VerdictSoFar` | crates/testing/src/sim.rs:222-337 | the same after any number of iterations, with the checker knowing exactly the store's live lease until then |
| `SimulatorProofs.TurnIsJudged` | crates/testing/src/sim.rs:228-336 | one turn: an unsafe one makes the checker fail, a safe one keeps the two views of the lease equal |
| `SimulatorProofs.CleanRunsPass` | crates/testing/src/sim.rs:64-74 | with both bug flags off every history is legal |
| `SimulatorRun.Run` | crates/testing/src/sim.rs:193-340 | the event loop over mutable store, generator and buffers returns exactly the simulated history, within the iteration bound: the record of the scenario's one run under the rules of SimulatorTurns, from idle workers at time zero until all have stopped |
| `SimulatorTurns.HistoryIsUnique` | crates/testing/src/sim.rs:193-340 | rules that tell each move by its draws, events and resulting world, without the step function, allow exactly one history per scenario, and it is the simulated one |
| `SimulatorTurns.EveryIterationMoves` | crates/testing/src/sim.rs:222-336 | every iteration of every run is a move of the worker that wakes first, lowest index among equals, and moves nobody else |
| `SimulatorTurns.IdleDecision` | crates/testing/src/sim.rs:228-267 | in every iteration in which an idle worker with steps left is due: a Grant is recorded iff its draw is below 70 and no live lease bars it or the store is broken, a Deny iff the draw is below 70 and one does, nothing otherwise; a granted worker is to pause iff its next draw is below the pause percentage |
| `SimulatorTurns.IdleTurnMoves` | crates/testing/src/sim.rs:228-267 | an idle worker's turn in full: the lease, fence, hold time, wake time and generator it leaves |
| `SimulatorTurns.HoldingTurnMoves` | crates/testing/src/sim.rs:268-314 | a holder that is to pause freezes until ten past the end of its lease; any other writes and releases, both succeeding iff its own lease is live, or the write by the bug flag |
| `SimulatorTurns.PausedTurnMoves` | crates/testing/src/sim.rs:315-334 | back from a pause the write is rejected, unless the bug flag is set, the release is lost and the store stays as it was |
| `SimulatorTurns.MovesOneWay` | crates/testing/src/sim.rs:5-9 | a move is determined by the world it is made in, so a seed determines its history |
| `SimulatorTurns.KnownDraw` | crates/testing/src/sim.rs:85-92 | the generator's successor of 1 |
| `SimulatorTurns.OnlyZeroDrawsZero` | crates/testing/src/sim.rs:85-92 | the generator reaches zero from zero only |
| `SimulatorTurns.OneSeedIsStuck` | crates/testing/src/sim.rs:81-83 | exactly one seed starts it there, and then every draw is zero |
| `SimulatorRun.RunAndCheck` | crates/testing/src/checker.rs:29-122 | running the loop and checking what it returns gives an error iff some iteration was unsafe, and Ok whenever both bug flags are off |
| `SimulatorRun.RunTurn` | crates/testing/src/sim.rs:226-336 | one worker's turn on the mutable state |
| `SimulatorRun.RunHolding` | crates/testing/src/sim.rs:268-314 | freeze, write and release, or sleep again |
| `SimulatorRun.RunPaused` | crates/testing/src/sim.rs:315-334 | the write and release after a pause, with the source's assertion proved |
| `SimulatorRun.PickNext` | crates/testing/src/sim.rs:222-225 | the first unfinished worker with the earliest wake time |
| `Checker.Check` | crates/testing/src/checker.rs:29-122 | Ok iff the history satisfies the declarative specification; an error names the earliest illegal event and a reason true of it |
| `Checker.FoldExact` | crates/testing/src/checker.rs:34-121 | soundness and completeness of the loop as a fold |
| `Checker.FoldMatches` | crates/testing/src/checker.rs:34-121 | after n events the active list is the one live hold and the last fence the largest accepted one, or the first illegal event was found |
| `Checker.EventMatches` | crates/testing/src/checker.rs:45-119 | one event is accepted iff it is legal given the events before it |
| `Checker.LiveAtWhenSorted` | crates/testing/src/checker.rs:4-5 | on sorted histories a hold is live from its grant until its TTL or its worker's ReleaseOk |
| `Checker.FoldErrorSticks` | crates/testing/src/checker.rs:34-121 | the first violation ends the check |
| `Checker.SeesEvent` | crates/testing/src/checker.rs:36-119 | what a checker with at most one live hold makes of any next event |
| `Checker.RetainLive` | crates/testing/src/checker.rs:36-43 | the expiry pass over the active list |
| `Checker.FindWorker` | crates/testing/src/checker.rs:69-69 | position of the worker's first hold |
| `Timeline.SortIsStable` | crates/testing/src/sim.rs:338-338 | the sort is a time-ordered permutation that keeps simultaneous events in order |
| `Timeline.SortKeepsSorted` | crates/testing/src/sim.rs:338-338 | a sorted history is left alone |
| `Realtime.CheckClientHistory` | crates/testing/src/realtime.rs:18-42 | on the recorded entries themselves: Ok iff every successful acquisition of the key carries a fence and completes when no earlier one holds it (less than a TTL old, its fence not released), every successful release finds its own fence held, and every failed one does not, completion being in whole milliseconds and then as recorded; an error gives the time of the first entry that fails this and a reason true of it |
| `Realtime.LegalIffEntriesLegal` | crates/testing/src/realtime.rs:23-41 | filter, conversion and stable sort lose nothing: the checker's specification on the events is that condition on the entries |
| `Realtime.AcquisitionsExcludeEachOther` | crates/testing/src/realtime.rs:3-7 | of two successful acquisitions that pass, the later completes at least a TTL after the earlier or after a successful release of its fence |
| `Realtime.SilentEntriesDoNotMatter` | crates/testing/src/realtime.rs:24-32 | a refused acquisition, an extension or an entry under another key, recorded anywhere, leaves the verdict as it was |
| `Realtime.ViolationIsFirst` | crates/testing/src/realtime.rs:40-41 | the violation reported is that of the first entry to complete illegally |
| `Realtime.SortedIndices` | crates/testing/src/realtime.rs:40-40 | the sort orders the entries by completion, ties as recorded, each once |
| `Realtime.GrantsExcludeEachOther` | crates/testing/src/realtime.rs:3-7 | grants of a legal history exclude each other |
| `Realtime.CompletionOrderIsKept` | crates/testing/src/realtime.rs:15-17 | entries in completion order are checked in that order |
| `Mutex.LockStore.Acquire` | crates/redis/src/scripts/acquire.lua:14-27 | status 0 iff another token's lock is live, and then nothing changes; else 1 or 2 for a new or own lock, leased until now plus TTL, with the fence one above a live counter and 1 without |
| `Mutex.LockStore.Extend` | crates/redis/src/scripts/extend.lua:10-15 | 1 iff the token owned the lock; lock and live counter refreshed together, only for the owner, everything else as it was |
| `Mutex.LockStore.Release` | crates/redis/src/scripts/release.lua:1-12 | only the owner's release deletes the lock |
| `Mutex.LockStore.TryLockWith` | crates/redis/src/single.rs:104-161 | InvalidConfig below 10 ms, Backend iff the call fails, Held iff another token's lock is live; else a handle whose lock is leased until now plus TTL, with the next fence and the counter until now plus ten TTLs |
| `Mutex.LockStore.ExtendWithToken` | crates/redis/src/single.rs:347-368 | InvalidConfig below 10 ms; answered, Ok(true) iff the token owned the lock, which is then leased until now plus TTL with a live counter until now plus ten TTLs, and Ok(false) leaves the store as it was; else the store's failure |
| `Mutex.LockStore.UnlockWithToken` | crates/redis/src/single.rs:332-343 | answered, true iff the token owned the lock, which is then gone; else nothing changes; or the store's failure |
| `Mutex.CounterOutlivesLock` | crates/redis/src/single.rs:30-32 | in every reachable state a live lock implies a live counter that expires no earlier and has reached the holder's fence |
| `Mutex.FencesIncreaseIffNoLapse` | crates/redis/src/scripts/acquire.lua:6-7 | fences strictly increase over a run iff no later grant found the counter gone |
| `Mutex.LapseIffOverdue` | crates/redis/src/single.rs:30-32 | a step makes a grant find the counter gone iff it is an acquire at least ten TTLs after the last successful acquire or extend; the lock then ran out one TTL after it, if it was not released |
| `Mutex.FencesIncreaseIffPrompt` | crates/redis/src/single.rs:30-32 | fences strictly increase over a run iff no acquire in it comes ten TTLs or more after the last refresh |
| `Mutex.NoLapseIffPrompt` | crates/redis/src/single.rs:30-32 | the same for the counter never lapsing |
| `Mutex.RefreshIsKnown` | crates/redis/src/scripts/extend.lua:10-13 | in every reachable state the counter expires exactly ten TTLs, and a held lock one TTL, after the last refresh |
| `Mutex.LapseRestartsFences` | crates/redis/src/scripts/acquire.lua:14-17 | for every TTL a run in which the second holder, ten TTLs after the first, gets fence 1 again |
| `MutexRefinement.MutexRefinesSimStore` | crates/testing/src/sim.rs:110-148 | every run of acquires with fresh tokens, releases and ticks in which the counter never lapses is matched by the simulator's store, and its history satisfies the checker's specification |
| `MutexRefinement.StepRefines` | crates/testing/src/sim.rs:123-148 | one script call is one step of the simulator's store with the same answer |
| `MutexRefinement.AnswersAgree` | crates/testing/src/sim.rs:123-148 | the answers agree at every step of such a run |
| `FairQueue.FairStore.Acquire` | crates/redis/src/scripts/fair_acquire.lua:11-42 | the whole script, also told without the step function: 2 for the holder, who is renewed; 0 behind another holder, queued; on a free lock 1 iff no live waiter is queued or the caller is the oldest of them, who then leaves the queue, and else 0, queued behind the live ones |
| `FairQueue.FairStore.Release` | crates/redis/src/scripts/fair_release.lua:7-21 | true iff the token owned the lock; then the oldest live waiter, if any, holds it and those newer stay queued; else nothing changes |
| `FairQueue.FairStore.Poll` | crates/redis/src/fair.rs:169-216 | one attempt, with or without the script's fifth argument: TTL floor, script call, and grant, Held (queued with a live heartbeat) or failure, each exactly when |
| `FairQueue.FairStore.PollUntil` | crates/redis/src/fair.rs:226-240 | the loop ends at the first poll not merely turned away in time, with that poll's answer; each store polled follows from the one before by the poll, the interval and what others did |
| `FairQueue.FairStore.TryLockFairFor` | crates/redis/src/fair.rs:220-241 | polling under one identity: every poll before the last was turned away in time, and the last one's answer decides: a handle that owns the lock for a full TTL with the newest fence, a Timeout after the deadline, still queued with a live heartbeat, or the failure |
| `FairQueue.StuckUntilQueueExpires` | crates/redis/src/fair.rs:185-193 | with the four arguments passed, once the lock is free and someone is queued nobody gets it and only time passes, whatever anyone calls, until the queue key expires |
| `FairQueue.StuckIsReached` | crates/redis/src/fair.rs:185-193 | for every TTL such a state is reached when a holder's lease runs out with a waiter queued, where the script as documented would grant the waiter |
| `FairQueue.StuckExactlyByLapse` | crates/redis/src/fair.rs:185-193 | with positive TTLs, the step into such a state is exactly the clock passing a live holder's expiry while someone is queued and the queue key lives on |
| `FairQueue.FairStore.ReleaseHandle` | crates/redis/src/fair.rs:94-118 | a first call that is answered is Ok iff the token owned the lock and else Lost with the store as it was; after Ok the oldest live waiter, if any, holds the lock for 30 s and the releaser does not; a second call answers Ok and does nothing |
| `FairQueue.AcquireIsAnswered` | crates/redis/src/scripts/fair_acquire.lua:11-42 | the acquire script's status, fence and store, told by the holder, the queue and the heartbeats |
| `FairQueue.ReleaseIsAnswered` | crates/redis/src/scripts/fair_release.lua:7-21 | the release script's answer and store, told the same way |
| `FairQueue.PollIsAnswered` | crates/redis/src/fair.rs:169-216 | an answered poll is an acquire with a heartbeat of the TTL, two seconds at least; without the fifth argument it fails on a free lock with a queue and changes nothing |
| `FairQueue.KeepsOneWay` | crates/redis/src/scripts/fair_acquire.lua:19-25 | what is left of a queue is determined by the heartbeats |
| `FairQueue.ReleaserIsOut` | crates/redis/src/scripts/fair_release.lua:11-19 | after a release the releaser does not hold the lock |
| `FairQueue.AfterOpsIsARun` | crates/redis/src/fair.rs:226-240 | what others do between two polls is a run of the scripts |
| `FairQueue.DropDeadIsMaximal` | crates/redis/src/scripts/fair_acquire.lua:19-25 | acquire on a free lock discards exactly the maximal dead run on the oldest side |
| `FairQueue.HandoffIsOldestLive` | crates/redis/src/scripts/fair_release.lua:13-19 | release hands off to the oldest live waiter and leaves all newer ones in order; nobody iff no waiter is alive |
| `FairQueue.QueueIsSound` | crates/redis/src/scripts/fair_acquire.lua:27-42 | in every reachable state the queue has no duplicates and not the live holder, and fences returned strictly increase |
| `FairQueue.NoOvertaking` | crates/redis/src/scripts/fair_acquire.lua:16-35 | from any reachable state with a queued and b not ahead of it: while a's heartbeat and the queue key live and a has not had its turn, neither a direct grant nor a handoff gives b the lock |
| `FairQueue.ArrivalOrder` | crates/redis/src/scripts/fair_acquire.lua:37-42 | a waiter turned away is queued and alive, ahead of everyone not waiting yet |
| `Semaphore.SemaphoreStore.Acquire` | crates/redis/src/scripts/semaphore_acquire.lua:7-18 | expired permits go; below capacity the caller's is added, scored and with the key expiring at now plus TTL, under the next fence; at capacity nothing else changes and the status is 0 |
| `Semaphore.SemaphoreStore.Extend` | crates/redis/src/scripts/semaphore_extend.lua:8-13 | true iff the key lives and holds the permit, which is then scored, and the key expires, at now plus TTL; else nothing changes |
| `Semaphore.SemaphoreStore.Release` | crates/redis/src/scripts/semaphore_release.lua:1-11 | true iff the key lives and holds the permit, which then goes, and no other |
| `Semaphore.CapacityHolds` | crates/redis/src/scripts/semaphore_acquire.lua:10-16 | over every run that never sets the key to expire before another live permit: live permits are all in the set with their scores, at most max, and acquire succeeds iff fewer than max are live |
| `Semaphore.InvGivesCapacity` | crates/redis/src/scripts/semaphore_acquire.lua:12-12 | in every state with the invariant the unexpired members are the live permits |
| `Semaphore.FencesOnlyGrow` | crates/redis/src/scripts/semaphore_acquire.lua:15-15 | each permit's fence exceeds every fence before it |
| `Semaphore.SafeIffNoCut` | crates/redis/src/scripts/semaphore_acquire.lua:14-14 | from a state with the invariant, the capacity holds in every later run free of further cuts iff this operation does not set the key to expire before another live permit |
| `Semaphore.CapacityIffOneTtl` | crates/redis/src/scripts/semaphore_acquire.lua:10-16 | over all runs from an empty store whose acquires and extends use ttl or ttl2, at most max permits are ever live iff ttl == ttl2 or max <= 1 |
| `Semaphore.AgreedRunsNeverCut` | crates/redis/src/scripts/semaphore_acquire.lua:13-14 | such runs never cut when the TTLs agree or there is one permit |
| `Semaphore.MixedTtlsOverfill` | crates/redis/src/scripts/semaphore_acquire.lua:13-14 | otherwise a reachable run with more than max live permits: a longer permit, a shorter one, and max more once the key is gone |
| `Semaphore.CutBreaksCapacity` | crates/redis/src/scripts/semaphore_extend.lua:10-10 | after any such cut there is a cut-free continuation with more than max live permits |
| `ReadWrite.RwStore.ReadAcquire` | crates/redis/src/scripts/rw_read_acquire.lua:8-22 | granted iff free or read by others than the token: registered, counted, leased until now plus TTL, under the next fence; else 0 and no change |
| `ReadWrite.RwStore.ReadRelease` | crates/redis/src/scripts/rw_read_release.lua:7-27 | a registered reader is removed and the remaining ones are the answer, the lease moving to now plus TTL or the structure going with the last; else -1 and no change |
| `ReadWrite.RwStore.WriteAcquire` | crates/redis/src/scripts/rw_write_acquire.lua:6-18 | 1 if free, 2 for the writer itself, leased until now plus TTL under the next fence; else 0 and no change |
| `ReadWrite.RwStore.WriteRelease` | crates/redis/src/scripts/rw_write_release.lua:1-15 | 1 iff the token is the writer, and then the structure goes; else -1 and no change |
| `ReadWrite.RwStore.Extend` | crates/redis/src/scripts/rw_extend.lua:5-19 | 1 iff in read mode or the token is the writer, and then the lease ends at now plus TTL; else -1 and no change |
| `ReadWrite.StepRefines` | crates/redis/src/scripts/rw_read_release.lua:7-27 | each script is one step of an abstract set of readers or one writer, with the same answer, except that the lease may run out under it |
| `ReadWrite.OnlyTimeLapses` | crates/redis/src/scripts/rw_read_release.lua:26-26 | with positive TTLs only the clock makes it run out |
| `ReadWrite.FieldsAgree` | crates/redis/src/scripts/rw_read_acquire.lua:8-20 | in every reachable state the count is the number of reader fields and at least 1 in mode r; in mode w there is an owner and no reader field |
| `ReadWrite.ReadersBlockWriters` | crates/redis/src/scripts/rw_write_acquire.lua:6-18 | a registered reader blocks every writer until its own release or the expiry of the structure |
| `ReadWrite.GrantLastsItsTtl` | crates/redis/src/scripts/rw_read_acquire.lua:8-20 | where nobody uses a shorter TTL, a granted reader or writer keeps the lock until its own release or the end of its TTL, whoever else acquires, releases or extends |
| `ReadWrite.GrantsLastIffNotShorter` | crates/redis/src/scripts/rw_extend.lua:9-17 | grants at ttl last in all runs whose other TTLs are ttl or ttl2 iff ttl2 >= ttl |
| `ReadWrite.ShorterExtendEnds` | crates/redis/src/scripts/rw_extend.lua:9-12 | one extend at any shorter TTL, in read mode by a token that holds nothing, ends a grant early |
| `ReadWrite.StrangersExtendReaders` | crates/redis/src/scripts/rw_extend.lua:9-19 | a token that neither reads nor writes gets 1 and moves the lease iff the structure is in mode r |
| `ReadWrite.StaleReleaseChangesNothing` | crates/redis/src/scripts/rw_read_release.lua:15-17 | a reader whose slot is gone gets -1 and changes nothing |
| `ReadWrite.FencesOnlyGrow` | crates/redis/src/scripts/rw_read_acquire.lua:11-19 | each grant's fence exceeds every fence before it |
| `BlackBox.ComputeChain` | crates/core/src/blackbox.rs:32-47 | the mixing loops compute the hash of the packed frame body |
| `BlackBox.TimesPrimeSeparates` | crates/core/src/blackbox.rs:28-28 | multiplication by the odd prime is injective modulo 2^64 |
| `BlackBox.MixSeparatesStates` | crates/core/src/blackbox.rs:26-30 | mixing a byte never merges two states |
| `BlackBox.MixSeparatesBytes` | crates/core/src/blackbox.rs:26-30 | mixing two different bytes never gives one state |
| `BlackBox.MixAllSeparatesOneByte` | crates/core/src/blackbox.rs:33-46 | changing one byte of the text changes the hash |
| `BlackBox.ChainSeparatesPredecessors` | crates/core/src/blackbox.rs:33-33 | different predecessors give different chain values |
| `BlackBox.EditChangesChain` | crates/core/src/blackbox.rs:32-47 | changing one byte of key, op, ok or fence changes the chain value |
| `BlackBox.TextDeterminesRecord` | crates/core/src/blackbox.rs:32-47 | two records without zero bytes in key and op are hashed as the same text only if they are the same record |
| `BlackBox.ZeroByteIsAmbiguous` | crates/core/src/blackbox.rs:37-41 | with a zero byte in the key another record can share its text, and its chain value after any predecessor |
| `BlackBox.TerminatorSeparates` | crates/core/src/blackbox.rs:37-41 | a zero-terminated text is read back from what follows it |
| `BlackBox.FenceFromBytes` | crates/core/src/blackbox.rs:43-45 | the eight bytes hashed make up the fence, the most significant first |
| `BlackBox.KnownHash` | crates/core/src/blackbox.rs:26-33 | from the offset basis the mixing gives the published FNV-1a value |
| `BlackBox.Recorder.Record` | crates/core/src/blackbox.rs:82-99 | after any calls the buffer is what the capacity keeps of the tape of all of them |
| `BlackBox.Recorder.Dump` | crates/core/src/blackbox.rs:102-110 | the kept frames, oldest first |
| `BlackBox.Recorder.VerifyChain` | crates/core/src/blackbox.rs:116-129 | always Ok on an untouched buffer |
| `BlackBox.Verify` | crates/core/src/blackbox.rs:116-129 | on any buffer: Ok iff every frame commits to its predecessor, else the first frame that does not |
| `BlackBox.KeptIsLinked` | crates/core/src/blackbox.rs:78-99 | what is kept is linked, has consecutive sequence numbers and holds the newest min(n, cap) records; with cap 0 it is all of them |
| `BlackBox.BodyEditIsCaught` | crates/core/src/blackbox.rs:112-129 | after any records, one byte of a body changed is reported at that frame iff it is not the oldest kept |
| `BlackBox.ChainEditIsCaught` | crates/core/src/blackbox.rs:112-129 | a changed chain value is reported at that frame, at the second when it is the oldest, and not at all when it is the only one |
| `BlackBox.ForgeryPassesIff` | crates/core/src/blackbox.rs:112-129 | after any records, any frame put in place of one kept passes iff it commits to the frame before it and the frame after it, if any, still commits to it |
| `QuotaRegistry.AlwaysBalanced` | crates/server/src/registry.rs:26-61 | at every point of every run, counts[p] is the keys p owns plus p's releases in flight, less p's one registration not counted yet |
| `QuotaRegistry.StepKeepsBalance` | crates/server/src/registry.rs:26-61 | every lock-protected step keeps the balance, and only an admitted registration raises a principal's charge, by one and up to its ceiling |
| `QuotaRegistry.CountDownFindsItsKey` | crates/server/src/registry.rs:57-59 | a release's second step always finds a positive count: no missed lookup, no saturation |
| `QuotaRegistry.QuietCountsAreExact` | crates/server/src/registry.rs:4-7 | with nothing in flight the counts are the keys really owned |
| `QuotaRegistry.QuotaHolds` | crates/server/src/registry.rs:31-43 | a principal never owns more keys than the largest ceiling it was given |
| `QuotaRegistry.RefusalIsExact` | crates/server/src/registry.rs:28-43 | a refusal means the key is new and the principal is charged with at least its ceiling |
| `QuotaRegistry.HeldRegistry.TryAcquire` | crates/server/src/registry.rs:26-52 | the whole call, with other threads between check and count: what it answers, what it registers, and the ceilings hold throughout |
| `QuotaRegistry.HeldRegistry.Release` | crates/server/src/registry.rs:55-61 | the whole call, with any other steps between its two halves: the owner removed is the answer and the balance holds; the state after it is determined by what the others do between the halves |
| `QuotaRegistry.HeldRegistry.CheckAndInsert` | crates/server/src/registry.rs:27-44 | try_acquire as far as the insert |
| `QuotaRegistry.HeldRegistry.CountUpOwner` | crates/server/src/registry.rs:45-50 | the count, under the holders lock |
| `QuotaRegistry.HeldRegistry.TakeKey` | crates/server/src/registry.rs:56-56 | removal under the holders lock |
| `QuotaRegistry.HeldRegistry.CountDownOwner` | crates/server/src/registry.rs:57-60 | saturating count-down under the counts lock |
| `MultiLock.AdjacentDuplicate` | crates/redis/src/multi.rs:62-62 | comparing neighbours of the sorted keys finds a duplicate iff there is one; otherwise they are strictly increasing |
| `MultiLock.Sort` | crates/redis/src/multi.rs:60-61 | a sorted permutation |
| `MultiLock.OrderIsTotal` | crates/redis/src/multi.rs:61-61 | the key order is total and antisymmetric |
| `MultiLock.OrderIsTransitive` | crates/redis/src/multi.rs:61-61 | and transitive |
| `MultiLock.Manager.TryLockAll` | crates/redis/src/multi.rs:53-100 | with others acting between any two store calls: InvalidConfig iff the TTL is too low or a key repeats; success is one handle per key in strictly increasing order, all still owned until the attempt's start plus TTL with the newest fences of their keys, its last calls all answered; Backend only if a call failed; on a reliable store a Timeout comes no earlier than the wait and leaves no key under a token minted by this call; no lock of another token is disturbed, this client's earlier ones included; undisturbed on a reliable store, it succeeds iff every key's lease has run out by the last poll, the first 20 ms step not before the wait's end, and times out then otherwise |
| `MultiLock.QuietEnd` | crates/redis/src/multi.rs:67-100 | where nobody else acts, a poll succeeds iff every key's lease has run out by then |
| `MultiLock.FreeExactlyByTime` | crates/redis/src/multi.rs:67-100 | and until it runs out, every lock found at the call stands |
| `MultiLock.Manager.Attempt` | crates/redis/src/multi.rs:71-90 | one pass takes all keys or, on a reliable store, none |
| `MultiLock.Manager.RollBack` | crates/redis/src/multi.rs:77-79 | gives back everything taken and nothing else |
| `MultiLock.Manager.TryLockWith` | crates/redis/src/single.rs:104-161 | one key: Backend iff its call failed, else Held iff it is found live, else the handle, leased until now plus TTL with the counter until now plus ten TTLs |
| `MultiLock.Manager.ReleaseHandle` | crates/redis/src/single.rs:586-601 | one handle's release: Backend iff its call failed, else Ok iff the token still owned the key when it ran, and else Lost |
| `MultiLock.Manager.ReleaseAll` | crates/redis/src/multi.rs:36-47 | reverse order, first error kept: Backend if the first call fails and only if one does, Ok only if none does; a second call does nothing; on a reliable store nothing stays owned; undisturbed there, Ok iff every key was still owned |
| `MultiLock.HandlesSurvive` | crates/redis/src/multi.rs:68-75 | handles taken keep owning their keys through whatever others do, to the end of the lease, each with the newest fence of its key |
| `MultiLock.HandleJoins` | crates/redis/src/multi.rs:75-75 | a further key taken does not cost an earlier one |
| `MultiLock.OwnOpIsFair` | crates/redis/src/multi.rs:77-79 | this client's own calls disturb no foreign lock |
| `MultiLockProgress.SomeoneSucceeds` | crates/redis/src/multi.rs:1-2 | several multi-lockers without expiry or other users: from idle clients, after any schedule, under every further one that lets each make a call per round, some client has all its keys after one round more than there are keys |
| `MultiLockProgress.FailureHasStronger` | crates/redis/src/multi.rs:76-82 | whenever an attempt fails on a key, another one going forward holds that key or a greater one and has come further |
| `MultiLockProgress.LeaderAdvances` | crates/redis/src/multi.rs:73-75 | the client that has come furthest is never turned away |
| `MultiLockProgress.RoundRaisesLead` | crates/redis/src/multi.rs:71-90 | a round without a success takes someone further than anyone was |
| `MultiLockProgress.StepKeepsInv` | crates/redis/src/multi.rs:73-82 | every client rolling back has someone going forward beyond all its keys, after every step |
| `MultiLockProgress.OppositeOrdersCycle` | crates/redis/src/multi.rs:1-2 | without the common order two clients can turn each other away for ever |
| `KeyStore.OthersLeaveLock` | crates/redis/src/scripts/release.lua:1-12 | a live lock stands through every operation under another token |
| `KeyStore.LocksHaveAcquirers` | crates/redis/src/scripts/acquire.lua:14-27 | a live lock was there before or has just been acquired under its token |
| `KeyStore.NextIsTheScript` | crates/redis/src/single.rs:104-161 | an operation is the script of its kind on its own key, the counter living ten lease times, and leaves every other key alone |
| `Sessions.SessionBook.RegisterSession` | crates/server/src/sessions.rs:61-74 | a new session, just seen and free to beat at once |
| `Sessions.SessionBook.HeartbeatSession` | crates/server/src/sessions.rs:76-91 | Unknown iff not registered; RateLimited iff before the floor, and then nothing changes; else Accepted, seen now and with the floor ttl/20 later |
| `Sessions.SessionBook.BindLock` | crates/server/src/sessions.rs:94-104 | appends the lock and counts as a sign of life; false iff unknown |
| `Sessions.SessionBook.Remove` | crates/server/src/sessions.rs:113-120 | drops the session and yields its locks |
| `Sessions.SessionBook.ReleaseAll` | crates/server/src/sessions.rs:122-138 | with others acting before each release and releases failing: the store that results, and the count of answered calls, which on a reliable store is the number of locks this call freed iff every pair is owned as its own release runs; no bound pair is left owned there, unless acquired again |
| `Sessions.SessionBook.CloseSession` | crates/server/src/sessions.rs:106-111 | drops the session and releases what it bound; on a reliable store the count returned is the number of locks freed iff every pair is owned as its own release runs, which undisturbed means that every key is held through the session and bound once |
| `Sessions.CountIsExactUnderOthers` | crates/server/src/sessions.rs:122-133 | whatever others do between the releases, the locks freed are at most the pairs, and as many iff every pair is owned as its own release runs |
| `Sessions.AnsweredIsCount` | crates/server/src/sessions.rs:122-138 | the count is the number of release calls answered |
| `Sessions.EventsTakePlace` | crates/server/src/sessions.rs:122-138 | others' operations at the store all take place, in turn |
| `Sessions.LapseDuringClose` | crates/server/src/sessions.rs:122-133 | for every held lock bound once: if time enough passes before its release, it is counted and nothing is freed |
| `Sessions.CountIsExact` | crates/server/src/sessions.rs:107-111 | for every store and list of pairs: the keys freed are at most the pairs, and as many iff every bound key is held through one of the pairs and no key repeats |
| `Sessions.CountExceedsFreed` | crates/server/src/sessions.rs:122-133 | a lapsed lock is counted though nothing is freed; a pair bound twice is counted twice for one key |
| `Sessions.SessionBook.SweepOnce` | crates/server/src/sessions.rs:141-166 | with others acting before each session and each release: of the sessions nobody else closes exactly those expired at the start go, even if they beat meanwhile; untouched ones stay as they were; what a swept session had bound is no longer owned under that token; undisturbed, exactly the expired sessions are closed |
| `Sessions.SessionBook.LateHeartbeat` | crates/server/src/sessions.rs:142-160 | every expired session that beats between the snapshot and its turn is answered Accepted and swept all the same |
| `Sessions.LateBeatRevives` | crates/server/src/sessions.rs:76-91 | an expired session's heartbeat is always accepted and would revive it |
| `Sessions.SessionBook.Reap` | crates/server/src/sessions.rs:150-165 | the loop over the sessions found expired |
| `Sessions.SweptOne` | crates/server/src/sessions.rs:150-160 | one session taken keeps all the sweep has achieved |
| `Sessions.MoreLocksSwept` | crates/server/src/sessions.rs:157-158 | the locks of one more session are gone, and those of earlier ones stay gone |
| `Sessions.FreesExactlyTheOwned` | crates/server/src/sessions.rs:122-133 | exactly the keys still owned by a bound token are freed; every successor's lock and every counter stays |
| `Sessions.OneMoreClosed` | crates/server/src/sessions.rs:150-160 | closing one more session frees exactly its own keys on top |
| `Sessions.SpacedBeatsAreAccepted` | crates/server/src/sessions.rs:76-91 | from registration on, all beats are accepted iff they are ttl/20 apart |
| `Sessions.SteadyBeatsKeepTheSession` | crates/server/src/sessions.rs:25-27 | beats between ttl/20 and ttl apart, such as one every ttl/3, keep the session alive at every moment |

## Left out

- Fair extend (`crates/redis/src/fair.rs:122-150`) and the fair handle's drop path: both pass one key to scripts that use more; the fair model has acquire, release and the polling loop only.
- Watchdogs, `until_lost` channels, transient-failure counters, drop-time releases, metrics and logging: behaviour of the runtime and of I/O.
- Handle flags of the single, semaphore and read-write handles; the fair, Redlock and multi-lock handles have theirs.
- Redlock: connection set-up and configuration checks; per-node fence counters, which the client ignores; clock drift between nodes; per-node timeouts as durations (a visit is answered, unheard or failed).
- RedlockRing.Ring.TryLock: the nine-tenths test is exact arithmetic instead of floating point; after a node error or a lost allocation leases may stay until their TTL, so rollback is complete only when every answer is delivered; this client's own late commands run in the protocol theorems but not during its own round.
- The waiting loops `try_lock_for` of the single-instance and Redlock managers: each repeats the modelled attempt until a deadline; the fair and multi-lock loops are modelled.
- Redlock.InTimeGrantsFollowClosedClaims: says nothing about fences allocated after the window closed; RedlockAnomalies.LateFenceOvertakes shows why.
- Mutex.CounterOutlivesLock: grants of the semantic lock manager, which bump the counter without refreshing its TTL, are not mixed in.
- MutexRefinement.MutexRefinesSimStore: covers acquires with fresh tokens, releases and ticks, not extends, and runs whose counter never lapses.
- Semaphore.CapacityHolds: one fixed capacity, and no acquire or extend that sets the key to expire before another live permit; Semaphore.CapacityIffOneTtl says when that is so.
- ReadWrite.ReadersBlockWriters: as long as the structure does not expire; the read handle's drop passes TTL 0, which ends it for all readers.
- Checker.Check: the vector of released workers is written and never read, so it is not modelled; violation texts are structured reasons.
- BlackBox.BodyEditIsCaught: one byte at a time; edits of several bytes can collide in 64 bits (BlackBox.ForgeryPassesIff covers any edit in terms of the hash). The sequence number is not hashed.
- MultiLock.Manager.TryLockAll: on an unreliable store an unanswered request can leave a lease until its TTL, so nothing is claimed there about leftovers; the key sort is modelled as insertion sort, and strings as sequences of characters in lexicographic order.
- MultiLockProgress.SomeoneSucceeds: keys are numbered by their place in the order; what a client does after it has all its keys is not modelled, nor lease expiry during the rounds.
- QuotaRegistry.QuotaHolds: internal to the registry; expiry and sweeps in the store do not call it.
- Sessions.SessionBook.SweepOnce: the periodic task around the sweep is left out, and counts of released locks are not bounded to 32 bits.
- Overflow of virtual time, fences and counters: natural numbers, except the hash chain and the generator, which are 64-bit words.
- Store errors for a zero or negative TTL: clients reject TTLs below 10 ms, and a TTL of 0 makes a lease lapse at once.
- Servers, transports, client SDK, authorization, etcd backend, watch hub, predictor, lattice, reentrant and semantic locks, latch and Postgres fencing.
