# AgentIAM: a verified model of the spending, caveat, audit and extraction core

AgentIAM lets agents act under signed mandates. A mandate carries a grant (scopes, budget,
depth, window, task intent); agents pass narrower tokens to each other; enforcement points
(PEPs) check every call, spend from leases drawn on one shared budget, and write an audit
record of every decision. This project models the parts whose correctness spans functions,
processes or whole runs, and proves what the code promises about them. Where the code keeps
less than its comments say, the code is modelled as it is, the failing run or value is given
as a lemma, and the condition under which the promise does hold is proved, both ways.

Decimals are exact: ledger amounts are integers of 1/10000, quantities in caveats are reals.
Instants are integers in microseconds. Locals between two `await`s are one step; processes
interleave freely between steps.

## Reading order

1. **Leases, settlement and the ledger.** `Lease`, `Ledger` and `Settlement` model the
   local lease, the ledger transactions and the settlement queue. `Overspend` is the step
   system of N enforcement points, the ledger, lost answers, crashes and the reaper;
   `OverspendWitness` is a run that overspends; `Calm` is a discipline that never does.
   `Pool`, `PoolLifecycle` and `Renewal` model the lease pool, its tasks, and its clocks.
2. **Caveats and tokens.** `Caveats` (meaning), `Datalog` (compilation), `Attenuation`
   (order and mint-time check), `Bound`, `ChildTruth` and `Identity` (the two folds),
   `Tokens` and `Decision` (authority checks and the decision pipeline). `Splitter`,
   `Patterns`, `Clauses`, `ReadBack`, `Rendering`, `BlockReader`, `RoundTrip`, `Faithful`,
   `Refusals` and `Accounting` read a token's rendered text back into caveats and account for
   every statement of it.
3. **Canonical bytes and the audit chain.** `Json` (printer and decoder), `KeyedSort`,
   `Canonical`, `CanonicalLaws`, `Chain`.
4. **Buffers and indexes.** `Emitter` and `Gateway` (audit buffer and the end of the request
   pipeline), `Revocation`, `Extractor`.

`Wrappers`, `Sums`, `Ordering`, `Strings`, `Digits` and `Stamps` are shared helpers.

## Where the code keeps less than its comments say

- **Overspend.** Releasing a lease only when nothing is in flight and the queue is drained
  does not prevent overspending: a call in flight while its lease is *replaced* is settled
  against, and charged to, the replacement (`lease.py:103-130`, `pool.py:261-274`).
  `OverspendWitness` spends 30 of a budget of 20 with every release quiet and every ledger
  call successful. The excess grows at a retirement exactly when local use and the ledger's
  charge for that lease differ (`Overspend.RetireMovesExcess`), and never grows if leases are
  replaced and closed only with no call in flight, no settlement is dropped, and a lease is
  retired only when no queue and no call still names it (`Calm.CalmNeverOverspends`).
- **Batches.** `ledger_commit_batch` is not "identical to calling `ledger_commit` once per
  item": it notes an id before it clamps the amount, so an id that comes for nothing first is
  skipped when it comes again (`Ledger.ZeroThenRepeat`). The two agree exactly when no batch
  asks, with room left, a positive amount for an id it has passed over
  (`Ledger.BatchIsSinglyIff`); distinct ids never do.
- **Partial application.** A retry does not always replay to the books of one clean attempt
  (`Ledger.PartReplayNeedsRoom`). A prefix does; for distinct ids a part does exactly when it
  leaves room for what it skips (`Ledger.PartReplaysIff`), and every part does exactly when
  the lease covers the batch, or is used up, or at most one item is new
  (`Ledger.EveryPartReplaysIff`).
- **Renewal.** Sweeps every quarter TTL are sure to find a lease due and still usable exactly
  when `4*skew <= ttl`; the constructor asks only for `ttl > 2*skew`.
- **Closing.** A `prime()` still waiting for its grant when `aclose()` runs can make one lease
  released twice and another never (`PoolLifecycle.LatePrimeReleasesTwice`), or, in another
  dimension, grow the dictionary `aclose()` is walking, so that it raises
  (`PoolLifecycle.LatePrimeBreaksClose`). Over every run, a lease is owed a second release
  exactly when a grant arrives for its dimension after the sweep retired it, and is left out
  of a finished `aclose()` exactly when it was installed where the sweep no longer looks and
  never taken up again.
- **`is_dead`.** A bound can allow nothing without being dead: an allow-list inside the
  deny-list, or scopes inside the approval set (`Bound.DeadOrSilentIffInert`). And
  `effective_bound` keeps only the last intent of a chain.
- **Two folds.** The holder's fold raises on a fractional count ceiling; otherwise it equals
  the chain fold on every field.
- **Sub-second windows.** Date literals keep whole seconds, so a window and its compiled
  form agree at every instant exactly when both bounds are whole seconds.
- **Approvals.** The caveat list given to `decide` only explains, except that an approval that
  is not listed is not asked for: two lists decide alike exactly when they ask for approval
  alike or the outcome is settled elsewhere (`Decision.CaveatListOnlyExplains`,
  `Decision.ApprovalMustBeListed`).
- **Reading blocks.** Statements past the 512th are neither read nor reported. A recognized
  clause whose term the caveat model refuses raises instead of being reported
  (`Refusals.UnscopedBlockRaises`), and nothing else does (`Refusals.BlockRaisesIff`).
- **Negative zero.** `Decimal("-0")` and `Decimal("0")` are equal and have different bytes.
- **Chain verification** counts up to the head's number and never compares the head's hash: any
  list of records can be given a chain that verifies. What binds the history is the head hash.
- **Flush.** A batch claimed by the flush itself is tried a second time at once when it fails,
  where the comment says one attempt.
- **Revocation numbers** may become visible out of order. One committed at or below a cursor
  already passed, or about to be set by an answer on its way, need never take hold
  (`Revocation.LateCommitIsMissed`); one above every cursor always does, and that is exact
  (`Revocation.TakesHoldIffAboveCursors`, `Revocation.NeverPulledIff`).

## Model

| member | source | states |
|---|---|---|
| `Lease.LocalLease.constructor` | packages/agentiam-pep/src/agentiam_pep/lease.py:27-40 | a new lease has its whole grant left and is active |
| `Lease.LocalLease.Reserve` | packages/agentiam-pep/src/agentiam_pep/lease.py:73-100 | succeeds exactly for a non-negative amount that fits an active lease clear of its expiry by the skew, and says which of the four refusals applies first; then exactly the amount is held back, otherwise nothing changes |
| `Lease.LocalLease.Commit` | packages/agentiam-pep/src/agentiam_pep/lease.py:103-130 | refund, exact or shortfall settlement; the outcome names the lease it was settled on and reports the actual amount |
| `Lease.ReserveCommitConserves` | packages/agentiam-pep/src/agentiam_pep/lease.py:73-130 | reserve then commit moves the lease by what was spent, or by what was reserved when the overrun escalates, and says exactly when it escalates |
| `Lease.RefundRestores` | packages/agentiam-pep/src/agentiam_pep/lease.py:103-130 | a full refund undoes a reservation |
| `Ledger.AcquireSound` | packages/agentiam-controlplane/src/agentiam_controlplane/db/ledger.py:129-199 | books stay sound; a lease is granted exactly when something is asked for and something is free, of the smaller of the two, new, active and uncharged, and nothing else moves |
| `Ledger.RetireSound` | packages/agentiam-controlplane/src/agentiam_controlplane/db/ledger.py:404-425 | books stay sound; only an active lease is retired, and exactly what it had not been charged is free again |
| `Ledger.CommitOneCredits` | packages/agentiam-controlplane/src/agentiam_controlplane/db/ledger.py:337-384 | one settlement: refused exactly when its id is on record, its amount is not positive or the lease is used up; otherwise charged whole if it fits and else what is left |
| `Ledger.CommitAllSound` | packages/agentiam-controlplane/src/agentiam_controlplane/db/ledger.py:274-401 | no batch, whatever its amounts, ids or repeats, breaks the books or moves anything out of committed plus leased |
| `Ledger.CommitBatchSound` | packages/agentiam-controlplane/src/agentiam_controlplane/db/ledger.py:274-401 | a batch touches one lease, only raises what it has settled, and does nothing to a lease no longer active |
| `Ledger.BatchIsSinglyIff` | packages/agentiam-controlplane/src/agentiam_controlplane/db/ledger.py:274-401 | one transaction for a batch leaves the books one transaction per settlement would if and only if the batch never asks, with room left, a positive amount for an id it has met and not recorded |
| `Ledger.ZeroThenRepeat` | packages/agentiam-controlplane/src/agentiam_controlplane/db/ledger.py:337-384 | the input that separates them: an id for nothing, then for five |
| `Ledger.OneSignedNeverAsks` | packages/agentiam-controlplane/src/agentiam_controlplane/db/ledger.py:337-384 | a batch in which no id comes both for nothing and for something never asks again |
| `Ledger.PrefixReplayExact` | packages/agentiam-controlplane/src/agentiam_controlplane/db/ledger.py:274-401 | replaying a batch after any prefix of it was applied ends in the books of one clean attempt, whatever repeats and clamps |
| `Ledger.PartReplaysIff` | packages/agentiam-controlplane/src/agentiam_controlplane/db/ledger.py:274-401 | for distinct settlements, a part applied before the failure replays exactly if and only if each new item it skips finds the lease used up, nothing new later in the part, or room for both |
| `Ledger.EveryPartReplaysIff` | packages/agentiam-controlplane/src/agentiam_controlplane/db/ledger.py:274-401 | every part replays exactly if and only if the lease covers the batch, or has nothing outstanding, or at most one item is new |
| `Ledger.PartReplayNeedsRoom` | packages/agentiam-controlplane/src/agentiam_controlplane/db/ledger.py:274-401 | two settlements and a lease with room for little more than one: a part whose replay differs |
| `Ledger.CreditedInAll` | packages/agentiam-controlplane/src/agentiam_controlplane/db/ledger.py:337-384 | distinct settlements together charge the lease the smaller of what they need and what it has outstanding |
| `Ledger.RecordedOnce` | packages/agentiam-controlplane/src/agentiam_controlplane/db/ledger.py:274-401 | a recorded reservation is never removed, rewritten or credited again |
| `Ledger.CommitAllVerdicts` | packages/agentiam-controlplane/src/agentiam_controlplane/db/ledger.py:337-401 | an id is on record afterwards exactly if it was before or one item of it came back true, one only, for a positive part of its amount |
| `Ledger.LedgerStore.AcquireLease` | packages/agentiam-controlplane/src/agentiam_controlplane/db/ledger.py:129-199 | the stored books after ACQUIRE, with what was granted stated outright; they stay sound |
| `Ledger.LedgerStore.Release` | packages/agentiam-controlplane/src/agentiam_controlplane/db/ledger.py:202-211 | the stored books after RELEASE: what an active lease gives back, and that any other gives nothing |
| `Ledger.LedgerStore.Reap` | packages/agentiam-controlplane/src/agentiam_controlplane/db/ledger.py:214-236 | one pass, candidates selected first and each retired in its own transaction with any others in between: every lease five seconds overdue at the start ends retired, and only such leases are reclaimed |
| `Ledger.LedgerStore.Commit` | packages/agentiam-controlplane/src/agentiam_controlplane/db/ledger.py:274-401 | the loop over a batch, with the set of ids met so far, is the left-to-right specification; the verdicts say what was newly recorded; an inactive lease refuses the batch and keeps the books |
| `Settlement.BatchIsEachIff` | packages/agentiam-pep/src/agentiam_pep/settlement.py:289-306 | committing the batch is committing its settlements one by one exactly when it never asks again |
| `Settlement.LostPartKeepsFuture` | packages/agentiam-pep/src/agentiam_pep/settlement.py:308-333 | a failed attempt that applied a part which replays changes nothing about where retrying ends |
| `Settlement.WholeBatchKeepsFuture` | packages/agentiam-pep/src/agentiam_pep/settlement.py:308-333 | a batch that commits as its settlements would can be popped, or its answer lost and the batch retried, with the same final books |
| `Settlement.SettlementExactlyOnce` | packages/agentiam-pep/src/agentiam_pep/settlement.py:222-333 | over every interleaving of enqueues, attempts, parts applied and answers lost: answered settlements are a FIFO prefix of accepted ones, every enqueue is in one counter, and, while nobody else moves the books and every attempt replays, pending settlements lead to each accepted one committed once in order |
| `Settlement.OneSignedRunIsAlike` | packages/agentiam-pep/src/agentiam_pep/settlement.py:222-333 | every attempt replays in any run whose lost parts are prefixes and whose accepted ids never come both for nothing and for something |
| `Settlement.DrainedRunIsExactlyOnce` | packages/agentiam-pep/src/agentiam_pep/settlement.py:222-333 | once nothing is pending the ledger is exactly the once-each specification of what was accepted |
| `Settlement.FlushIsARun` | packages/agentiam-pep/src/agentiam_pep/settlement.py:263-333 | what a flush makes of the queue and the books is where the steps offer, arrivals and answer or failure lead |
| `Settlement.LostAnswerIsFailure` | packages/agentiam-pep/src/agentiam_pep/settlement.py:308-333 | an answer lost is a failure after the whole batch was applied |
| `Settlement.ClosedTakesNothing` | packages/agentiam-pep/src/agentiam_pep/settlement.py:222-259 | once closed, over any run, nothing more is accepted and each settlement that comes is counted as dropped |
| `Settlement.SettlementQueue.Enqueue` | packages/agentiam-pep/src/agentiam_pep/settlement.py:222-259 | queued at the tail, or counted as dropped when closed or full |
| `Settlement.SettlementQueue.NextBatch` | packages/agentiam-pep/src/agentiam_pep/settlement.py:289-306 | the loop takes the longest run at the head that shares one lease, up to the batch limit |
| `Settlement.SettlementQueue.FinishFlush` | packages/agentiam-pep/src/agentiam_pep/settlement.py:308-333 | pops one settlement per verdict and counts it, or counts one failed attempt |
| `Settlement.SettlementQueue.Flush` | packages/agentiam-pep/src/agentiam_pep/settlement.py:263-273 | with settlements arriving during the await: pops its whole batch and counts each verdict, or pops nothing and counts one failure, and keeps where the queue leads |
| `Settlement.SettlementQueue.Drain` | packages/agentiam-pep/src/agentiam_pep/settlement.py:275-287 | with settlements arriving during every await, it ends: with the queue empty, the sink failing, or arrivals having kept pace; what it answered is a prefix of what it held and accepted, and where the queue leads is kept |
| `Overspend.StepKeepsInv` | packages/agentiam-pep/src/agentiam_pep/pool.py:155-243 | every step of every process keeps: sound books, local and ledger leases matching, spent plus in flight equal to local use |
| `Overspend.SpentBounded` | packages/agentiam-pep/src/agentiam_pep/pipeline.py:415-441 | spending is bounded by committed plus leased plus what retired leases gave back after use |
| `Overspend.BoundedOverspend` | packages/agentiam-pep/src/agentiam_pep/pool.py:155-243 | for any number of PEPs and any interleaving with losses and crashes: never over-issued, and spent is at most the budget plus that excess |
| `Overspend.RetireMovesExcess` | packages/agentiam-pep/src/agentiam_pep/pool.py:155-177 | retiring a lease moves the excess by exactly its use minus what the ledger charged, so not at all if and only if the two agree |
| `Overspend.NoOverspend` | packages/agentiam-pep/src/agentiam_pep/pool.py:155-243 | with clocks within the skew and every retired lease even, spent plus in flight never exceeds the budget |
| `Overspend.SettlesOne` | packages/agentiam-pep/src/agentiam_pep/pipeline.py:415-441 | settling spends exactly what was reserved, once; a queued settlement names the lease held now |
| `Overspend.ClosedReservesNothing` | packages/agentiam-pep/src/agentiam_pep/pool.py:247-259 | a closed pool never reserves again, whatever grants still arrive |
| `Overspend.CrashedIsSilent` | packages/agentiam-pep/src/agentiam_pep/pool.py:155-243 | the calls in flight of a crashed process are never settled, over any run |
| `Overspend.CrashedLeaseReturns` | packages/agentiam-controlplane/src/agentiam_controlplane/db/ledger.py:214-236 | its lease, once overdue by more than five seconds, can be reaped, and then what it was not charged is free again |
| `OverspendWitness.QuietReleasesCanOverspend` | packages/agentiam-pep/src/agentiam_pep/pool.py:225-243 | a sixteen-step run in which every release is quiet and drained and 30 of 20 is spent |
| `Calm.UnreferencedIsEven` | packages/agentiam-pep/src/agentiam_pep/lease.py:103-130 | an open lease that no call and no queued settlement names has been charged for exactly what was used |
| `Calm.BatchFits` | packages/agentiam-pep/src/agentiam_pep/settlement.py:289-333 | under the discipline the ledger never clamps: any queued batch fits what its lease has outstanding |
| `Calm.FittingBatch` | packages/agentiam-controlplane/src/agentiam_controlplane/db/ledger.py:274-401 | distinct settlements that fit are charged in full and recorded exactly once |
| `Calm.StepKeepsCalm` | packages/agentiam-pep/src/agentiam_pep/pool.py:195-243 | every disciplined step keeps, for each open lease, use equal to charged plus queued plus in flight |
| `Calm.CalmNeverOverspends` | packages/agentiam-pep/src/agentiam_pep/pool.py:155-243 | no run under the discipline overspends, for any number of PEPs, partial applications and lost answers included |
| `Pool.CoveredIffReservable` | packages/agentiam-pep/src/agentiam_pep/pool.py:247-315 | a check covers every dimension of a request exactly when all of it can then be reserved, one dimension after another |
| `Pool.LeasePool.OnGrant` | packages/agentiam-pep/src/agentiam_pep/pool.py:195-243 | an answered ACQUIRE installs or replaces the lease, whole and active, and names the one to release; an exhausted mandate only marks the dimension |
| `Pool.LeasePool.ScheduleTopup` | packages/agentiam-pep/src/agentiam_pep/pool.py:436-452 | starts a task exactly when none is in flight, the pool is open and a loop runs |
| `Pool.LeasePool.MaybeScheduleTopup` | packages/agentiam-pep/src/agentiam_pep/pool.py:398-434 | asks exactly when the lease is drained or stale |
| `Pool.LeasePool.Reserve` | packages/agentiam-pep/src/agentiam_pep/pool.py:247-259 | reserves on the held lease or changes nothing; reports the top-up it started |
| `Pool.LeasePool.Commit` | packages/agentiam-pep/src/agentiam_pep/pool.py:261-274 | settles on the lease held now and names that lease |
| `Pool.LeasePool.Check` | packages/agentiam-pep/src/agentiam_pep/pool.py:276-315 | true exactly when every amount is covered; otherwise names the first dimension that is not, and the only change is one top-up it may start |
| `Pool.LeasePool.Sweep` | packages/agentiam-pep/src/agentiam_pep/pool.py:388-394 | one renewal sweep starts a top-up for exactly the due dimensions that have none in flight |
| `Pool.LeasePool.CloseDimension` | packages/agentiam-pep/src/agentiam_pep/pool.py:484-501 | closing releases an active lease once and leaves a retired one alone |
| `PoolLifecycle.OneTopupPerDimension` | packages/agentiam-pep/src/agentiam_pep/pool.py:436-466 | at most one top-up per dimension is in flight, over every interleaving |
| `PoolLifecycle.EndedTopupFreesItsSlot` | packages/agentiam-pep/src/agentiam_pep/pool.py:436-466 | however a top-up ends, its dimension can start another |
| `PoolLifecycle.StepKeepsDuties` | packages/agentiam-pep/src/agentiam_pep/pool.py:155-243 | conservation: no step of any task loses a duty to release, and only replacing a lease or closing on an active one takes one on |
| `PoolLifecycle.OwedTwiceIffRetiredAgain` | packages/agentiam-pep/src/agentiam_pep/pool.py:195-243 | over every interleaving, a lease is owed no release exactly while ungranted or in use, and a second one exactly when a grant arrived for its dimension after the closing sweep had retired it |
| `PoolLifecycle.ReleasedAtMostOnce` | packages/agentiam-pep/src/agentiam_pep/pool.py:195-243 | unless it was retired again, no lease is released twice; none is released while in use, and only granted ones are |
| `PoolLifecycle.ClosedPoolReturnsEverything` | packages/agentiam-pep/src/agentiam_pep/pool.py:484-501 | after a finished `aclose()`, a grant received is owed no release exactly when it was installed outside the sweep and never taken up again; any other was released, given up on or is being released exactly once, unless retired again |
| `PoolLifecycle.OnlyLatePrimesHarm` | packages/agentiam-pep/src/agentiam_pep/pool.py:181-243 | with no prime started or outstanding once the pool is closed, no lease is retired again and none is left out |
| `PoolLifecycle.CloseCanFinish` | packages/agentiam-pep/src/agentiam_pep/pool.py:468-501 | once no top-up is under way closing can be finished, with every lease that was active released and none left active |
| `PoolLifecycle.LatePrimeReleasesTwice` | packages/agentiam-pep/src/agentiam_pep/pool.py:181-243 | the run in which a late prime makes one lease released twice and one never |
| `PoolLifecycle.LatePrimeBreaksClose` | packages/agentiam-pep/src/agentiam_pep/pool.py:484-501 | the run in which a late first lease of another dimension makes `aclose()` raise and is never released |
| `Renewal.ReservedIsUnreaped` | packages/agentiam-pep/src/agentiam_pep/lease.py:93-99 | in every run of the step system with clocks within the skew, a reservation that succeeds is on a lease whose expiry the ledger's clock has not reached and no reaper has taken |
| `Renewal.RenewalGuarantee` | packages/agentiam-pep/src/agentiam_pep/pool.py:101-112 | quarter-TTL sweeps always hit if and only if `4*skew <= ttl` |
| `Renewal.SweepRenewsInTime` | packages/agentiam-pep/src/agentiam_pep/pool.py:356-394 | with four skews in the TTL, some sweep finds the lease due for renewal and not yet stale |
| `Renewal.AcceptedIsNotEnough` | packages/agentiam-pep/src/agentiam_pep/pool.py:101-112 | settings the constructor accepts for which a sweep can miss |
| `Caveats.RefusesAs` | packages/agentiam-core/src/agentiam_core/caveats.py:155-367 | each reason for refusing comes from its own kind of caveat, the two window reasons from its two sides, and only an approval escalates |
| `Datalog.CompilerPreservesMeaning` | packages/agentiam-core/src/agentiam_core/caveats.py:155-367 | for every caveat but an approval and every request, the compiled clauses pass over the emitted facts exactly when the caveat allows |
| `Datalog.ArgTestNegates` | packages/agentiam-core/src/agentiam_core/caveats.py:59-66 | the compiled argument test finds exactly what the predicate refuses |
| `Datalog.Scale` | packages/agentiam-core/src/agentiam_core/caveats.py:85-97 | scales exactly, and refuses exactly what has more than four places |
| `Datalog.WindowAgreesIffWhole` | packages/agentiam-core/src/agentiam_core/caveats.py:172-181 | a window and its compiled form agree at every instant if and only if its bounds are whole seconds |
| `Datalog.TruncationIsOneSided` | packages/agentiam-core/src/agentiam_core/caveats.py:80-82 | a truncated lower bound only lets more through, an upper bound only less |
| `Attenuation.NarrowsIffImplies` | packages/agentiam-core/src/agentiam_core/attenuation.py:127-227 | within a slot, `narrows` holds if and only if every request the child allows the parent allows, reversed kinds included |
| `Attenuation.Narrows` | packages/agentiam-core/src/agentiam_core/attenuation.py:75-202 | comparing caveats of different slots is an error, of one slot never |
| `Attenuation.NarrowsIsPartialOrder` | packages/agentiam-core/src/agentiam_core/attenuation.py:144-202 | reflexive, transitive, and antisymmetric up to equality |
| `Attenuation.GroupBySlot` | packages/agentiam-core/src/agentiam_core/attenuation.py:260-286 | the grouping loop puts each ancestor atom in its own slot and nowhere else |
| `Attenuation.FirstWider` | packages/agentiam-core/src/agentiam_core/attenuation.py:260-286 | finds an ancestor the atom does not narrow, or shows there is none |
| `Attenuation.CheckNarrowing` | packages/agentiam-core/src/agentiam_core/attenuation.py:260-286 | raises, with the pair to blame, exactly when some proposed atom is wider than a comparable ancestor; for valid caveats it passes exactly when each proposed one is within each that already binds |
| `Attenuation.NarrowingIffWithin` | packages/agentiam-core/src/agentiam_core/attenuation.py:260-286 | that in terms of requests: wherever two caveats make the same claim, each side of a window being one, the proposed one allows only what the other allows |
| `Bound.EffectiveBound` | packages/agentiam-core/src/agentiam_core/attenuation.py:391-461 | the nine-accumulator loop is the fold |
| `Bound.FoldIs` | packages/agentiam-core/src/agentiam_core/attenuation.py:391-461 | each field of the fold read off the caveats: what all sets share, the lowest ceilings, the latest start, earliest end and smallest depth, the last intent, everything denied or needing approval |
| `Bound.ChainIsBoundAndUnfolded` | packages/agentiam-core/src/agentiam_core/attenuation.py:358-461 | a chain allows a request exactly when its bound permits it and the two things not folded allow it |
| `Bound.BoundIsUpper` | packages/agentiam-core/src/agentiam_core/attenuation.py:391-461 | whatever the chain allows, the bound permits |
| `Bound.BoundIsExact` | packages/agentiam-core/src/agentiam_core/attenuation.py:391-461 | with no argument predicate and one intent the bound is exact |
| `Bound.DisagreeingIntentsAreInexact` | packages/agentiam-core/src/agentiam_core/attenuation.py:391-461 | two different intents: the bound permits a request the chain refuses |
| `Bound.DeadOrSilentIffInert` | packages/agentiam-core/src/agentiam_core/attenuation.py:376-388 | a bound permits no request if and only if it is dead or silent; `is_dead` sees only the first |
| `Bound.ChainBoundInert` | packages/agentiam-core/src/agentiam_core/attenuation.py:375-474 | so the bound of any chain of valid caveats permits nothing exactly when it is dead or silent |
| `Bound.DeadChainAllowsNothing` | packages/agentiam-core/src/agentiam_core/attenuation.py:376-388 | a chain whose bound is dead allows no request |
| `ChildTruth.AcceptedChildTellsTheTruth` | packages/agentiam-core/src/agentiam_core/attenuation.py:97-124 | a child that passes the mint-time check: in every component its caveats mention, the whole chain folds to the fold of its own caveats, for any number of ancestors |
| `ChildTruth.FoldIsJoined` | packages/agentiam-core/src/agentiam_core/attenuation.py:391-461 | folding onto a bound is joining that bound with the fold taken alone |
| `Identity.HolderFoldIsChainFold` | packages/agentiam-sdk/src/agentiam_sdk/identity.py:54-87 | the holder's fold exists exactly when folded counts are whole, and then equals the chain fold on every field |
| `Identity.FromScaled` | packages/agentiam-core/src/agentiam_core/models.py:253-272 | rebuilds every dimension exactly, or refuses exactly when a count is fractional, naming one that is |
| `Identity.FractionalCountRefused` | packages/agentiam-sdk/src/agentiam_sdk/identity.py:54-87 | a half-call ceiling: the chain fold shows it, the holder's fold raises |
| `Tokens.AppendingNarrows` | packages/agentiam-core/src/agentiam_core/tokens.py:471-515 | appending a block never authorizes a request that was not authorized |
| `Tokens.MintedBlockCarries` | packages/agentiam-core/src/agentiam_core/attenuation.py:289-349 | a minted block carries the clauses of its caveats and nothing else that decides |
| `Tokens.CarriedBlockPasses` | packages/agentiam-core/src/agentiam_core/tokens.py:471-515 | a block that carries caveats passes exactly when each of them allows |
| `Tokens.AuthorityChecksMeanGrant` | packages/agentiam-core/src/agentiam_core/tokens.py:168-200 | the ten checks of the authority block pass exactly when the grant covers the request |
| `Decision.EvaluateCaveats` | packages/agentiam-core/src/agentiam_core/decision.py:199-225 | the loop reports the first denial, at the first position that denies, with its reason; else the first position that asks for approval; else nothing |
| `Decision.Decide` | packages/agentiam-core/src/agentiam_core/decision.py:228-410 | the pipeline's early returns are the specified order of steps |
| `Decision.CaveatListOnlyExplains` | packages/agentiam-core/src/agentiam_core/decision.py:228-410 | two lists of the chain's caveats give the same outcome if and only if they ask for approval alike or revocation, grant, engine, policy or drift settles it; with no approval on the chain every sublist decides the same |
| `Decision.ApprovalMustBeListed` | packages/agentiam-core/src/agentiam_core/decision.py:228-410 | a token, a request and a list: escalated with its approval listed, allowed without |
| `Decision.SameReasonSameDecision` | packages/agentiam-core/src/agentiam_core/decision.py:228-410 | of a list the decision depends only on the reason of its first denial and on whether it asks for approval |
| `Decision.NotDeniedMeansCleared` | packages/agentiam-core/src/agentiam_core/decision.py:228-410 | a request not denied passed revocation, grant, every grant check, every chain caveat and policy |
| `Decision.RevocationDenies` | packages/agentiam-core/src/agentiam_core/decision.py:228-410 | a revoked or unanswerable id anywhere in the chain denies |
| `Decision.RevokedDecides` | packages/agentiam-core/src/agentiam_core/decision.py:259-272 | the first id that is not clear gives the denial: revoked as the token or as an ancestor by whether it is the last, or unanswerable |
| `Decision.GrantDecides` | packages/agentiam-core/src/agentiam_core/decision.py:274-309 | with every id clear, a scope not granted, another intent or a depth past the maximum gives its own denial, in that order |
| `Decision.CaveatDecides` | packages/agentiam-core/src/agentiam_core/decision.py:311-313 | then the first listed caveat that denies, by position and reason |
| `Decision.PolicyDecides` | packages/agentiam-core/src/agentiam_core/decision.py:324-353 | then an engine limit or failure, no policy, a stale bundle or a refusal, each by its own code |
| `Decision.ClearedDecides` | packages/agentiam-core/src/agentiam_core/decision.py:355-410 | a request past all of that is denied only by the budget: it escalates on strict drift above 0.7 or where approval is asked for, and is otherwise allowed if and only if the budget covers it |
| `Splitter.FastStatements` | packages/agentiam-core/src/agentiam_core/datalog.py:282-320 | the quote-segment splitter equals the character loop on every text, unterminated literals and the cap included |
| `Splitter.RenderedSplits` | packages/agentiam-core/src/agentiam_core/datalog.py:282-320 | rendering statements and splitting gives them back up to the cap; those past it are gone |
| `Splitter.SourceSplits` | packages/agentiam-core/src/agentiam_core/datalog.py:282-320 | any source is cut at exactly the semicolons outside literals; its statements are those pieces trimmed, the first ones up to the cap, without the blank ones |
| `Splitter.StripMeans` | packages/agentiam-core/src/agentiam_core/datalog.py:305-320 | trimming loses white space only and leaves none at the ends |
| `Patterns.MatchRender` | packages/agentiam-core/src/agentiam_core/datalog.py:138-176 | a pattern recognizes every text it renders and captures what was put in |
| `Patterns.MatchOnlyRendered` | packages/agentiam-core/src/agentiam_core/datalog.py:138-176 | a pattern recognizes nothing else: no part of a recognized statement is skipped |
| `Clauses.OneShapeAtMost` | packages/agentiam-core/src/agentiam_core/datalog.py:138-176 | no statement fits two of the fourteen shapes, so their order decides nothing |
| `ReadBack.ReadMembers` | packages/agentiam-core/src/agentiam_core/datalog.py:323-338 | the member loop: every part a literal, or no set at all |
| `ReadBack.ReadClause` | packages/agentiam-core/src/agentiam_core/datalog.py:440-446 | the table loop builds from the first shape that fits, and refuses when none does |
| `ReadBack.ReadCompilesBack` | packages/agentiam-core/src/agentiam_core/datalog.py:366-437 | a caveat read from any recognized text compiles to exactly the clause that text spells |
| `ReadBack.ReadMeansSpelled` | packages/agentiam-core/src/agentiam_core/datalog.py:366-437 | so it allows a request exactly when the authorizer passes that text |
| `ReadBack.ShapeIsRead` | packages/agentiam-core/src/agentiam_core/datalog.py:440-446 | the text of a filled-in shape is read as that shape and no other |
| `Rendering.ListingReads` | packages/agentiam-core/src/agentiam_core/caveats.py:107-109 | a written set of safe strings reads back as the set |
| `BlockReader.ParseBlockSource` | packages/agentiam-core/src/agentiam_core/datalog.py:500-567 | the statement loop over the fast splitter is the statement-by-statement specification |
| `BlockReader.ClaimsAccountedFor` | packages/agentiam-core/src/agentiam_core/datalog.py:465-497 | an identity field that was claimed is either carried out, claimed once and acceptable, or named as ambiguous |
| `Refusals.BlockRaisesIff` | packages/agentiam-core/src/agentiam_core/datalog.py:500-567 | reading a block raises if and only if a statement within the caps has a known shape and a term the caveat model refuses |
| `Refusals.UnscopedBlockRaises` | packages/agentiam-core/src/agentiam_core/datalog.py:323-437 | a one-statement block that raises, where an unknown statement would be reported |
| `Accounting.BlockAccounts` | packages/agentiam-core/src/agentiam_core/datalog.py:500-567 | nothing is dropped: reading does not raise exactly when every statement within the cap has a fate, and what is read is then what the fates add up to, in order: caveats shown, claims, approvals and unknown statements |
| `Accounting.FateIff` | packages/agentiam-core/src/agentiam_core/datalog.py:522-553 | a statement has one fate at most, the one the reader gives it: over-long and cut, a clause no shape renders but with a term that is none, a caveat that compiles to the clause spelled, a fact of the grant, an identity claim, an approval, or unknown |
| `Accounting.ReportedIff` | packages/agentiam-core/src/agentiam_core/datalog.py:522-553 | a text is reported as unrecognized exactly when some statement within the cap has that fate |
| `Accounting.SetReadIff` | packages/agentiam-core/src/agentiam_core/datalog.py:323-338 | a set is read exactly where each part between commas is one literal, and holds what they hold |
| `RoundTrip.CaveatReads` | packages/agentiam-core/src/agentiam_core/datalog.py:366-446 | every clause of a compiled caveat, written out, is read back as that caveat or its side of the window |
| `RoundTrip.FactReads` | packages/agentiam-core/src/agentiam_core/datalog.py:500-567 | identity and approval facts, written out, are read back as what they say |
| `RoundTrip.StatementShape` | packages/agentiam-core/src/agentiam_core/datalog.py:282-320 | no rendered statement is cut inside or loses anything to trimming |
| `Faithful.MintedBlockReadsBack` | packages/agentiam-core/src/agentiam_core/datalog.py:500-567 | an appended block, rendered and read within the limits: nothing unrecognized, its identity, and its caveats with windows split and approvals merged |
| `Faithful.MintedIdentityReadsBack` | packages/agentiam-core/src/agentiam_core/datalog.py:465-497 | with labels the rules accept, the identity read is the one the block was minted for, and nothing is ambiguous |
| `Faithful.ReadVerdict` | packages/agentiam-core/src/agentiam_core/datalog.py:500-567 | the read-back list denies exactly when a truncated original does, and asks for approval exactly when an original does |
| `Faithful.ReadBackKeepsVerdict` | packages/agentiam-core/src/agentiam_core/datalog.py:500-567 | with whole-second windows, reading back changes no verdict on any request |
| `Faithful.ReadBackDecides` | packages/agentiam-core/src/agentiam_core/decision.py:228-410 | deciding from the caveats read back off a chain of minted blocks gives the outcome and code of deciding from those it was minted with |
| `Faithful.PastTheCapIsLost` | packages/agentiam-core/src/agentiam_core/datalog.py:282-320 | past 512 statements the rest is neither read nor reported |
| `Json.EncodeString` | packages/agentiam-core/src/agentiam_core/hashing.py:50-69 | the character loop writes the literal of its argument |
| `Json.EscapedIsBody` | packages/agentiam-core/src/agentiam_core/hashing.py:50-69 | what stands between the quotes is a string body under section 7 of RFC 8259 |
| `Json.EscapeWrites` | packages/agentiam-core/src/agentiam_core/hashing.py:50-69 | only quotes, backslashes and control characters are escaped, five by one character and the rest by code |
| `Json.ReadEscapedBody` | packages/agentiam-core/src/agentiam_core/hashing.py:50-69 | an escaped string is read back, and exactly what followed it |
| `Json.DecodePrint` | packages/agentiam-core/src/agentiam_core/hashing.py:100-133 | decoding a printed tree gives the tree and exactly what followed it |
| `Json.PrintInjective` | packages/agentiam-core/src/agentiam_core/hashing.py:100-133 | no two trees share their bytes, even with more text behind them |
| `Canonical.EncodePrintsCanon` | packages/agentiam-core/src/agentiam_core/hashing.py:100-133 | the encoder succeeds exactly where the normalized tree exists, and writes that tree |
| `CanonicalLaws.SampleBytes` | packages/agentiam-core/src/agentiam_core/hashing.py:100-133 | one value to the byte: keys in order, a set in order, a list as it stands, null, true, false and a negative number |
| `Ordering.LeqMeans` | packages/agentiam-core/src/agentiam_core/hashing.py:121-130 | the order keys and set members are put in: a beginning first, else by the first character that differs |
| `CanonicalLaws.EncodingDecodes` | packages/agentiam-core/src/agentiam_core/hashing.py:100-151 | the bytes of a value decode to its normalized tree, whatever follows |
| `CanonicalLaws.SameBytesIffSameTree` | packages/agentiam-core/src/agentiam_core/hashing.py:100-151 | two values share their bytes exactly when they share their tree |
| `CanonicalLaws.MappingOrderForgotten` | packages/agentiam-core/src/agentiam_core/hashing.py:122-124 | the order in which a mapping was built leaves no trace |
| `CanonicalLaws.SetOrderForgotten` | packages/agentiam-core/src/agentiam_core/hashing.py:125-127 | nor does the order in which a set is walked |
| `CanonicalLaws.RejectedIffInexact` | packages/agentiam-core/src/agentiam_core/hashing.py:72-133 | encoding raises exactly when a float, an over-precise or non-finite decimal, a naive instant or a foreign type is somewhere inside |
| `CanonicalLaws.DecimalsCollapse` | packages/agentiam-core/src/agentiam_core/hashing.py:72-89 | decimals share their bytes exactly when they are equal and, if zero, of one sign |
| `CanonicalLaws.DecimalReadsBack` | packages/agentiam-core/src/agentiam_core/hashing.py:72-89 | a decimal is a string of a minus sign exactly if it is negative, a plain whole part, a point and four places, which reads back to the very amount |
| `CanonicalLaws.MomentReadsBack` | packages/agentiam-core/src/agentiam_core/hashing.py:92-97 | an instant is a string whose fields read back to its own, fractions of a second dropped |
| `CanonicalLaws.NegativeZeroDiffers` | packages/agentiam-core/src/agentiam_core/hashing.py:72-89 | the two zeros have different bytes |
| `CanonicalLaws.MomentsCollapse` | packages/agentiam-core/src/agentiam_core/hashing.py:92-97 | instants share their bytes exactly when they fall in one second |
| `CanonicalLaws.StringsCollapse` | packages/agentiam-core/src/agentiam_core/hashing.py:45-69 | strings share their bytes exactly when their normal forms agree |
| `Chain.LinkBinds` | packages/agentiam-core/src/agentiam_core/hashing.py:184-198 | equal links have equal predecessors and canonically equal records |
| `Chain.HeadBindsHistory` | packages/agentiam-core/src/agentiam_core/hashing.py:184-198 | intact chains with equal heads have the same length and the same canonical record everywhere |
| `Chain.TamperingMovesTheHead` | packages/agentiam-core/src/agentiam_core/hashing.py:184-198 | a record altered, dropped or moved anywhere changes the head |
| `Chain.VerifyChain` | packages/agentiam-controlplane/src/agentiam_controlplane/db/audit.py:173-228 | verifies exactly when every row links to the one before it and the head counts them all; otherwise names the first bad row, a miscount, or the first row with no canonical form |
| `Chain.ChainedKeeps` | packages/agentiam-controlplane/src/agentiam_controlplane/db/audit.py:101-170 | appending keeps an intact chain intact, in front of what is added, in order |
| `Chain.IntactIff` | packages/agentiam-controlplane/src/agentiam_controlplane/db/audit.py:173-213 | a chain is intact exactly when rows are numbered from one, each names the hash stored with the one before, and each is stored with the hash of the very bytes of its link |
| `Chain.AppendsIff` | packages/agentiam-controlplane/src/agentiam_controlplane/db/audit.py:101-170 | a batch is appended exactly when each entry not yet stored has a canonical form and none of those comes twice |
| `Chain.UnseenSelected` | packages/agentiam-controlplane/src/agentiam_controlplane/db/audit.py:134-166 | what is appended is the entries not yet stored, each once, in the order of the batch |
| `Chain.AuditStore.Append` | packages/agentiam-controlplane/src/agentiam_controlplane/db/audit.py:101-170 | one transaction chains exactly the entries not yet stored, or changes nothing |
| `Chain.RetryAppendsNothing` | packages/agentiam-controlplane/src/agentiam_controlplane/db/audit.py:101-170 | delivering a stored batch again appends nothing |
| `Chain.AnyHistoryVerifies` | packages/agentiam-controlplane/src/agentiam_controlplane/db/audit.py:173-228 | any encodable records have a chain that verifies: the check alone does not pin a history |
| `Emitter.NothingAcceptedGoesMissing` | packages/agentiam-pep/src/agentiam_pep/emitter.py:192-336 | over every interleaving of emits and writes: accepted is finished, pending and queued in order; losses are exactly rejections; buffered stays under capacity plus one batch |
| `Emitter.OnlyRejectionsLose` | packages/agentiam-pep/src/agentiam_pep/emitter.py:293-329 | with no rejection nothing is ever lost, however often writes fail |
| `Emitter.ClosedAcceptsNothing` | packages/agentiam-pep/src/agentiam_pep/emitter.py:192-212 | after closing nothing more is accepted, over any run |
| `Emitter.WriteIsARun` | packages/agentiam-pep/src/agentiam_pep/emitter.py:293-329 | the emitter's write is a run of the steps: claim, emits, reply |
| `Emitter.FailureEndsFlushIffPending` | packages/agentiam-pep/src/agentiam_pep/emitter.py:245-262 | a failed write ends a quiet flush exactly when its batch was already pending |
| `Emitter.QuietFlushEnds` | packages/agentiam-pep/src/agentiam_pep/emitter.py:245-262 | with no emits meanwhile a flush ends whatever the sink goes on answering, within two writes a queued record and one for a pending batch |
| `Emitter.DecisionEmitter.Emit` | packages/agentiam-pep/src/agentiam_pep/emitter.py:192-212 | queued, dropped and counted, or refused, by policy and capacity |
| `Emitter.DecisionEmitter.ClaimBatch` | packages/agentiam-pep/src/agentiam_pep/emitter.py:293-305 | the fill loop takes the oldest records up to the batch limit, unless a batch is pending |
| `Emitter.DecisionEmitter.WriteBatch` | packages/agentiam-pep/src/agentiam_pep/emitter.py:264-329 | claim, what is emitted meanwhile, and the sink's answer |
| `Emitter.DecisionEmitter.Flush` | packages/agentiam-pep/src/agentiam_pep/emitter.py:245-262 | ends; leaves something only after a failed write; tries no batch more than twice |
| `Gateway.Authorize` | packages/agentiam-pep/src/agentiam_pep/pipeline.py:346-413 | exactly when a request goes through; then its money is held and, under the refusing policy, its record is queued; a refused one leaves every lease as it was and, where the buffer has room, exactly one record, of an escalation or a denial; a full buffer is counted as the policy says |
| `Gateway.RefundUndoes` | packages/agentiam-pep/src/agentiam_pep/pipeline.py:387-396 | refunding what was held restores every lease |
| `Gateway.Settle` | packages/agentiam-pep/src/agentiam_pep/pipeline.py:415-441 | settles locally and enqueues one settlement of the lease held now; an exact one leaves the lease unchanged |
| `Revocation.FilterFirstIsExact` | packages/agentiam-pep/src/agentiam_pep/revocation.py:212-233 | asking the filter first never changes the answer, however full it is |
| `Revocation.RevocationTakesHold` | packages/agentiam-pep/src/agentiam_pep/revocation.py:212-258 | over any run of lost, repeated or reordered pushes, failing or overlapping pulls and numbers out of order but above every cursor: past the staleness limit plus one latency an id in the log is revoked or the lookup raises |
| `Revocation.OnlyTheRevoked` | packages/agentiam-pep/src/agentiam_pep/revocation.py:239-303 | every log entry up to the cursor is held, and nothing outside the log is called revoked |
| `Revocation.PushTakesHold` | packages/agentiam-pep/src/agentiam_pep/revocation.py:296-303 | a message that arrives takes hold at once and over any later run |
| `Revocation.FailedPullMergesNothing` | packages/agentiam-pep/src/agentiam_pep/revocation.py:239-258 | a pull that failed merges nothing later |
| `Revocation.TakesHoldIffAboveCursors` | packages/agentiam-pep/src/agentiam_pep/revocation.py:212-258 | from any sound state, a new revocation takes hold in every timely run if and only if its number is above every cursor passed or about to be set |
| `Revocation.NeverPulledIff` | packages/agentiam-pep/src/agentiam_pep/revocation.py:239-258 | an entry no answer in flight carries is in no answer of any later run if and only if every cursor has reached it |
| `Revocation.AfterIs` | packages/agentiam-controlplane/src/agentiam_controlplane/db/revocations.py:111-128 | an entry visible when the server reads is in the answer exactly when its number exceeds the cursor asked from |
| `Revocation.StepKeepsInv` | packages/agentiam-pep/src/agentiam_pep/revocation.py:239-303 | every step keeps what the cursor, the freshness stamp and each pull in flight stand for |
| `Revocation.LateCommitIsMissed` | packages/agentiam-controlplane/src/agentiam_controlplane/db/revocations.py:111-128 | the run: a number committed below the cursor is never pulled, and its id is called clear for any length of time |
| `Revocation.RevocationSet.IsRevoked` | packages/agentiam-pep/src/agentiam_pep/revocation.py:212-233 | exact membership, or an error exactly when no pull is fresh |
| `Revocation.RevocationSet.PullOnce` | packages/agentiam-pep/src/agentiam_pep/revocation.py:239-258 | the merge loop; cursor and stamp move only on success |
| `Revocation.RevocationSet.HandlePush` | packages/agentiam-pep/src/agentiam_pep/revocation.py:296-303 | set and filter grow together; an unreadable message changes nothing |
| `Extractor.ObjectPairsHook` | packages/agentiam-pep/src/agentiam_pep/extractor.py:87-96 | the loop keeps the last value of each key and which keys came twice |
| `Extractor.HookedAnswers` | packages/agentiam-pep/src/agentiam_pep/extractor.py:87-96 | the object answers for a key as the pairs do: present, last value, sent twice |
| `Extractor.Collect` | packages/agentiam-pep/src/agentiam_pep/extractor.py:391-403 | every value of every name is kept, in order |
| `Extractor.ResolveBody` | packages/agentiam-pep/src/agentiam_pep/extractor.py:421-436 | the path loop: absent, one value, or ambiguous at the first repeated key on the way |
| `Extractor.WalkIsUnanimous` | packages/agentiam-pep/src/agentiam_pep/extractor.py:421-436 | a path walked without refusal is walked alike by every parser |
| `Extractor.ScalesWhateverFits` | packages/agentiam-pep/src/agentiam_pep/extractor.py:348-374 | every quantity with at most four places is read as its one scaled integer |
| `Extractor.Extract` | packages/agentiam-pep/src/agentiam_pep/extractor.py:462-547 | refuses exactly when some source is ambiguous or does not convert; otherwise one argument per source that reads something, and no other |
| `Extractor.UpstreamReadsTheSame` | packages/agentiam-pep/src/agentiam_pep/extractor.py:406-547 | whatever rule an upstream has for repetitions, it reads the checked argument or the same absence |
| `Extractor.RepetitionSplitsUpstreams` | packages/agentiam-pep/src/agentiam_pep/extractor.py:406-418 | two different values under one parameter are refused, and two upstreams would read them differently |
| `Extractor.RefusesIff` | packages/agentiam-pep/src/agentiam_pep/extractor.py:348-547 | a source refuses exactly when its value was sent twice, or was sent and means no argument of its type |
| `Extractor.ArgumentIs` | packages/agentiam-pep/src/agentiam_pep/extractor.py:348-547 | otherwise there is an argument exactly when a value was sent, and it is what that value means: ten thousand times a number, exactly, or a text |

## Left out

- Biscuit signatures, token parsing and the engine's limits, Cedar evaluation, Ed25519, Redis, HTTP, OTEL, the database and its isolation are foreign. The engine, policy, drift and revocation answers given to `decide` are arbitrary values; each ledger call is one serialized transaction.
- Drift scoring, the policy cache, activation, escalation approval, settings files, the console, the demo and report scripts, the SDK context and decorators and the NL compiler are not part of this model.
- `Overspend.BoundedOverspend` and everything built on it settles each call for exactly what it reserved, as the gateway calls it; refunds and overruns are proved on one lease only (`Lease.ReserveCommitConserves`).
- `Settlement.SettlementExactlyOnce` makes its claim about the final books only while nobody else moves them and every attempt replays, as `Ledger.BatchIsSinglyIff` and `Ledger.PartReplaysIff` say exactly; the FIFO and counter claims hold regardless.
- `Settlement.SettlementQueue.Drain` has no second flush beside it; the drain task and other flushes are the interleaving of the step system, one offer at a time.
- `Pool.LeasePool.Reserve` and the rest of that class keep leases as values in one map, so aliasing of lease objects is not modelled; instants, amounts and the presence of an event loop are parameters.
- `PoolLifecycle.ClosedPoolReturnsEverything` covers any number of `aclose()` calls one after another, finished or broken off, not two at once.
- `Datalog.CompilerPreservesMeaning` covers scalar arguments compared with a value of their own type. An ordering against a text argument goes through a text-to-number conversion that is not part of this model.
- `Attenuation.NarrowsIffImplies` takes numeric arguments as dense, so a strict bound between two scaled values counts as a difference.
- Budget limits on digits (twenty in all, ten to the sixteenth at most) and Python's 28-digit decimal context are not modelled; decimals are exact.
- The character classes of the block reader's patterns are the ASCII ones: other Unicode digits are not recognized here. Years before 1000 are outside date literals and the canonical encoding.
- `BlockReader.ClaimsAccountedFor` takes the label rule and the reading of a depth as given functions.
- `Faithful.MintedBlockReadsBack` takes the renderer as the block reader's own documentation describes it: nothing escaped, facts ahead of checks, one statement a line. Strings may hold backslashes; quotes anywhere, and commas or brackets in sets, are excluded.
- `CanonicalLaws.MappingOrderForgotten` says nothing about mappings whose keys become equal after normalization: the code then orders by value, which this model leaves open (`Unmodelled`). Python's limit on integer text and lone surrogates are not modelled.
- `Chain.HeadBindsHistory` idealizes the hash as injective, and normalization as idempotent and silent on ASCII.
- `Chain.AuditStore.Append` gives the table's unique constraint on ids and the canonicalization error one outcome: nothing is stored.
- `Emitter.DecisionEmitter.Flush` interleaves emits during each write but not a second writer, and meets a list of answers; the drain task is covered by the step system, where only one writer is ever inside a write, and endless answers by `Emitter.QuietFlushEnds`. What a sink stored before failing is covered by `Chain.RetryAppendsNothing`.
- `Gateway.Authorize` starts from the verdict; extraction, verification and `decide` are the other modules. Records carry only what the properties need.
- `Revocation.RevocationTakesHold` measures freshness on one clock and bounds the time from the server's read to the client's merge by a latency; pruning of expired entries is not modelled.
- `Extractor.Extract` starts from a matched route and from decoded query pairs, header pairs and a JSON tree. The header claim is about `extract` alone: the pipeline collapses repeated headers before calling it. The body-size limit is not modelled.
- Splitting a budget among children and REVOKE are not modelled; `promised` stands for what was given away.
