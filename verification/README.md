# OpenInfra control plane: a verified model

OpenInfra leases other people's machines. Its control plane moves workloads, leases, invoices,
provider registrations and validator evidence through long-lived state machines kept partly in
Postgres and partly on a Substrate chain, and it carries hand-written codecs and arithmetic that
must be exact. This project models those machines, codecs and calculations and proves what they
guarantee over all inputs and all runs.

`dafny verify dfyconfig.toml` checks the whole project (Dafny 4.11).

How the model is cut:

- A SQL transaction or row-locked section is one atomic step. A runtime dispatchable is one step
  on the storage it touches. Everything that can interleave in the system (workers, heartbeats,
  stop requests, concurrent submissions, a reconciler beside the join service) interleaves step
  by step in the model, and the theorems quantify over every sequence of steps.
- SHA-256, BLAKE2b, Ed25519 and the database's reading of uuid text are parameters. Collision
  freedom is asked for only where a row says so.
- Backends, RPC nodes, agents and clocks answer through inputs that range over everything they
  could answer; times are integers.
- int64, uint64 and uint32 wrap-around, truncating conversions and run-time panics are written
  out wherever the source has them.
- Code that updates things in place is a class or a method with loops, proved equal to a
  function on values; the theorems are about the functions.

| files | what they model |
|---|---|
| Workloads, LeasePallet, Lifecycle*, Worker | the workload store, the lease pallet, and every interleaving of workers, owners, heartbeats and the chain |
| Backoff | the retry delay both retry loops compute |
| WireGuard* | the peer manager: rotating port allocation with rollback |
| Price, Signing, Metering* | charges, signed bytes, and the usage ledger under concurrent submissions |
| Scheduler, Sorting, Ranking | scoring, ranking and placing |
| Committee, Paging, ValidatorLoop, ValidatorDaemon | committees, the provider scan, and the validator's polling loop |
| Rounds, Outliers, Disputes, ReputationScale | on-chain scoring rounds, what one score can do to one, and which round's score is in force |
| Bytes, CompactCodec, Extrinsic, ChainCodecs | SCALE compact integers ("Length and Compact Encoding", section A.2.2.1 of the Polkadot Protocol Specification), signed extrinsics and storage readers |
| Registrar, LeaseRegistrar, RegistryRuns | tip bumping, the calls that activate providers and leases, and the provider registry's bonds |
| AvailabilityPallet, AvailabilityStorage | challenges and proofs on chain |
| Market, MarketReconciler | resource-market convergence |
| Join, JoinRuns, JoinStore, Reconcilers | joining as a provider and the registration outbox |

## Where the code stops short

Each of these is a property one would expect, shown to fail by a lemma with an input, a family
of inputs or a run, and bounded by the exact condition under which it does hold.

- A heartbeat can make a workload RUNNING with no overlay peer, and STOPPED with its lease
  still Active: RUNNING is ready exactly when the peer is managed, STOPPED is cleaned up exactly
  when some worker saw the lease Completed. A slow deploying worker can attach a peer behind a
  STOPPED workload. A stop can be finished exactly when a lease had been assigned; any other
  stays STOPPING and uses up no attempt.
- Overlay addresses are distinct exactly for ranges of at most 62500 ports, and the addresses
  that attaching without a fixed address programs exactly for a single port. A peer is attached
  exactly when it is not half revoked, and Allocate hands out half-revoked ones. A failed attach
  whose rollback fails too leaves its key in the backend.
- A usage summary that is no duplicate leaves neither an invoice nor a rejection row exactly when
  its workload id is no uuid, or when it passes every check but holds a value beyond bigint. Ids
  of 2^32 bytes break the signed layout.
- Resource fit is 10000 for whatever fits exactly while `available * 10000` stays in int64.
- A minimum reputation is honoured for every record exactly when it does not wrap uint32 times
  10000, or wraps to more than the scale holds.
- The compact reader takes integers past 64 bits modulo 2^64. The account-vector and offer
  readers panic on certain length prefixes instead of reporting an error.
- The activation steps for a provider do not make Active one whose bond is below the minimum
  stake, and a new one can have no bond. An Active provider's bond covers the minimum exactly as
  long as none is withdrawn while Active or reinstated from suspension without enough.
- A provider that lets its last challenge slots expire can never be challenged again; any other
  can while ids and blocks last. An accepted proof can move the recorded heartbeat back.
- The trimmed mean is documented as immune to one outlier. It is immune exactly when the mean
  without the others' greatest score equals the mean without their least, and one score can give
  it every value between the two. The latest standing round's score is in force exactly as long
  as no round is disputed, or cleared of a dispute, after which another closed that still stands.
- The market announces again, in every pass, a provider that lacks some resource or is not active.
- A provider is Active exactly when an activation commit came after the last revocation, and a
  registration FINALIZED exactly when one came after the last recorded failure: a commit in flight
  overrides a revocation, and a late failure takes a finalized registration back.
- An Active provider that joins again is left unanswered if the chain cannot be read, and a
  repeated request can be told another status, and another time, than it was the first time.
- Two replicas can count more attempts for a registration than are allowed, and take it from
  FAILED back to RETRY, if both hold it at once.

## Model

| member | source | states |
|---|---|---|
| LifecycleClaims.AttemptBudget | control-plane/internal/orchestrator/worker.go:254-480 | in every run under every interleaving, failed attempts equal the stored count and never exceed MaxAttempts, a workload that is not FAILED has used fewer, and one not stopped got where it is by exactly as many transitions as its position, five on reaching RUNNING |
| LifecycleClaims.NoLostUpdate | control-plane/internal/workloadapi/postgres.go:212-444 | in every run a worker's commit changes the row only if the row is still exactly the one claimed, and then moves it forward: nothing another actor wrote after the claim is overwritten |
| Workloads.ClaimIff | control-plane/internal/workloadapi/postgres.go:212-231 | a row is claimed exactly when it has work left to do and no worker holds it or the claim has run out |
| Workloads.HeartbeatIff | control-plane/internal/workloadapi/postgres.go:279-296 | a heartbeat changes the row exactly when it is from the row's own provider and reports what may follow its state (RUNNING only with a container known); what it changes, and that it ends any claim |
| Workloads.StopIff | control-plane/internal/workloadapi/postgres.go:113-160 | the first stop request is recorded, stops what is not over and ends any claim; any other changes nothing |
| LifecycleEvidence.RunningHasLease | control-plane/internal/orchestrator/worker.go:287-428 | in every run a RUNNING workload has seen, finalized, the Active lease with its id, provider key, resource hash and term, and the chain holds that identity; made RUNNING by a worker, its container was confirmed after that and (with an overlay) its peer attached after that |
| LifecycleEvidence.StoppedIsCleanedUp | control-plane/internal/orchestrator/worker.go:429-453 | in every run a workload a worker made STOPPED had, after the stop request, its container stop confirmed, then its peer revoked, then its lease seen Completed, which it still is |
| LifecycleLimits.RunningIsReadyWithoutHeartbeat | control-plane/internal/workloadapi/service.go:247-302 | if no heartbeat reports a running container, RUNNING means lease, container and peer in that order |
| LifecycleLimits.HeartbeatRunsWithoutPeer | control-plane/internal/workloadapi/postgres.go:279-296 | for every configuration with an overlay, a run that ends RUNNING with no peer ever attached |
| LifecycleLimits.HeartbeatStopsWithLeaseActive | control-plane/internal/workloadapi/service.go:289-302 | for every configuration, a run that ends STOPPED with the lease Active on chain |
| LifecycleLimits.PeerStaysGoneIff | control-plane/internal/orchestrator/worker.go:313-453 | past DEPLOYING with no managed peer, the peer stays gone in every continuation exactly when no worker in flight still has its attach ahead |
| LifecycleLimits.StoppedCanHoldPeer | control-plane/internal/orchestrator/worker.go:402-446 | for every configuration with an overlay, a run in which one worker cleans up and marks STOPPED and a slower one then attaches a peer |
| LifecycleLimits.StopFinishesIff | control-plane/internal/orchestrator/worker.go:429-453 | from every reachable STOPPING state some continuation leaves STOPPING exactly when the row has a lease id; without one no continuation even counts an attempt |
| LifecycleLimits.StopRequestFinishesIff | control-plane/internal/workloadapi/postgres.go:212-444 | an owner's first stop of a live workload can be finished exactly when the workload was past SCHEDULING when it was asked for |
| LifecycleReady.RunningIsReadyIff | control-plane/internal/orchestrator/worker.go:287-428 | in every run, whoever made the workload RUNNING, the ordered evidence (lease, container, peer) is all there exactly when the peer is managed now; without an overlay, exactly when a worker had a container confirmed |
| LifecycleReady.HeartbeatIsReadyIff | control-plane/internal/workloadapi/service.go:247-302 | a heartbeat that reports a DEPLOYING workload as running makes it ready exactly when its peer is managed at that moment |
| LifecycleReady.StoppedIsCleanIff | control-plane/internal/orchestrator/worker.go:429-453 | in every run, whoever marked the workload STOPPED, its ordered cleanup (stop, revoke, lease Completed) is all there exactly when some worker saw the lease Completed |
| LifecycleReady.PeerIsManagedIff | control-plane/internal/orchestrator/worker.go:402-446 | in every run the overlay peer is managed exactly when some worker attached it and none has revoked it since |
| LifecycleReady.GiveUpIff | control-plane/internal/orchestrator/worker.go:254-480 | a worker gives an attempt up exactly where the source retries: before placing, leasing or deploying, between deploying and attaching (the container may then be stopped), and before a stopping workload's lease is closed |
| LifecycleLease.SeeLeaseActive | control-plane/internal/blockchainbridge/registrar.go:200-283 | what the lease registrar returns over reads of finalized heads makes the lifecycle's lease effect possible at one of them; if the first head read allows the effect, the registrar returns it |
| LifecycleLease.SeeLeaseCompleted | control-plane/internal/blockchainbridge/registrar.go:116-197 | the same for the closing effect, which then stays possible at every head the pallet reaches from there |
| Worker.Worker.ProcessOne | control-plane/internal/orchestrator/worker.go:254-457 | one pass is this worker's own claim, the effects of the claimed state in the source's order up to the first that fails, and the ending that verdict calls for, and no other step; advanced out of SCHEDULING the row holds the selected provider, the next lease id and the resource hash, out of DEPLOYING the deployed container, and every other field as claimed; otherwise it is as claimed, one attempt poorer, or FAILED at the last; which of these follows exactly from what the dependencies answer |
| Worker.Worker.EnsureLease | control-plane/internal/orchestrator/worker.go:287-306 | the LEASE_PENDING effects run in order to the first that fails and leave the row alone; they end ready to commit exactly when the definition, the directory and the chain answer, silent exactly when there is no definition or lease id |
| Worker.Worker.EnsureDeployed | control-plane/internal/orchestrator/worker.go:313-428 | the same for DEPLOYING: probe, deploy, attach |
| Worker.Worker.EnsureStopped | control-plane/internal/orchestrator/worker.go:429-453 | the same for STOPPING: stop, revoke, complete; silent exactly when there is no lease id |
| Worker.Worker.Finish | control-plane/internal/orchestrator/worker.go:467-480 | a failed effect costs one attempt or, at the last, fails the workload; a successful one commits exactly the provider, lease, hash or container that its state calls for; an expired claim changes nothing |
| LeasePallet.CallsEvolve | blockchain/pallets/lease/src/lib.rs:120-200 | no call changes a stored lease's identity, leaves Completed or re-enters Created |
| LeasePallet.CreateIff | blockchain/pallets/lease/src/lib.rs:120-162 | a lease is created, Created and with the fields given, exactly under a fresh id for an eligible provider and a term that fits |
| LeasePallet.UpdateIff | blockchain/pallets/lease/src/lib.rs:166-200 | a lease changes state exactly along the five edges, and expires no sooner than its end |
| LeasePallet.LeaseBlocksIsCeiling | control-plane/internal/orchestrator/worker.go:300-300 | for every duration the submission path admits, the term is the ceiling of duration over block time and one the registrar accepts |
| Backoff.BackoffFor | control-plane/internal/orchestrator/worker.go:488-505 | the doubling loop with its wrap-around test computes min(base * 2^min(attempt-1, 16), max) exactly for every int64 base and max |
| Backoff.DelayMonotone | control-plane/internal/providerjoin/reconciler.go:201-218 | that delay never shrinks with the attempt and never exceeds max |
| WireGuardRuns.ReserveFirstFree | control-plane/internal/wireguard/wireguard.go:208-227 | reservation returns the first free port in cyclic order from the cursor and moves the cursor past it; it fails exactly when every port is used, the cursor back where it was |
| WireGuardRuns.LivePeersDistinct | control-plane/internal/wireguard/wireguard.go:95-206 | after any operations live peers hold distinct in-range ports and each is configured in the backend |
| WireGuardRuns.AllocateAllOrNothing | control-plane/internal/wireguard/wireguard.go:95-147 | Allocate manages exactly the peer it returns or leaves the managed peers as they were; it reports exhaustion exactly when the request is in order and every port is used |
| WireGuardRuns.AllocateIff | control-plane/internal/wireguard/wireguard.go:95-147 | a peer is handed out exactly for an unexpired request in order whose workload has one under the same lease, or has none while a port is free and the backend does its part; a new one has the request's workload, lease, container and expiry, a key of its own, the first free port, and the addresses asked for or that port's |
| WireGuardRuns.RefusalIs | control-plane/internal/wireguard/wireguard.go:95-147 | every refusal names the first thing that is wrong |
| WireGuardRuns.RevokeIff | control-plane/internal/wireguard/wireguard.go:179-199 | a revoke succeeds, and removes the peer, exactly when there is none or both backend calls succeed |
| WireGuardRuns.BackendMatchesIff | control-plane/internal/wireguard/wireguard.go:133-199 | after any operations the backend holds the managed peers and the keys of attaches whose rollback failed, so exactly the managed peers if and only if there is no such key |
| WireGuardRuns.StrayHappens | control-plane/internal/wireguard/wireguard.go:133-143 | for every range, one operation that leaves a key behind |
| WireGuard.AddressCollision | control-plane/internal/wireguard/wireguard.go:229-231 | two ports share an overlay address exactly when they are congruent modulo 62500, decimal rendering included |
| WireGuard.AddressExamples | control-plane/internal/wireguard/wireguard.go:229-231 | ports 0 and 51820 have the addresses 10.254.0.1/32 and 10.254.207.71/32 |
| WireGuardRuns.AddressesDistinctIff | control-plane/internal/wireguard/wireguard.go:208-231 | live overlay addresses are distinct in every run exactly when the range spans at most 62500 ports |
| WireGuardRuns.AttachedAddressesDistinctIff | control-plane/internal/wireguard/wireguard.go:169-175 | attached without fixed addresses, live peers are programmed with different addresses in every run exactly when the range has a single port |
| WireGuardRuns.AllocationIsAttachedIff | control-plane/internal/wireguard/wireguard.go:102-199 | after any operations a live peer is attached exactly when its workload is not half revoked (a revoke detached it and did not remove it, and none has removed it since), nothing but live peers is, and so is what Allocate hands out next |
| WireGuardRuns.HalfRevokedIsHandedOut | control-plane/internal/wireguard/wireguard.go:179-199 | for every range, two operations after which Allocate hands out a detached peer |
| WireGuardManager.Manager.ReservePort | control-plane/internal/wireguard/wireguard.go:208-227 | the rotating search loop with its inner scan computes the reservation and finds none exactly when the range is full |
| WireGuardManager.Manager.Allocate | control-plane/internal/wireguard/wireguard.go:95-147 | the peer map, cursor and backend after the call, and the answer, for every backend outcome; the map unchanged on failure |
| WireGuardManager.Manager.Revoke | control-plane/internal/wireguard/wireguard.go:179-199 | the state after the call for every backend outcome; the peer is gone on success |
| WireGuardManager.Manager.Rotate | control-plane/internal/wireguard/wireguard.go:201-206 | revoke then allocate, stopping at a failed revoke |
| Price.CheckedMulExact | control-plane/internal/metering/price.go:126-135 | divide-back flags exactly the products that do not fit in 64 bits |
| Price.ChargeExact | control-plane/internal/metering/price.go:79-124 | a charge is computed exactly when egress plus ingress and the exact total fit in 64 bits, and then every amount is the exact value |
| Signing.BuildSignedBytes | control-plane/internal/metering/signing.go:42-77 | the appended buffer is domain, prefixed ids and fixed-width numbers in order |
| Signing.LayoutIs | control-plane/internal/metering/signing.go:42-77 | what stands where: 22 bytes of domain, each id after its length in four big-endian bytes, then the numbers |
| Signing.NumbersLayout | control-plane/internal/metering/signing.go:49-58 | the ten numbers, each big endian at its own offset: sequence, period, schema version, and the six usage values in order |
| Signing.DomainIs | control-plane/internal/metering/signing.go:18-18 | the domain is the ASCII text openinfra-metering-v1 and a zero byte |
| Signing.SignedBytesInjective | control-plane/internal/metering/signing.go:42-77 | summaries with ids shorter than 2^32 bytes and equal signed bytes are equal |
| Signing.LongIdsCollide | control-plane/internal/metering/signing.go:62-65 | the bound is tight: an id of 2^32 bytes can move between the id fields unseen |
| MeteringDecisions.ProceedIff | control-plane/internal/metering/service.go:193-265 | a submission reaches the ledger exactly when its ids are there, its sequence is positive, its period at most an hour forward and ended within five minutes of now, its schema 1, its signature verifies for a known provider, its workload is that provider's, its lease text is that workload's lease, and its usage sums to less than 2^64; the request then carries what was submitted and looked up |
| MeteringDecisions.DecisionIs | control-plane/internal/metering/service.go:193-310 | every refusal, and every failed lookup, is that of the first of these tests that fails |
| MeteringDecisions.EvidenceIsFounded | control-plane/internal/metering/service.go:193-288 | under every interleaving, evidence row i and invoice line i came from one submission that passed all of these tests, with its provider, summary, workload and lease, for that workload's consumer at the current prices |
| MeteringDecisions.RejectionSays | control-plane/internal/metering/service.go:313-328 | a rejection row names the submitter, the workload, the sequence (none for zero), the reason and the hash of what was signed; there is none exactly when the workload id is no uuid |
| MeteringDecisions.LeaseTextIs | control-plane/internal/metering/service.go:236-237 | a decimal number with or without a sign is read as itself exactly when it is within int64 |
| MeteringDecisions.UuidTextIs | control-plane/migrations/000016_metering_evidence_and_invoices.sql:46-49 | sixteen bytes spelled with or without hyphens, in small letters or capitals, bare or braced, are read back; with anything after them they are no uuid |
| MeteringDecisions.BigintIs | control-plane/internal/metering/postgres.go:284-302 | a request fits the columns exactly when its sequence, its six usage values and its five amounts are all below 2^63 |
| MeteringRuns.SourceLedgerIsExact | control-plane/internal/metering/postgres.go:67-168 | under every interleaving of submissions each cursor is its stream's largest accepted sequence, accepted sequences of a stream strictly increase, evidence i has exactly invoice line i at its exact charge and hash, and the billed total is the exact worth of all accepted usage |
| MeteringRuns.LedgerIsExact | control-plane/internal/metering/service.go:193-288 | the same for any price table whose charges are exact |
| MeteringRuns.CallIsSteps | control-plane/internal/metering/service.go:193-288 | a call's validation, transaction and audit insert with nothing between them leave exactly the ledger of the whole call, and no call open |
| MeteringRuns.AcceptOrUnchanged | control-plane/internal/metering/postgres.go:67-168 | an accepted request advances its cursor to its sequence and appends one evidence row and line; every other answer and error leaves all cursors, evidence and invoices as they were |
| MeteringRuns.AcceptIffAhead | control-plane/internal/metering/postgres.go:90-118 | a request within bigint is accepted exactly when its sequence is past the cursor |
| MeteringRuns.StaleCases | control-plane/internal/metering/postgres.go:170-201 | a stale sequence is out of order exactly when no row holds it, and otherwise a duplicate exactly when the stored hash is equal, with that row's line and total |
| MeteringRuns.DuplicateIsIdentical | control-plane/internal/metering/postgres.go:170-201 | where the hash does not collide, Duplicate means this provider's identical summary was accepted, and the returned total is the freshly computed charge |
| MeteringRuns.UuidsAreShort | control-plane/migrations/000016_metering_evidence_and_invoices.sql:46-49 | as the row above asks, no text longer than the signed layout can hold is a uuid in the syntax the database reads |
| MeteringRuns.ResubmissionIsDuplicate | control-plane/internal/metering/postgres.go:170-201 | resubmitting an accepted summary, whatever was accepted since, returns its own row, line and total and bills nothing |
| MeteringRuns.NoTraceIff | control-plane/internal/metering/service.go:193-328 | with a database that answers and commits, a call ends in an error exactly when its workload id is no uuid, whatever else is wrong with it, or it passed every check but a value exceeds bigint, and that leaves no trace; a duplicate bills nothing; every other refusal adds exactly its rejection row |
| MeteringRuns.EmptyIdLeavesNoTrace | control-plane/migrations/000016_metering_evidence_and_invoices.sql:89-98 | a summary with an empty workload id is refused for its bounds and the refusal is lost, the column being a uuid |
| MeteringRuns.HugeValueLeavesNoTrace | control-plane/internal/metering/postgres.go:284-302 | any submission that passes every check still does with GPU seconds of 2^63, and is then lost |
| MeteringStore.Store.CheckBigintRange | control-plane/internal/metering/postgres.go:289-302 | the loop over the twelve values accepts exactly those that all fit int64 |
| MeteringStore.Store.AcceptEvidence | control-plane/internal/metering/postgres.go:67-168 | the tables and the result after the transaction, rolled back on error |
| MeteringStore.Store.RecordUsage | control-plane/internal/metering/service.go:193-288 | the tables and the answer after the whole call, for every commit and audit outcome, decided as MeteringDecisions.ProceedIff and DecisionIs state |
| Scheduler.ScoredIffEligible | control-plane/internal/scheduler/rank.go:276-390 | a candidate is scored exactly when it has an endpoint, covers every requested resource (after overlay overhead), is in the zone and VM-capable if those are asked for, and its record reaches the minimum, whatever wraps around |
| Scheduler.ReasonIs | control-plane/internal/scheduler/rank.go:276-390 | an excluded candidate's reason is the first test it fails, each said in terms of the amounts, the zone, the VM flag and the record |
| Scheduler.ReachesIs | control-plane/internal/scheduler/rank.go:366-375 | below the wrap a record in scale reaches a minimum exactly when its five dimensions add up to five times as much |
| Scheduler.MinimumHonouredIff | control-plane/internal/scheduler/rank.go:366-375 | that is so for every record in scale exactly when the minimum times 10000 fits uint32, or wraps to more than the scale holds |
| Scheduler.HugeMinimumReached | control-plane/internal/scheduler/rank.go:366-375 | on the chain's scale of 1000 a perfect record reaches a minimum of 429497 |
| Scheduler.EffectiveIs | control-plane/internal/scheduler/rank.go:455-463 | the overlay leaves 24 parts in 25 of the bandwidth, rounded down |
| Scheduler.ScoreIsExact | control-plane/internal/scheduler/rank.go:276-411 | in scale and absent int64 overflow: fit 10000, the exact weighted reputation, total = resource weight + floor(reputation * weight / 10000), none above 10000 |
| Scheduler.DefaultsInScale | control-plane/internal/scheduler/rank.go:49-106 | the default and fallback weights each sum to 10000 |
| Scheduler.ProfilesFavour | control-plane/internal/scheduler/rank.go:49-106 | each profile weighs its own dimension most, and resources 6000, or 5000 if latency-sensitive |
| Scheduler.FitIsFullIff | control-plane/internal/scheduler/rank.go:426-438 | the fit of what is covered is 10000 exactly when the wrapped product is still large enough or negative with quotient 10000 below a multiple of 2^32 |
| Scheduler.AlwaysFullIff | control-plane/internal/scheduler/rank.go:426-438 | whatever an available amount covers fits fully exactly when that amount times 10000 stays in int64 |
| Scheduler.HugeCapacityMisscored | control-plane/internal/scheduler/rank.go:426-438 | 10^15 available for 10^15 required scores 2^32 - 8446 |
| Scheduler.BetterRecordHelps | control-plane/internal/scheduler/rank.go:398-424 | raising reputation in any dimensions keeps a candidate eligible and does not lower its total |
| Scheduler.StricterKeepsScores | control-plane/internal/scheduler/rank.go:309-375 | a candidate still eligible with the overlay on, or a zone, a VM or a minimum newly required, was eligible before with the same score |
| Ranking.Rank | control-plane/internal/scheduler/rank.go:219-254 | the loop and the sort compute filter-then-sort |
| Ranking.RankSplits | control-plane/internal/scheduler/rank.go:230-248 | ranked and excluded split the candidates, each excluded with its reason, exactly the scored ones ranked, sorted by total and then id |
| Ranking.SelectedIsBest | control-plane/internal/scheduler/rank.go:240-254 | a provider is selected exactly when one is eligible, and no eligible one comes before it |
| Ranking.RankIsTheSort | control-plane/internal/scheduler/rank.go:240-248 | any sorted permutation of distinct providers' scores is the ranking, so the sort algorithm does not matter |
| Ranking.OrderIndependent | control-plane/internal/scheduler/rank.go:219-254 | the same providers in any order give the same ranking and selection |
| Ranking.StricterIsSubsequence | control-plane/internal/scheduler/rank.go:309-375 | turning the overlay on, or newly requiring a zone, a VM or a minimum, keeps exactly the still eligible scores, in order |
| Ranking.BetterRecordKeepsPlace | control-plane/internal/scheduler/rank.go:219-254 | raising one candidate's reputation never moves it down the ranking |
| Ranking.Scheduling.SetOverlay | control-plane/internal/orchestrator/worker.go:217-220 | worker and ranker agree on whether there is an overlay |
| Ranking.Scheduling.RankableCandidates | control-plane/internal/orchestrator/worker.go:552-603 | the loop builds each provider's raw candidate and its overlay-adjusted ceilings |
| Ranking.Scheduling.Place | control-plane/internal/orchestrator/worker.go:262-286 | a provider is chosen exactly when one suits the job; it suits, no other that suits has a better total or the same and an earlier id, and it is committed against its own reported totals, bandwidth as the overlay leaves it, which cover every positive bandwidth request |
| Ranking.SuitsIff | control-plane/internal/orchestrator/worker.go:262-286 | a listed provider suits a job, in terms of what it reported, exactly when the ranker finds its candidate eligible |
| Ranking.CeilingCovers | control-plane/internal/orchestrator/worker.go:552-603 | an eligible provider's ceiling covers the requested bandwidth, because ranker and ledger use one formula |
| Committee.DrawInPlace | control-plane/internal/blockchainbridge/committee.go:72-81 | the shrinking array yields the draw's members and, in place, its leftovers |
| Committee.DrawCommittee | control-plane/internal/blockchainbridge/committee.go:61-83 | the whole computation, each index the hash of provider, round and draw reduced modulo what is left, equals the pallet's draw without replacement |
| Committee.IsAssigned | control-plane/internal/blockchainbridge/committee.go:90-97 | true exactly for members |
| Committee.CommitteeIsFair | blockchain/pallets/network-validator/src/lib.rs:988-1005 | of a duplicate-free active set: distinct active members, never the provider, min(target, candidates) of them, leftovers in order; everyone exactly when there are at most target |
| Committee.DrawPermutes | blockchain/pallets/network-validator/src/lib.rs:993-1004 | members and leftovers together are a permutation of the candidates |
| Committee.DrawPrefix | blockchain/pallets/network-validator/src/lib.rs:993-1004 | a smaller target's committee is a prefix of a larger one's |
| Committee.SeedInjective | control-plane/internal/blockchainbridge/committee.go:105-111 | every provider, round and draw hashes an input of its own |
| Committee.AnyCommittees | control-plane/internal/blockchainbridge/committee.go:61-111 | whatever committees are asked for, one for every provider and round at once, each of distinct active others and of the right size, some hash function draws exactly those: draws do not constrain each other |
| Paging.Scan | control-plane/internal/blockchainbridge/providerregistry.go:47-80 | for any number of keys the paged loop decodes each exactly once, in order, and fails exactly if one does not decode |
| Paging.ScanIsRegistry | control-plane/internal/blockchainbridge/providerregistry.go:117-128 | over a registry's storage keys that is exactly its accounts, each once |
| ValidatorLoop.AssignedWork | control-plane/internal/networkvalidator/assignment.go:36-67 | the nested loops list the assigned keys |
| ValidatorLoop.WorkIs | control-plane/internal/networkvalidator/assignment.go:36-67 | those are each once exactly the keys of the round, in every dimension not done, of listed providers other than oneself that draw one onto their committee |
| ValidatorLoop.EvidenceOnce | control-plane/internal/networkvalidator/run.go:160-285 | in every run of ticks, per key: evidence at most once and only while on the committee, pending only if done, closing first tried after the delay, then spaced, at most max(1, MaxCloseAttempts) times and exactly that often once given up, and no challenge within the retry interval of an unscored one |
| ValidatorLoop.ChallengeIs | control-plane/internal/networkvalidator/run.go:193-254 | a key is challenged unless its last unscored challenge is too recent; unscored it is only remembered, scored and accepted it is done, evidenced and pending, else left to the next tick |
| ValidatorLoop.TryCloseIs | control-plane/internal/networkvalidator/run.go:256-285 | a close is tried exactly when the delay after the evidence, and the retry interval after an earlier try, are over; the pending entry goes with the last try allowed |
| ValidatorDaemon.Daemon.ChallengeAndSubmit | control-plane/internal/networkvalidator/run.go:193-254 | the three maps after one challenge |
| ValidatorDaemon.Daemon.AttemptPendingCloses | control-plane/internal/networkvalidator/run.go:256-285 | whatever the map order, and deleting while iterating, every pending key gets exactly its one turn |
| ValidatorDaemon.Daemon.TickOnce | control-plane/internal/networkvalidator/run.go:160-191 | a tick on the maps is a tick of the proved state machine |
| Rounds.Trimmed | blockchain/pallets/network-validator/src/lib.rs:1026-1048 | the survivors and the mean |
| Rounds.AggregateOrderIndependent | blockchain/pallets/network-validator/src/lib.rs:1022-1048 | survivors and score do not depend on the order evidence came in |
| Rounds.OutlierIsContained | blockchain/pallets/network-validator/src/lib.rs:1014-1048 | with three or more submissions, whatever one says the score stays within what the others say |
| Outliers.TotalSaturates | blockchain/pallets/network-validator/src/lib.rs:1043-1046 | for every list of submissions, what is divided is the sum of the scores, but at most 2^32 - 1 |
| Outliers.OneScoreExact | blockchain/pallets/network-validator/src/lib.rs:1026-1048 | beside two or more others, one score counts for itself clamped between their least and greatest, in a mean with their inner scores |
| Outliers.OutlierRange | blockchain/pallets/network-validator/src/lib.rs:1014-1048 | as one score varies the aggregate takes exactly the values from the mean without the others' greatest score to the mean without their least |
| Outliers.ImmuneIff | blockchain/pallets/network-validator/src/lib.rs:1014-1018 | the aggregate is the same for every value of that score exactly when the two means are equal |
| Outliers.ThirdDecidesBetween | blockchain/pallets/network-validator/src/lib.rs:1014-1048 | beside any two, a third's score decides anything between them |
| Rounds.NoOneDecides | blockchain/pallets/network-validator/src/lib.rs:696-850 | in every run, a closed round's score is within what the others on it submitted, whichever one is left out |
| Rounds.RunKeeps | blockchain/pallets/network-validator/src/lib.rs:696-945 | in every run evidence is by distinct validators with distinct payloads and bounded, and a closed round's score is the aggregate of at least a quorum of it |
| Rounds.ClosedOnce | blockchain/pallets/network-validator/src/lib.rs:776-945 | a closed round keeps its score and what it was closed on; only its status moves |
| Disputes.LatestInForceIff | blockchain/pallets/network-validator/src/lib.rs:776-945 | in every run the round in force is at all times the latest standing one if and only if no call disputes, or clears of a dispute, a round after which another closed that still stands |
| Disputes.ScoreIsInForce | blockchain/pallets/network-validator/src/lib.rs:776-945 | in every run on a scale that keeps what is read and stored again, the stored score is that of the round in force, or the one it began with |
| ReputationScale.ScaleExactIff | blockchain/pallets/reputation/src/lib.rs:304-365 | reading a stored score and storing it again is exact for every score exactly when the scale divides 10000 |
| ReputationScale.ScoreInForceIff | blockchain/pallets/reputation/src/lib.rs:304-365 | on that scale the stored score is that of the round in force in every run and from every beginning exactly when the scale divides 10000, as the runtime's 1000 does |
| Disputes.StepIff | blockchain/pallets/network-validator/src/lib.rs:860-945 | the same for one call, from any state in which the latest standing round is in force and undisputed rounds lie on the standing one before them |
| Disputes.DisputeOverridesLater | blockchain/pallets/network-validator/src/lib.rs:860-898 | for every quorum and all scores, a run after which the latest round is undisputed and the score is the one from before the round disputed |
| CompactCodec.CompactUint | control-plane/internal/blockchainbridge/registrar.go:600-619 | the four modes, the last by stripping zero top bytes, give the compact form |
| CompactCodec.DecodeCompactUint | control-plane/internal/blockchainbridge/networkvalidator.go:73-102 | the case split and the shifting loop give the denoted value modulo 2^64 and its size |
| CompactCodec.RoundTrip | control-plane/internal/blockchainbridge/networkvalidator.go:73-102 | for every uint64 and any suffix, reading gives the value and exactly the bytes written |
| CompactCodec.PrefixFree | control-plane/internal/blockchainbridge/registrar.go:600-619 | no encoding is a prefix of another |
| CompactCodec.CanonicalIffShortest | control-plane/internal/blockchainbridge/networkvalidator.go:73-102 | what is read is never shorter than the writer's form of its value, and as long exactly when it is that form |
| CompactCodec.ReadsDenotedIff | control-plane/internal/blockchainbridge/networkvalidator.go:91-100 | the reader answers the integer denoted exactly when no byte past the eighth is set |
| CompactCodec.BigIntegerWraps | control-plane/internal/blockchainbridge/networkvalidator.go:91-100 | 2^64 is read as 0 |
| Extrinsic.ExtrinsicRoundTrip | control-plane/internal/blockchainbridge/registrar.go:490-513 | a reader of the wire format gets back account, nonce, tip, call and the signature over the payload itself up to 256 bytes and over its hash beyond, with an exact length prefix |
| Extrinsic.PayloadLayout | control-plane/internal/blockchainbridge/registrar.go:490-504 | the payload is the call, era, nonce, tip, spec version, transaction version and the genesis hash twice, each where the chain reads it |
| Extrinsic.PayloadInjective | control-plane/internal/blockchainbridge/registrar.go:490-504 | self-delimiting calls share a payload only if call, nonce, tip, versions and genesis are equal |
| ChainCodecs.ReadAccounts | control-plane/internal/blockchainbridge/networkvalidator.go:52-68 | the loop gives the accounts, an error or a panic |
| ChainCodecs.AccountsRoundTrip | control-plane/internal/blockchainbridge/networkvalidator.go:52-68 | every vector of fewer than 2^59 accounts is read back |
| ChainCodecs.AccountsAccepted | control-plane/internal/blockchainbridge/networkvalidator.go:52-68 | what is accepted is a count and exactly that many whole accounts |
| ChainCodecs.AccountsPanicIff | control-plane/internal/blockchainbridge/networkvalidator.go:57-61 | it panics exactly when the count is 2^59 or more and 32 times it wraps onto the bytes left |
| ChainCodecs.AccountsPanic | control-plane/internal/blockchainbridge/networkvalidator.go:57-61 | the bare prefix of 2^59 is such an input |
| ChainCodecs.ReadSubmissions | control-plane/internal/blockchainbridge/evidence.go:83-106 | the offset loop gives the submissions or an error |
| ChainCodecs.SubmissionsRoundTrip | control-plane/internal/blockchainbridge/evidence.go:83-106 | every bounded vector of in-range submissions is read back |
| ChainCodecs.SubmissionsAccepted | control-plane/internal/blockchainbridge/evidence.go:83-106 | never a panic or a part: what is accepted is a bounded count and bytes that are exactly those submissions' encoding |
| ChainCodecs.SummaryRoundTrip | control-plane/internal/blockchainbridge/availability.go:74-106 | every in-range summary is read back |
| ChainCodecs.SummaryAccepted | control-plane/internal/blockchainbridge/availability.go:74-106 | what is accepted is in range, its fixed bytes are the fields' encoding and the rest exactly the signature |
| ChainCodecs.OfferRoundTrip | control-plane/internal/blockchainbridge/resourcemarket.go:136-167 | every offer is read back |
| ChainCodecs.OfferAccepted | control-plane/internal/blockchainbridge/resourcemarket.go:136-159 | what is accepted is the fields' encoding, a length and exactly the capabilities |
| ChainCodecs.OfferPanicIff | control-plane/internal/blockchainbridge/resourcemarket.go:149-154 | it panics exactly when the claimed length reaches 2^63 less the bytes before the capabilities |
| ChainCodecs.OfferPanics | control-plane/internal/blockchainbridge/resourcemarket.go:149-154 | after any fixed fields, the prefix of 2^63 is such an input |
| Registrar.SubmitSigned | control-plane/internal/blockchainbridge/registrar.go:328-364 | at most four submissions at tips 0, 1, 2, 4, repeated only on 1014, given up only on another error or after the fourth |
| Registrar.DisplacesIff | blockchain/runtime/src/lib.rs:95-114 | against a pool that replaces on strictly higher priority, a submission gets in exactly when the nonce is free or its holder tipped at most 3 |
| Registrar.DispatchIff | blockchain/pallets/provider-registry/src/lib.rs:338-545 | a registration takes exactly a usable key not yet known, and a status moves exactly along the eight edges, from Verified to Active only with the stake |
| Registrar.PlanWorksIff | blockchain/pallets/provider-registry/src/lib.rs:338-545 | the planned steps in order make the provider Active exactly when it already is, or its bond covers the minimum stake and, if new, its key is usable |
| RegistryRuns.NewProviderWorksIff | blockchain/pallets/provider-registry/src/lib.rs:338-531 | in every reachable registry a provider it does not know has no bond and can get none, so the planned steps make it Active exactly when the minimum stake is zero and its key is usable |
| RegistryRuns.CoveredIff | blockchain/pallets/provider-registry/src/lib.rs:338-624 | in every run Active providers' bonds cover the minimum stake at all times exactly when no step withdraws an Active provider's bond or reinstates one without enough |
| RegistryRuns.StepIs | blockchain/pallets/provider-registry/src/lib.rs:338-624 | what each call does and when: a registration takes a usable key not taken, a first bond is at least the minimum, a withdrawal takes the whole bond, a slash takes what there is and suspends an Active provider it leaves short |
| RegistryRuns.ActiveWithoutBond | blockchain/pallets/provider-registry/src/lib.rs:484-507 | for every positive minimum, a run that ends with an Active provider and no bond |
| Registrar.EnsureActive | control-plane/internal/blockchainbridge/registrar.go:393-457 | the plan's steps are submitted in order at consecutive nonces until one is refused; success exactly when already Active or all were accepted and Active was read back; never without such a read |
| Registrar.WaitForActive | control-plane/internal/blockchainbridge/registrar.go:526-543 | polling succeeds exactly when Active is read before any read fails, and the read after it succeeds |
| LeaseRegistrar.EnsureLeaseActive | control-plane/internal/blockchainbridge/registrar.go:200-283 | creation only when there is no lease, activation of what is new or Created and matches; the lease returned was read Active with exactly the requested identity and term, and is returned exactly when the steps were accepted and such a read came before a failing or mismatching one |
| LeaseRegistrar.EnsureLeaseCompleted | control-plane/internal/blockchainbridge/registrar.go:116-197 | one completion call for an own Active lease, none for a Completed one; the lease returned was read Completed with the identity first read |
| LeaseRegistrar.NewLeaseWorksIff | blockchain/pallets/lease/src/lib.rs:120-162 | created and activated, a new lease ends Active and the one asked for exactly when the provider is eligible and the term fits |
| LeaseRegistrar.StepsWorkIff | control-plane/internal/blockchainbridge/registrar.go:200-283 | the steps chosen for what is stored, executed, leave the lease Active and as asked for exactly when it is so already, is so but Created, or is not there and can be created; they touch no other stored lease state |
| LeaseRegistrar.AwaitActiveIff | control-plane/internal/blockchainbridge/registrar.go:257-277 | waiting ends with the first Active read of the lease asked for, if before it there was nothing or that lease in another state |
| LeaseRegistrar.AwaitCompletedIff | control-plane/internal/blockchainbridge/registrar.go:165-188 | waiting ends with the first Completed read of the same lease, if it was read Active until then |
| LeaseRegistrar.StoredLeaseWorks | blockchain/pallets/lease/src/lib.rs:166-200 | a matching Created lease is activated, an Active one completed, identity kept |
| AvailabilityPallet.ReachableIsSound | blockchain/pallets/availability/src/lib.rs:237-395 | in every reachable state of every provider: pending ids distinct, bounded, below the next id and exactly the keys of Challenges; each id validated at most once, by its deadline and with the response it expects; accepted sequences strictly increasing, the last stored one equal to the latest proof's; bps at most 10000 and that exactly when all samples succeeded |
| AvailabilityPallet.BpsExact | blockchain/pallets/availability/src/lib.rs:365-368 | bps is at most 10000, with equality exactly when all samples succeeded |
| AvailabilityPallet.CallIff | blockchain/pallets/availability/src/lib.rs:237-395 | every call succeeds exactly when its tests hold (a response: the challenge is there, not past its deadline, and the response is the expected one) and then does exactly what it says; otherwise it changes nothing |
| AvailabilityPallet.ErrorIs | blockchain/pallets/availability/src/lib.rs:237-395 | every error names the first test that fails |
| AvailabilityPallet.ChallengeableIff | blockchain/pallets/availability/src/lib.rs:251-323 | from every reachable state some continuation issues the provider another challenge exactly when ids, blocks and lifetimes are left and it is not the case that every slot is taken by an expired challenge |
| AvailabilityPallet.JammedIsReachable | blockchain/pallets/availability/src/lib.rs:274-287 | that state is reached by letting the allowed number of one-block challenges expire |
| AvailabilityPallet.HeartbeatRegressesIff | blockchain/pallets/availability/src/lib.rs:334-395 | in every reachable state a call moves the recorded heartbeat back exactly when it is a proof in order (allowed, registered, fresh sequence, sane samples, signature of 1 to 96 bytes) observed within the maximum age but before the heartbeat |
| AvailabilityPallet.HeartbeatCanRegress | blockchain/pallets/availability/src/lib.rs:237-247 | a run from the empty state: a heartbeat, then a proof observed the block before |
| AvailabilityStorage.Pallet.IssueChallenge | blockchain/pallets/availability/src/lib.rs:251-294 | the six storage maps after the call hold every provider's new book, and the error is the first failing test's |
| AvailabilityStorage.Pallet.SubmitResponse | blockchain/pallets/availability/src/lib.rs:298-324 | the same, with swap_remove from the pending vector: success exactly for the expected response to a pending challenge in time |
| AvailabilityStorage.Pallet.SubmitProof | blockchain/pallets/availability/src/lib.rs:334-395 | the same for a proof |
| AvailabilityStorage.Pallet.SubmitHeartbeat | blockchain/pallets/availability/src/lib.rs:237-247 | the same for a heartbeat |
| Market.CountersBounded | control-plane/internal/resourcemarket/reconciler.go:151-192 | over every run of passes, withdrawal counters exist only for tracked providers and are between one and the limit |
| Market.WithdrawalsBounded | control-plane/internal/resourcemarket/reconciler.go:151-192 | while a provider stays away it is withdrawn at most as often as its counter leaves, and not at all once untracked |
| Market.ConvergesIff | blockchain/pallets/resource-market/src/lib.rs:136-173 | after one error-free pass whose calls the pallet executes, the same pass again withdraws nothing, and announces nothing exactly when every listed offer was published already or its provider is active with some of every resource |
| Market.PublishedIff | blockchain/pallets/resource-market/src/lib.rs:136-162 | after such a pass a listed offer is the desired one exactly when it was or the pallet takes it; the two rows below say what that is in reported amounts |
| Market.OfferIsReported | control-plane/internal/resourcemarket/reconciler.go:121-149 | after such a pass an offer the pallet takes is what its provider reported: memory and storage in their own fields (negative ones modulo 2^64) and the processor up to 2^32 - 1 |
| Market.TakenIff | blockchain/pallets/resource-market/src/lib.rs:136-162 | of amounts in int64, the pallet takes exactly those of an active provider with a positive processor, and memory and storage not zero |
| Market.AbsentIsWithdrawn | control-plane/internal/resourcemarket/reconciler.go:151-192 | after such a pass no offer is left of a tracked provider that was not seen |
| Market.TrackedIff | control-plane/internal/resourcemarket/reconciler.go:109-193 | a provider is tracked after a pass exactly when it was announced or found announced in it, or was tracked and is listed, unread, or still on chain for want of tries or a failed withdrawal |
| Market.WithdrawsIff | control-plane/internal/resourcemarket/reconciler.go:151-192 | a withdrawal is submitted exactly for a tracked provider listed no more whose offer is read and there and that has tries left; failing costs one, unread or used up keeps them, anything else begins anew |
| Market.NeverConverges | blockchain/pallets/resource-market/src/lib.rs:136-162 | while the pallet does not take what a listed provider offers, its offer is never published and every pass that can read the chain announces it again, however many passes, whatever else they list and whichever of their calls get through |
| Market.ExecutedFollows | blockchain/pallets/resource-market/src/lib.rs:136-173 | a pass whose calls are all executed is one of the histories the row above speaks of |
| Market.KeysNeverStale | control-plane/internal/resourcemarket/reconciler.go:121-149 | after any run of passes over the directory's listings, an id is tracked under the key it is listed with and no two ids share a key |
| MarketReconciler.Reconciler.AnnounceAll | control-plane/internal/resourcemarket/reconciler.go:121-149 | the first loop's tracking, seen set and calls |
| MarketReconciler.Reconciler.WithdrawAll | control-plane/internal/resourcemarket/reconciler.go:151-192 | whatever the map order, and deleting while iterating, each tracked provider gets exactly its one visit |
| MarketReconciler.Reconciler.ReconcileOnce | control-plane/internal/resourcemarket/reconciler.go:109-193 | the maps and the submitted calls after a pass, each announcing what Market.OfferIsReported describes; withdrawn and seen are disjoint |
| Join.RunKeeps | control-plane/internal/providerjoin/postgres.go:73-324 | in every run of one reconciler beside any callers: a provider has an outbox row, and a Pending one's is READY, RETRY or FAILED; attempts stay below the limit while more are to come; a provider is Active only after an Active status was read finalized; each challenge is spent once, before it expires, by the request that completed |
| Join.RunBrings | control-plane/internal/providerjoin/postgres.go:214-221 | in every run each provider has a completed request, so an activation never fails for want of one |
| Reconcilers.BudgetIff | control-plane/internal/providerjoin/postgres.go:272-324 | in every run of any number of reconcilers, attempts stay within the limit at all times exactly when no failure is recorded on a row whose attempts are used up, nor a last attempt recorded as one more to come |
| Reconcilers.ExclusiveStaysInBudget | control-plane/internal/providerjoin/reconciler.go:132-197 | attempts stay within the limit in every run in which no registration is fetched while it is still held |
| Reconcilers.OneReplicaStaysInBudget | control-plane/internal/providerjoin/reconciler.go:116-146 | so in every run of a single replica |
| Reconcilers.TwoReplicasOverrun | control-plane/internal/providerjoin/postgres.go:272-324 | for every configuration, a run of two replicas in which a FAILED registration gets one attempt more than allowed and, unless one is all that is allowed, is back in RETRY |
| JoinRuns.RepeatAnswersSame | control-plane/internal/providerjoin/postgres.go:84-105 | a completed request repeated after any run changes nothing and gets the same provider id and time |
| JoinRuns.CompleteIs | control-plane/internal/providerjoin/postgres.go:73-182 | which answer each complete request gets and all it changes: the stored one if it completed as it is now, else the first of unknown, spent, expired and mismatched challenge that applies, else completion |
| JoinRuns.BeginIs | control-plane/internal/providerjoin/postgres.go:37-63 | a new begin request gets the challenge made for it and is remembered with it; one made before gets its own only if it is the same |
| JoinRuns.RepeatedBeginGetsSame | control-plane/internal/providerjoin/postgres.go:37-63 | a begin request repeated after any run changes nothing and gets the challenge it got, the same but for its being spent |
| JoinRuns.FailureIsFinalIff | control-plane/internal/providerjoin/reconciler.go:146-197 | a failure marks FAILED exactly when it is the MaxAttempts-th or the key is malformed, and is then never due again; otherwise the row is due exactly once its backoff has passed |
| JoinRuns.DelaysAreOrdered | control-plane/internal/providerjoin/reconciler.go:174-218 | after a ban the wait is MaxBackoff, otherwise the base doubled for every earlier attempt (at most 16 times), up to MaxBackoff |
| JoinRuns.OutboxFinishes | control-plane/internal/providerjoin/reconciler.go:132-172 | a due outbox row is enough for the idle reconciler to activate the provider without the agent, even a Revoked one |
| JoinRuns.KeysAreFixed | control-plane/internal/providerjoin/service.go:249-254 | in every run and all its continuations a provider keeps the key it joined with, its id is that key's digest, and no two providers ever share a key |
| JoinRuns.ActiveIffCommitLast | control-plane/internal/providerjoin/postgres.go:184-253 | after any steps a provider that was not Active is Active exactly when some activation commit for it has no revocation after it |
| JoinRuns.RevocationCanEnd | control-plane/internal/providerjoin/postgres.go:184-253 | for every configuration and key, a run in which a Revoked provider becomes Active again |
| JoinRuns.FinalizedIffCommitLast | control-plane/internal/providerjoin/postgres.go:184-324 | after any steps a row that was not FINALIZED is FINALIZED exactly when some activation commit for its provider has no recorded failure after it |
| JoinRuns.FinalizedCanEnd | control-plane/internal/providerjoin/postgres.go:303-324 | for every configuration and key, a run that ends with the provider Active and its registration in RETRY or FAILED |
| JoinStore.AnsweredIsActive | control-plane/internal/providerjoin/service.go:232-279 | the service answers a completed request exactly when its provider was answered Active or the chain was read Active and the activation committed; the provider is then Active, and otherwise its outbox row is left behind |
| JoinStore.PassIsRun | control-plane/internal/providerjoin/reconciler.go:132-172 | a whole pass over a fetched batch is a run of the proved system, so it keeps the tables paired, attempts within the limit, Active confirmed and challenges spent once |
| JoinStore.Tables.Complete | control-plane/internal/providerjoin/postgres.go:73-182 | a refused or repeated request changes nothing; any other spends its challenge, unspent and in time until then, and leaves a provider and an outbox row, keeping those there are, a new one Pending and due; sent again it gets the same answer exactly when it was a repetition already or its provider was new or Pending |
| JoinStore.Tables.Activate | control-plane/internal/providerjoin/postgres.go:184-228 | the provider is Active and its row due at no time again, together; key, attempts and every other row are what they were; the answer is the time of its earliest completion, and there is one for every provider there is |
| JoinStore.Tables.ReconcileOnce | control-plane/internal/providerjoin/reconciler.go:132-197 | the tables after a batch, each registration settled in turn, still paired |
| JoinStore.Tables.CompleteAndActivate | control-plane/internal/providerjoin/service.go:232-279 | an answer names an Active provider, and the same request again names it with no chain and no change, at the same time exactly when no activation was needed or no request of the provider completed earlier; a completed request is unanswered only for want of the chain, and leaves its provider Active exactly when that was so before a new request |
| JoinStore.RejoinIsUnanswered | control-plane/internal/providerjoin/service.go:249-273 | for every configuration and key, a run in which an Active provider joins again, its request completes and gets no answer while the chain cannot be read, and its completion is not the earliest |

## Left out

- Concurrency inside one process: mutex-held sections are single steps.
- Float conversions: CPU is in millicores and minimum reputation in whole points from the start.
- Private keys, their zeroing, and key generation: a WireGuard peer has a key of its own per allocation.
- Namespaces, wg commands and the agent's own behaviour: outcomes of backend and agent calls are inputs.
- Registration of validators, their bonding, suspension and slashing; only evidence, closing and disputes of rounds are modelled.
- Balances, unbonding periods and pending slashes behind a provider's bond: whether a bond or a withdrawal is allowed is an input.
- The reputation pallet's own calls, and a scale so large that scaling overflows 32 bits: a score moves only with its rounds.
- Escrow, rewards, reputation and the three-way role exclusion in the runtime.
- Invoice disputes and adjustments: only original invoice lines.
- The order of a due batch by creation time, and its limit: a fetched batch is any list of distinct due rows.
- Heartbeat ingestion, renewal certificates and allowlists in the join service.
- Volume attachments, security groups and fixed addresses in a deployment request.
- The resource ledger's sums across workloads in AssignLease: whether it commits is an input.
- Hex rendering of storage keys and twox hashes.
- JoinRuns.FailureIsFinalIff: of one reconciler, whose fetched counts are current; Reconcilers.BudgetIff is about several.
- Market.ConvergesIff: asks that no two listed or tracked providers share a key, which Market.KeysNeverStale proves of the directory's listings.
- MeteringRuns.DuplicateIsIdentical: asks that stored lease ids are shorter than 2^32 bytes, since longer ones can collide.
- LeasePallet.LeaseBlocksIsCeiling: for the durations the submission path admits, one second to thirty days.
- LifecycleLimits.RunningIsReadyWithoutHeartbeat: one direction only; LifecycleReady.RunningIsReadyIff is the exact condition.
- HTTP, gRPC, dashboards, authentication, quotas, rate limiting, PKI and release tooling.
