/** The lease pallet's storage map and its two dispatchables
    (blockchain/pallets/lease/src/lib.rs), and the block count the worker asks for. */
module LeasePallet {
  datatype LeaseState = Created | Active | Completed | Expired | Disputed

  datatype Lease = Lease(provider: string, consumer: string, hash: string, start: nat, end: nat, state: LeaseState)

  type Leases = map<nat, Lease>

  const MAX_BLOCK: nat := 0xffff_ffff

  function CreateLease(leases: Leases, id: nat, provider: string, consumer: string, hash: string,
                       duration: nat, now: nat, eligible: bool, maxDuration: nat): (r: Leases)
  {
    if id in leases || !eligible || duration == 0 || duration > maxDuration || now + duration > MAX_BLOCK then leases
    else leases[id := Lease(provider, consumer, hash, now, now + duration, Created)]
  }

  predicate ValidTransition(from: LeaseState, to: LeaseState) {
    || (from == Created && to == Active)
    || (from == Active && to in {Completed, Expired, Disputed})
    || (from == Disputed && to == Completed)
  }

  function UpdateLeaseState(leases: Leases, id: nat, to: LeaseState, now: nat): (r: Leases) {
    if id !in leases || !ValidTransition(leases[id].state, to) then leases
    else if to == Expired && now < leases[id].end then leases
    else leases[id := leases[id].(state := to)]
  }

  /** A lease, once in storage, keeps its identity; Completed is final and Created is never re-entered. */
  ghost predicate Evolves(before: Leases, after: Leases) {
    forall id :: id in before ==>
      && id in after
      && after[id].(state := before[id].state) == before[id]
      && (before[id].state == Completed ==> after[id].state == Completed)
      && (before[id].state != Created ==> after[id].state != Created)
  }

  lemma CallsEvolve(leases: Leases, id: nat, provider: string, consumer: string, hash: string,
                    duration: nat, now: nat, eligible: bool, maxDuration: nat, to: LeaseState)
    ensures Evolves(leases, CreateLease(leases, id, provider, consumer, hash, duration, now, eligible, maxDuration))
    ensures Evolves(leases, UpdateLeaseState(leases, id, to, now))
  {
  }

  /** A lease is created exactly for a new id, an eligible provider and a positive term within the
      limit that ends on a block there is; it runs from now and is Created. */
  lemma CreateIff(leases: Leases, id: nat, provider: string, consumer: string, hash: string,
                  duration: nat, now: nat, eligible: bool, maxDuration: nat)
    ensures var t := CreateLease(leases, id, provider, consumer, hash, duration, now, eligible, maxDuration);
            if id !in leases && eligible && 1 <= duration <= maxDuration && now + duration <= 0xffff_ffff then
              && id in t && t - {id} == leases
              && t[id].provider == provider && t[id].consumer == consumer && t[id].hash == hash
              && t[id].start == now && t[id].end == now + duration && t[id].state == Created
            else t == leases
  {
  }

  /** A lease changes state exactly along these edges, and expires no sooner than its end. */
  lemma UpdateIff(leases: Leases, id: nat, to: LeaseState, now: nat)
    ensures var t := UpdateLeaseState(leases, id, to, now);
            if && id in leases
               && (leases[id].state, to) in
                    {(Created, Active), (Active, Completed), (Active, Expired), (Active, Disputed),
                     (Disputed, Completed)}
               && (to == Expired ==> leases[id].end <= now)
            then t == leases[id := leases[id].(state := to)] else t == leases
  {
  }

  const SECOND: nat := 1_000_000_000
  const BLOCK_TIME: nat := 3 * SECOND

  /** `uint32((duration + blockTime - 1) / blockTime)` over nanoseconds. */
  function LeaseBlocks(durationSeconds: nat): (r: nat) {
    (durationSeconds * SECOND + BLOCK_TIME - 1) / BLOCK_TIME % 0x1_0000_0000
  }

  /** The term is the ceiling of duration over block time, and every duration the
      submission path admits yields a term the registrar accepts. */
  lemma LeaseBlocksIsCeiling(durationSeconds: nat)
    requires 1 <= durationSeconds <= 2_592_000
    ensures var b := LeaseBlocks(durationSeconds);
            && (b - 1) * 3 < durationSeconds <= b * 3
            && 1 <= b <= 1_000_000
  {
    var total := durationSeconds * SECOND + BLOCK_TIME - 1;
    var b := total / BLOCK_TIME;
    assert b * BLOCK_TIME <= total < b * BLOCK_TIME + BLOCK_TIME;
  }
}
