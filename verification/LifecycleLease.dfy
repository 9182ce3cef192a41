/** The lease registrar's answers and the lifecycle's lease effects are the same observations of
    finalized storage (control-plane/internal/blockchainbridge/registrar.go and
    control-plane/internal/orchestrator/worker.go). */
module LifecycleLease {
  import opened Workloads
  import opened Lifecycle
  import LP = LeasePallet
  import LR = LeaseRegistrar

  /** A finalized read of lease `id`. */
  function ReadOf(leases: LP.Leases, id: nat): (read: LR.LeaseRead) {
    if id in leases then LR.Have(leases[id]) else LR.NoLease
  }

  /** `tape` reads lease `id` at successive finalized heads, some reads failing. */
  ghost predicate Reads(tape: seq<LR.LeaseRead>, heads: seq<LP.Leases>, id: nat) {
    |tape| == |heads| && forall i :: 0 <= i < |tape| ==> tape[i] == LR.LeaseError || tape[i] == ReadOf(heads[i], id)
  }

  /** What the worker asks the registrar for. */
  function WantedFor(cfg: Config, item: Row): (w: LR.Wanted)
    requires item.hash.Some? && KeyOf(cfg, item).Some?
  {
    LR.Wanted(cfg.bridge, KeyOf(cfg, item).value, item.hash.value, LP.LeaseBlocks(cfg.durationSeconds))
  }

  /** The effect is possible exactly when a read now would show the wanted lease, Active. */
  lemma ActiveIsWanted(cfg: Config, s: Sys, item: Row)
    requires item.lease.Some? && item.hash.Some? && KeyOf(cfg, item).Some?
    ensures var read := ReadOf(s.leases, item.lease.value);
            LeaseIsActive(cfg, s, item) <==>
                read.Have? && LR.Fits(read.lease, WantedFor(cfg, item)) && read.lease.state == LP.Active
  {
  }

  /** A lease EnsureLeaseActive returned makes the effect possible at the head it was read at. */
  lemma EnsuredIsActive(cfg: Config, s: Sys, item: Row, tape: seq<LR.LeaseRead>, heads: seq<LP.Leases>, lease: LP.Lease)
    requires item.lease.Some? && item.hash.Some? && KeyOf(cfg, item).Some? && Reads(tape, heads, item.lease.value)
    requires LR.Have(lease) in tape && lease.state == LP.Active && LR.Fits(lease, WantedFor(cfg, item))
    ensures exists i :: 0 <= i < |heads| && LeaseIsActive(cfg, s.(leases := heads[i]), item)
  {
    var i :| 0 <= i < |tape| && tape[i] == LR.Have(lease);
    ActiveIsWanted(cfg, s.(leases := heads[i]), item);
  }

  /** A lease EnsureLeaseCompleted returned, first read as ours, makes the closing effect possible
      at the head it was read at and at every one the pallet reaches from there. */
  lemma EnsuredIsCompleted(cfg: Config, s: Sys, item: Row, tape: seq<LR.LeaseRead>, heads: seq<LP.Leases>,
                           lease: LP.Lease)
    requires item.lease.Some? && Reads(tape, heads, item.lease.value)
    requires LR.Have(lease) in tape && lease.state == LP.Completed && lease.consumer == cfg.bridge
    ensures exists i :: 0 <= i < |heads| && forall later :: LP.Evolves(heads[i], later) ==>
        LeaseIsCompleted(cfg, s.(leases := later), item)
  {
    var i :| 0 <= i < |tape| && tape[i] == LR.Have(lease);
    forall later | LP.Evolves(heads[i], later) ensures LeaseIsCompleted(cfg, s.(leases := later), item) { }
  }

  /** EnsureLeaseActive over those reads: what it returns was there for the worker to see. */
  method SeeLeaseActive(cfg: Config, s: Sys, item: Row, nonce: nat, tape: seq<LR.LeaseRead>,
                        ghost heads: seq<LP.Leases>, accepts: nat -> bool)
    returns (seen: bool)
    requires item.lease.Some? && item.hash.Some? && KeyOf(cfg, item).Some? && Reads(tape, heads, item.lease.value)
        && tape != []
    ensures seen ==> exists i :: 0 <= i < |heads| && LeaseIsActive(cfg, s.(leases := heads[i]), item)
    ensures && tape[0].Have? && 1 <= LP.LeaseBlocks(cfg.durationSeconds) <= 1_000_000
            && LeaseIsActive(cfg, s.(leases := heads[0]), item)
            ==> seen
  {
    var w := WantedFor(cfg, item);
    var r, sent := LR.EnsureLeaseActive(w, nonce, tape, accepts);
    if r.Some? { EnsuredIsActive(cfg, s, item, tape, heads, r.value); }
    ActiveIsWanted(cfg, s.(leases := heads[0]), item);
    return r.Some?;
  }

  /** EnsureLeaseCompleted over those reads. */
  method SeeLeaseCompleted(cfg: Config, s: Sys, item: Row, nonce: nat, tape: seq<LR.LeaseRead>,
                           ghost heads: seq<LP.Leases>, accepts: nat -> bool)
    returns (seen: bool)
    requires item.lease.Some? && Reads(tape, heads, item.lease.value) && tape != []
    ensures seen ==> exists i :: 0 <= i < |heads| && forall later :: LP.Evolves(heads[i], later) ==>
        LeaseIsCompleted(cfg, s.(leases := later), item)
    ensures tape[0].Have? && LeaseIsCompleted(cfg, s.(leases := heads[0]), item) ==> seen
  {
    var r, sent := LR.EnsureLeaseCompleted(cfg.bridge, nonce, tape, accepts);
    if r.Some? { EnsuredIsCompleted(cfg, s, item, tape, heads, r.value); }
    return r.Some?;
  }
}
