/** The lifecycle of one workload as a step system.

    Any number of orchestrator workers (control-plane/internal/orchestrator/worker.go)
    claim the row, perform external effects and commit a guarded write.  The owner's
    stop request, the Agent's heartbeat reconciliation and the lease pallet interleave
    freely with them.  `Apply` is total: a step whose guard fails changes nothing, so
    every sequence of steps is a run. */
module Lifecycle {
  import opened Base
  import opened Workloads
  import LP = LeasePallet

  datatype Config = Config(
    overlay: bool,
    maxAttempts: nat,
    durationSeconds: nat,
    bridge: string,
    keys: map<string, string>,
    resourceHash: string)

  ghost predicate ValidConfig(cfg: Config) {
    cfg.maxAttempts >= 1 && 1 <= cfg.durationSeconds <= 2_592_000
  }

  datatype Actor = ByWorker(id: string) | ByHeartbeat | ByOwner

  datatype Event =
    | LeaseActive(lease: nat, key: string, hash: string, blocks: nat)
    | ContainerConfirmed(container: string)
    | PeerAttached
    | StopConfirmed
    | PeerRevoked
    | LeaseCompleted(lease: nat)
    | AttemptFailed
    | Entered(state: State, actor: Actor)

  /** How far a worker has got with the item it claimed. */
  datatype Point =
    | Claimed
    | LeaseSeen
    | Deployed(container: string)
    | Attached(container: string)
    | AgentStopped
    | PeerGone
    | LeaseClosed
    | GivingUp

  datatype Flight = Flight(item: Row, at: Point)

  datatype Sys = Sys(
    row: Row,
    flights: map<string, Flight>,
    leases: LP.Leases,
    peer: bool,
    nextLease: nat,
    log: seq<Event>)

  datatype Step =
    | Claim(w: string, expired: bool)
    | GiveUp(w: string, stopped: bool)
    | SeeLease(w: string)
    | Deploy(w: string, container: string)
    | Attach(w: string)
    | StopAgent(w: string)
    | Revoke(w: string)
    | SeeCompleted(w: string)
    | Commit(w: string, alive: bool, provider: string)
    | Abandon(w: string)
    | OwnerStop(request: string)
    | Heartbeat(phase: AgentPhase, provider: string, container: string)
    | ChainCreate(id: nat, provider: string, consumer: string, hash: string, duration: nat, now: nat)
    | ChainUpdate(id: nat, to: LP.LeaseState, now: nat)
    | OtherAssignment

  const MAX_LEASE_DURATION: nat := 1_000_000

  function Init(leases: LP.Leases, nextLease: nat): (r: Sys) {
    Sys(Row(Requested, 1, 0, None, None, None, None, None, None), map[], leases, false, nextLease, [])
  }

  // ----- worker-local effects -----

  predicate At(s: Sys, w: string, state: State, at: Point) {
    w in s.flights && s.flights[w].item.state == state && s.flights[w].at == at
  }

  function Move(s: Sys, w: string, at: Point, event: seq<Event>): (r: Sys)
    requires w in s.flights
  {
    s.(flights := s.flights[w := s.flights[w].(at := at)], log := s.log + event)
  }

  /** The provider's 32-byte key, as `providerKey` finds it. */
  function KeyOf(cfg: Config, row: Row): (r: Option<string>) {
    if row.provider.Some? && row.provider.value in cfg.keys && |cfg.keys[row.provider.value]| == 32
    then Some(cfg.keys[row.provider.value]) else None
  }

  /** EnsureLeaseActive returns: finalized storage holds exactly this lease, Active. */
  predicate LeaseIsActive(cfg: Config, s: Sys, item: Row) {
    && item.lease.Some? && item.hash.Some? && KeyOf(cfg, item).Some?
    && item.lease.value in s.leases
    && var l := s.leases[item.lease.value];
       && l.provider == KeyOf(cfg, item).value && l.consumer == cfg.bridge && l.hash == item.hash.value
       && l.start <= l.end && l.end - l.start == LP.LeaseBlocks(cfg.durationSeconds)
       && l.state == LP.Active
  }

  /** EnsureLeaseCompleted returns: finalized storage holds the lease, ours, Completed. */
  predicate LeaseIsCompleted(cfg: Config, s: Sys, item: Row) {
    && item.lease.Some? && item.lease.value in s.leases
    && s.leases[item.lease.value].consumer == cfg.bridge
    && s.leases[item.lease.value].state == LP.Completed
  }

  /** The points at which some branch of `processOne` calls `retry`. */
  predicate CanGiveUp(cfg: Config, f: Flight) {
    match f.item.state
    case Scheduling => f.at == Claimed
    case LeasePending => f.at == Claimed
    case Deploying => f.at == Claimed || (cfg.overlay && f.at.Deployed?)
    case Stopping => f.item.lease.Some? && (f.at == Claimed || f.at == AgentStopped || f.at == PeerGone)
    case _ => false
  }

  /** A failed attach also stops the container, best effort. */
  function GiveUpEvents(f: Flight, stopped: bool): (r: seq<Event>) {
    if f.item.state == Deploying && f.at.Deployed? && stopped then [StopConfirmed] else []
  }

  function LeaseEvent(cfg: Config, item: Row): (r: Event)
    requires item.lease.Some? && item.hash.Some? && KeyOf(cfg, item).Some?
  {
    LeaseActive(item.lease.value, KeyOf(cfg, item).value, item.hash.value, LP.LeaseBlocks(cfg.durationSeconds))
  }

  // ----- the write that ends a claim -----

  /** `retry`: re-queue, or fail once the attempt budget is used up. */
  function Retry(cfg: Config, row: Row, item: Row, alive: bool): (r: Write) {
    if item.attempts + 1 >= cfg.maxAttempts then MarkFailed(row, item, alive) else RetryLater(row, item, alive)
  }

  function CommitWrite(cfg: Config, s: Sys, f: Flight, alive: bool, provider: string): (r: Write) {
    match (f.item.state, f.at)
    case (_, GivingUp) => Retry(cfg, s.row, f.item, alive)
    case (Requested, Claimed) => BeginScheduling(s.row, f.item, alive)
    case (Scheduling, Claimed) => AssignLease(s.row, f.item, alive, provider, s.nextLease, cfg.resourceHash)
    case (LeasePending, LeaseSeen) => MarkLeased(s.row, f.item, alive)
    case (Leased, Claimed) => MarkDeploying(s.row, f.item, alive)
    case (Deploying, Deployed(c)) => if cfg.overlay then Write(s.row, false) else MarkRunning(s.row, f.item, alive, c)
    case (Deploying, Attached(c)) => MarkRunning(s.row, f.item, alive, c)
    case (Stopping, LeaseClosed) => MarkStopped(s.row, f.item, alive)
    case _ => Write(s.row, false)
  }

  function Transition(before: Row, after: Row, actor: Actor): (r: seq<Event>) {
    (if after.attempts > before.attempts then [AttemptFailed] else []) +
    (if after.state != before.state then [Entered(after.state, actor)] else [])
  }

  function Written(s: Sys, row: Row, actor: Actor): (r: Sys) {
    s.(row := row, log := s.log + Transition(s.row, row, actor))
  }

  function ApplyCommit(cfg: Config, s: Sys, w: string, alive: bool, provider: string): (r: Sys)
    requires w in s.flights
  {
    var f := s.flights[w];
    var write := CommitWrite(cfg, s, f, alive, provider);
    var took := write.applied && f.item.state == Scheduling && f.at == Claimed;
    Written(s, write.row, ByWorker(w)).(
      flights := s.flights - {w},
      nextLease := if took then s.nextLease + 1 else s.nextLease)
  }

  // ----- the step function -----

  function ApplyWorker(cfg: Config, s: Sys, step: Step): (r: Sys) {
    match step
    case Claim(w, expired) =>
      var write := ClaimNext(s.row, w, expired);
      if w !in s.flights && write.applied
      then s.(row := write.row, flights := s.flights[w := Flight(write.row, Claimed)]) else s
    case GiveUp(w, stopped) =>
      if w in s.flights && CanGiveUp(cfg, s.flights[w])
      then Move(s, w, GivingUp, GiveUpEvents(s.flights[w], stopped)) else s
    case SeeLease(w) =>
      if At(s, w, LeasePending, Claimed) && LeaseIsActive(cfg, s, s.flights[w].item)
      then Move(s, w, LeaseSeen, [LeaseEvent(cfg, s.flights[w].item)]) else s
    case Deploy(w, container) =>
      if At(s, w, Deploying, Claimed)
      then Move(s, w, Deployed(container), [ContainerConfirmed(container)]) else s
    case Attach(w) =>
      if cfg.overlay && w in s.flights && s.flights[w].item.state == Deploying && s.flights[w].at.Deployed?
      then Move(s, w, Attached(s.flights[w].at.container), [PeerAttached]).(peer := true) else s
    case StopAgent(w) =>
      if At(s, w, Stopping, Claimed) && s.flights[w].item.lease.Some?
      then Move(s, w, AgentStopped, [StopConfirmed]) else s
    case Revoke(w) =>
      if cfg.overlay && At(s, w, Stopping, AgentStopped)
      then Move(s, w, PeerGone, [PeerRevoked]).(peer := false) else s
    case SeeCompleted(w) =>
      if At(s, w, Stopping, if cfg.overlay then PeerGone else AgentStopped)
          && LeaseIsCompleted(cfg, s, s.flights[w].item)
      then Move(s, w, LeaseClosed, [LeaseCompleted(s.flights[w].item.lease.value)]) else s
    case Commit(w, alive, provider) =>
      if w in s.flights then ApplyCommit(cfg, s, w, alive, provider) else s
    case Abandon(w) => s.(flights := s.flights - {w})
    case _ => s
  }

  function ApplyOther(s: Sys, step: Step): (r: Sys) {
    match step
    case OwnerStop(request) => Written(s, RequestStop(s.row, request).row, ByOwner)
    case Heartbeat(phase, provider, container) =>
      Written(s, ReconcileFromAgent(s.row, phase, provider, container).row, ByHeartbeat)
    case ChainCreate(id, provider, consumer, hash, duration, now) =>
      s.(leases := LP.CreateLease(s.leases, id, provider, consumer, hash, duration, now, true, MAX_LEASE_DURATION))
    case ChainUpdate(id, to, now) => s.(leases := LP.UpdateLeaseState(s.leases, id, to, now))
    case OtherAssignment => s.(nextLease := s.nextLease + 1)
    case _ => s
  }

  function Apply(cfg: Config, s: Sys, step: Step): (r: Sys) {
    if step.OwnerStop? || step.Heartbeat? || step.ChainCreate? || step.ChainUpdate? || step.OtherAssignment?
    then ApplyOther(s, step) else ApplyWorker(cfg, s, step)
  }

  function Exec(cfg: Config, s: Sys, steps: seq<Step>): (r: Sys)
    decreases |steps|
  {
    if steps == [] then s else Exec(cfg, Apply(cfg, s, steps[0]), steps[1..])
  }
}
