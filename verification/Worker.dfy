/** The orchestrator worker's claim-act-commit pass, `processOne`
    (control-plane/internal/orchestrator/worker.go). */
module Worker {
  import opened Base
  import opened Workloads
  import opened Lifecycle
  import LifecycleLimits

  /** What the calls of one pass return. */
  datatype Env = Env(
    claimable: bool,
    expired: bool,
    definitionDecodes: bool,
    directoryListed: bool,
    selected: Option<string>,
    assignment: Assignment,
    leaseEnsured: bool,
    statusKnown: bool,
    volumesListed: bool,
    groupsResolved: bool,
    deployed: Option<string>,
    attached: bool,
    stopped: bool,
    revoked: bool,
    completionEnsured: bool,
    claimAlive: bool)

  /** AssignLease's answer: committed, no capacity or lost race, any other error. */
  datatype Assignment = Committed | Refused | Broken

  /** What one pass amounts to. */
  datatype Pass = Nothing | ClaimOnly | Advanced | Retried | GaveUpForGood

  class Worker {
    const id: string
    const cfg: Config
    /** The dispatcher also answers status queries. */
    const probes: bool
    const hasVolumes: bool
    const hasGroups: bool
    var sys: Sys

    constructor (id: string, cfg: Config, probes: bool, hasVolumes: bool, hasGroups: bool, sys: Sys)
      ensures this.id == id && this.cfg == cfg && this.sys == sys
    {
      this.id, this.cfg, this.probes, this.hasVolumes, this.hasGroups, this.sys := id, cfg, probes, hasVolumes,
          hasGroups, sys;
    }

    method Act(step: Step, ghost before: Sys, trace: seq<Step>) returns (longer: seq<Step>)
      requires sys == Exec(cfg, before, trace)
      modifies this
      ensures sys == Apply(cfg, old(sys), step) == Exec(cfg, before, longer)
      ensures longer == trace + [step]
    {
      sys := Apply(cfg, sys, step);
      longer := trace + [step];
      LifecycleLimits.ExecThen(cfg, before, trace, [step]);
      assert [step][1..] == [];
    }

    /** The provider's directory entry was found. */
    predicate ProviderFound(item: Row, env: Env) {
      env.directoryListed && item.provider.Some? && item.provider.value in cfg.keys
    }

    // ----- what the pass promises, state by state -----

    /** The directory answered and has the workload's provider. */
    ghost predicate Known(item: Row, env: Env) {
      env.directoryListed && exists p :: item.provider == Some(p) && p in cfg.keys.Keys
    }

    /** Everything the Agent needs for a deployment was found. */
    ghost predicate Prepared(item: Row, env: Env) {
      && Known(item, env) && env.definitionDecodes
      && (probes && item.attempts > 0 ==> env.statusKnown)
      && (hasVolumes ==> env.volumesListed) && (hasGroups ==> env.groupsResolved)
    }

    /** Every call the state needs succeeded. */
    ghost predicate Succeeds(s: Sys, item: Row, env: Env) {
      match item.state
      case Scheduling =>
        env.definitionDecodes && env.directoryListed && env.selected.Some? && env.assignment == Committed
      case LeasePending =>
        && item.lease.Some? && Known(item, env) && env.definitionDecodes && env.leaseEnsured
        && LeaseIsActive(cfg, s, item)
      case Leased => item.lease.Some?
      case Deploying => Prepared(item, env) && env.deployed.Some? && (cfg.overlay ==> env.attached)
      case Stopping =>
        && item.lease.Some? && Known(item, env) && env.stopped && (cfg.overlay ==> env.revoked)
        && env.completionEnsured && LeaseIsCompleted(cfg, s, item)
      case _ => true
    }

    /** The pass returns an error without writing anything. */
    ghost predicate Silent(item: Row, env: Env) {
      match item.state
      case Scheduling =>
        env.definitionDecodes && env.directoryListed && env.selected.Some? && env.assignment == Broken
      case LeasePending =>
        item.lease.None? || (Known(item, env) && KeyOf(cfg, item).Some? && !env.definitionDecodes)
      case Leased => item.lease.None?
      case Deploying => Known(item, env) && !env.definitionDecodes
      case Stopping => item.lease.None?
      case _ => false
    }

    /** The external effects of the state, in the order the source has them. */
    ghost function Effects(item: Row, env: Env): (steps: seq<Step>) {
      match item.state
      case LeasePending => [SeeLease(id)]
      case Deploying =>
        [Deploy(id, if env.deployed.Some? then env.deployed.value else "")] + if cfg.overlay then [Attach(id)] else []
      case Stopping => [StopAgent(id)] + (if cfg.overlay then [Revoke(id)] else []) + [SeeCompleted(id)]
      case _ => []
    }

    /** How many of them happen: those before the first call that fails. */
    ghost function Reached(ok: bool, item: Row, env: Env): (n: nat)
      ensures n <= |Effects(item, env)|
    {
      if ok then |Effects(item, env)|
      else if item.state == Deploying then (if Prepared(item, env) && env.deployed.Some? then 1 else 0)
      else if item.state == Stopping && item.lease.Some? && Known(item, env) && env.stopped
        then (if cfg.overlay && env.revoked then 2 else 1)
      else 0
    }

    /** The writes that end the pass. */
    ghost function Ending(ok: bool, item: Row, env: Env): (steps: seq<Step>) {
      var commit := Commit(id, env.claimAlive, if env.selected.Some? then env.selected.value else "");
      if ok then [commit]
      else if Silent(item, env) then [Abandon(id)]
      else [GiveUp(id, env.stopped), commit]
    }

    /** What the pass amounts to, once it has claimed `item`. */
    ghost function Verdict(ok: bool, item: Row, env: Env): (pass: Pass) {
      if !env.claimAlive then ClaimOnly
      else if ok then (if Blank(item, env) then ClaimOnly else Advanced)
      else if Silent(item, env) then ClaimOnly
      else if item.attempts + 1 >= cfg.maxAttempts then GaveUpForGood else Retried
    }

    // ----- the pass -----

    /** Which calls succeed depends on the leases on chain and nothing else of the system. */
    lemma SameCalls(s: Sys, t: Sys, item: Row, env: Env)
      requires s.leases == t.leases
      ensures Succeeds(s, item, env) == Succeeds(t, item, env)
    {
    }

    method TakeClaim(env: Env) returns (taken: bool, item: Row, trace: seq<Step>)
      requires id !in sys.flights
      modifies this
      ensures taken <==> env.claimable && ClaimNext(old(sys.row), id, env.expired).applied
      ensures item == ClaimNext(old(sys.row), id, env.expired).row && sys == Exec(cfg, old(sys), trace)
      ensures !taken ==> sys == old(sys) && trace == []
      ensures taken ==>
                && trace == [Claim(id, env.expired)] && id in sys.flights && sys.flights[id] == Flight(item, Claimed)
                && sys.row == item && item.worker == Some(id) && Claimable(item.state)
                && sys.leases == old(sys.leases) && sys.nextLease == old(sys.nextLease)
    {
      trace := [];
      var claim := ClaimNext(sys.row, id, env.expired);
      item, taken := claim.row, env.claimable && claim.applied;
      if taken { trace := Act(Claim(id, env.expired), sys, trace); }
    }

    /** LEASE_PENDING: ensure the lease on chain, then commit. */
    method EnsureLease(item: Row, env: Env, ghost before: Sys, trace: seq<Step>)
      returns (longer: seq<Step>, retry: bool, silent: bool)
      requires sys == Exec(cfg, before, trace) && At(sys, id, LeasePending, Claimed) && sys.flights[id].item == item
      modifies this
      ensures sys == Exec(cfg, before, longer)
      ensures longer == trace + Effects(item, env)[..Reached(Succeeds(old(sys), item, env), item, env)]
      ensures id in sys.flights && sys.flights[id].item == item && sys.row == old(sys.row)
      ensures sys.nextLease == old(sys.nextLease)
      ensures silent == Silent(item, env) && retry == (!silent && !Succeeds(old(sys), item, env))
      ensures retry ==> CanGiveUp(cfg, sys.flights[id])
      ensures !retry && !silent ==> Ready(cfg, sys.flights[id], env)
    {
      longer, retry, silent := trace, false, false;
      if item.lease.None? { silent := true; return; }
      if !ProviderFound(item, env) || KeyOf(cfg, item).None? { retry := true; return; }
      if !env.definitionDecodes { silent := true; return; }
      if !env.leaseEnsured || !LeaseIsActive(cfg, sys, item) { retry := true; return; }
      longer := Act(SeeLease(id), before, longer);
    }

    /** Deployed, and attached if there is an overlay. */
    method DeployAndAttach(item: Row, env: Env, container: string, ghost before: Sys, trace: seq<Step>)
      returns (longer: seq<Step>, retry: bool)
      requires sys == Exec(cfg, before, trace) && At(sys, id, Deploying, Claimed) && sys.flights[id].item == item
      modifies this
      ensures sys == Exec(cfg, before, longer)
      ensures id in sys.flights && sys.flights[id].item == item && sys.row == old(sys.row)
      ensures sys.nextLease == old(sys.nextLease)
      ensures retry == (cfg.overlay && !env.attached)
      ensures longer == trace + ([Deploy(id, container)] + if cfg.overlay && !retry then [Attach(id)] else [])
      ensures sys.flights[id].at == if cfg.overlay && !retry then Attached(container) else Deployed(container)
    {
      longer := Act(Deploy(id, container), before, trace);
      retry := cfg.overlay && !env.attached;
      if cfg.overlay && !retry { longer := Act(Attach(id), before, longer); }
    }

    /** DEPLOYING: probe, deploy, attach. */
    method EnsureDeployed(item: Row, env: Env, ghost before: Sys, trace: seq<Step>)
      returns (longer: seq<Step>, retry: bool, silent: bool)
      requires sys == Exec(cfg, before, trace) && At(sys, id, Deploying, Claimed) && sys.flights[id].item == item
      modifies this
      ensures sys == Exec(cfg, before, longer)
      ensures longer == trace + Effects(item, env)[..Reached(Succeeds(old(sys), item, env), item, env)]
      ensures id in sys.flights && sys.flights[id].item == item && sys.row == old(sys.row)
      ensures sys.nextLease == old(sys.nextLease)
      ensures silent == Silent(item, env) && retry == (!silent && !Succeeds(old(sys), item, env))
      ensures retry ==> CanGiveUp(cfg, sys.flights[id])
      ensures !retry && !silent ==> Ready(cfg, sys.flights[id], env)
    {
      longer, retry, silent := trace, false, false;
      if !ProviderFound(item, env) { retry := true; return; }
      if !env.definitionDecodes { silent := true; return; }
      if probes && item.attempts > 0 && !env.statusKnown { retry := true; return; }
      if hasVolumes && !env.volumesListed { retry := true; return; }
      if hasGroups && !env.groupsResolved { retry := true; return; }
      if env.deployed.None? { retry := true; return; }
      longer, retry := DeployAndAttach(item, env, env.deployed.value, before, longer);
    }

    /** STOPPING, first half: stop the container, then revoke the peer. */
    method StopAndRevoke(item: Row, env: Env, ghost before: Sys, trace: seq<Step>)
      returns (longer: seq<Step>, retry: bool)
      requires sys == Exec(cfg, before, trace) && At(sys, id, Stopping, Claimed) && sys.flights[id].item == item
          && item.lease.Some?
      modifies this
      ensures sys == Exec(cfg, before, longer)
      ensures id in sys.flights && sys.flights[id].item == item && sys.row == old(sys.row)
          && sys.leases == old(sys.leases) && sys.nextLease == old(sys.nextLease)
      ensures retry == !(Known(item, env) && env.stopped && (cfg.overlay ==> env.revoked))
      ensures retry ==> CanGiveUp(cfg, sys.flights[id])
      ensures retry ==> longer == trace + if Known(item, env) && env.stopped then [StopAgent(id)] else []
      ensures !retry ==> sys.flights[id].at == if cfg.overlay then PeerGone else AgentStopped
      ensures !retry ==> longer == trace + ([StopAgent(id)] + if cfg.overlay then [Revoke(id)] else [])
    {
      longer, retry := trace, false;
      if !ProviderFound(item, env) || !env.stopped { retry := true; return; }
      longer := Act(StopAgent(id), before, longer);
      retry := cfg.overlay && !env.revoked;
      if cfg.overlay && !retry { longer := Act(Revoke(id), before, longer); }
    }

    /** STOPPING: stop, revoke, complete the lease. */
    method EnsureStopped(item: Row, env: Env, ghost before: Sys, trace: seq<Step>)
      returns (longer: seq<Step>, retry: bool, silent: bool)
      requires sys == Exec(cfg, before, trace) && At(sys, id, Stopping, Claimed) && sys.flights[id].item == item
      modifies this
      ensures sys == Exec(cfg, before, longer)
      ensures longer == trace + Effects(item, env)[..Reached(Succeeds(old(sys), item, env), item, env)]
      ensures id in sys.flights && sys.flights[id].item == item && sys.row == old(sys.row)
      ensures sys.nextLease == old(sys.nextLease)
      ensures silent == Silent(item, env) && retry == (!silent && !Succeeds(old(sys), item, env))
      ensures retry ==> CanGiveUp(cfg, sys.flights[id])
      ensures !retry && !silent ==> Ready(cfg, sys.flights[id], env)
    {
      longer, retry, silent := trace, false, false;
      if item.lease.None? { silent := true; return; }
      longer, retry := StopAndRevoke(item, env, before, longer);
      if retry { return; }
      if !env.completionEnsured || !LeaseIsCompleted(cfg, sys, item) { retry := true; return; }
      longer := Act(SeeCompleted(id), before, longer);
    }

    /** SCHEDULING: decode, list, rank; the commit is the capacity-checked assignment. */
    method Schedule(item: Row, env: Env) returns (retry: bool, silent: bool)
      requires item.state == Scheduling
      ensures silent == Silent(item, env) && retry == (!silent && !Succeeds(sys, item, env))
    {
      retry := !env.definitionDecodes || !env.directoryListed || env.selected.None? || env.assignment == Refused;
      silent := !retry && env.assignment == Broken;
    }

    /** The write that ends the claim, for the provider selected if any. */
    method CommitClaim(retry: bool, env: Env, ghost before: Sys, trace: seq<Step>)
      returns (pass: Pass, longer: seq<Step>)
      requires sys == Exec(cfg, before, trace)
      requires id in sys.flights && sys.flights[id].item == sys.row && sys.row.worker == Some(id)
          && Claimable(sys.row.state)
      requires if retry then sys.flights[id].at == GivingUp else Ready(cfg, sys.flights[id], env)
      modifies this
      ensures sys == Exec(cfg, before, longer)
      ensures longer ==
                trace + [Commit(id, env.claimAlive, if env.selected.Some? then env.selected.value else "")]
      ensures id !in sys.flights
      ensures Outcome(cfg, old(sys.nextLease), old(sys.row), env, sys, pass)
      ensures pass == if !env.claimAlive || (!retry && Blank(old(sys.row), env)) then ClaimOnly
                      else if !retry then Advanced
                      else if old(sys.row).attempts + 1 >= cfg.maxAttempts then GaveUpForGood else Retried
    {
      var provider := if env.selected.Some? then env.selected.value else "";
      CommitOutcome(cfg, sys, id, env, provider);
      var attempt, blank := sys.row.attempts + 1, Blank(sys.row, env);
      longer := Act(Commit(id, env.claimAlive, provider), before, trace);
      pass := if !env.claimAlive || (!retry && blank) then ClaimOnly
              else if !retry then Advanced
              else if attempt >= cfg.maxAttempts then GaveUpForGood else Retried;
    }

    /** The pass's last write: nothing, a retry, or the state's own transition. */
    method Finish(retry: bool, silent: bool, env: Env, ghost before: Sys, trace: seq<Step>)
      returns (pass: Pass, longer: seq<Step>)
      requires sys == Exec(cfg, before, trace) && !(retry && silent)
      requires id in sys.flights && sys.flights[id].item == sys.row && sys.row.worker == Some(id)
          && Claimable(sys.row.state)
      requires retry ==> CanGiveUp(cfg, sys.flights[id])
      requires !retry && !silent ==> Ready(cfg, sys.flights[id], env)
      modifies this
      ensures sys == Exec(cfg, before, longer)
      ensures var commit := Commit(id, env.claimAlive, if env.selected.Some? then env.selected.value else "");
              longer == trace + (if silent then [Abandon(id)]
                                 else if retry then [GiveUp(id, env.stopped), commit] else [commit])
      ensures id !in sys.flights
      ensures Outcome(cfg, old(sys.nextLease), old(sys.row), env, sys, pass)
      ensures pass == if silent || !env.claimAlive || (!retry && Blank(old(sys.row), env)) then ClaimOnly
                      else if !retry then Advanced
                      else if old(sys.row).attempts + 1 >= cfg.maxAttempts then GaveUpForGood else Retried
    {
      if silent {
        longer := Act(Abandon(id), before, trace);
        pass := ClaimOnly;
        return;
      }
      longer := trace;
      if retry { longer := Act(GiveUp(id, env.stopped), before, longer); }
      pass, longer := CommitClaim(retry, env, before, longer);
    }

    /** One pass over the claimed row.  Its effect is a run of the step system by this worker
        alone: the claim, the state's effects up to the first call that fails, and the writes
        that end it.  What it amounts to, and what it leaves in the row, follow from which calls
        succeeded. */
    method ProcessOne(env: Env) returns (pass: Pass, trace: seq<Step>)
      requires id !in sys.flights
      modifies this
      ensures sys == Exec(cfg, old(sys), trace) && id !in sys.flights
      ensures pass == Nothing <==> !(env.claimable && ClaimNext(old(sys.row), id, env.expired).applied)
      ensures pass == Nothing ==> sys == old(sys) && trace == []
      ensures pass != Nothing ==>
                var item := ClaimNext(old(sys.row), id, env.expired).row;
                var ok := Succeeds(old(sys), item, env);
                && pass == Verdict(ok, item, env)
                && Outcome(cfg, old(sys.nextLease), item, env, sys, pass)
                && trace == [Claim(id, env.expired)] + Effects(item, env)[..Reached(ok, item, env)]
                            + Ending(ok, item, env)
    {
      ghost var before := sys;
      var taken, item;
      taken, item, trace := TakeClaim(env);
      if !taken { pass := Nothing; return; }
      SameCalls(sys, before, item, env);
      var retry, silent;
      trace, retry, silent := Perform(item, env, before, trace);
      pass, trace := Finish(retry, silent, env, before, trace);
    }

    /** The state's effects. */
    method Perform(item: Row, env: Env, ghost before: Sys, trace: seq<Step>)
      returns (longer: seq<Step>, retry: bool, silent: bool)
      requires sys == Exec(cfg, before, trace) && At(sys, id, item.state, Claimed) && sys.flights[id].item == item
      requires Claimable(item.state)
      modifies this
      ensures sys == Exec(cfg, before, longer)
      ensures longer == trace + Effects(item, env)[..Reached(Succeeds(old(sys), item, env), item, env)]
      ensures id in sys.flights && sys.flights[id].item == item && sys.row == old(sys.row)
      ensures sys.nextLease == old(sys.nextLease)
      ensures silent == Silent(item, env) && retry == (!silent && !Succeeds(old(sys), item, env))
      ensures retry ==> CanGiveUp(cfg, sys.flights[id])
      ensures !retry && !silent ==> Ready(cfg, sys.flights[id], env)
    {
      longer, retry, silent := trace, false, false;
      match item.state {
        case Scheduling => retry, silent := Schedule(item, env);
        case LeasePending => longer, retry, silent := EnsureLease(item, env, before, trace);
        case Leased => silent := item.lease.None?;
        case Deploying => longer, retry, silent := EnsureDeployed(item, env, before, trace);
        case Stopping => longer, retry, silent := EnsureStopped(item, env, before, trace);
        case _ =>
      }
    }
  }

  /** The flight has reached the point at which `processOne` writes its own transition. */
  ghost predicate Ready(cfg: Config, f: Flight, env: Env) {
    match f.item.state
    case Requested => f.at == Claimed
    case Scheduling => f.at == Claimed && env.selected.Some?
    case LeasePending => f.at == LeaseSeen
    case Leased => f.at == Claimed
    case Deploying => env.deployed.Some? && f.at ==
        (if cfg.overlay then Attached(env.deployed.value) else Deployed(env.deployed.value))
    case Stopping => f.at == LeaseClosed
    case _ => false
  }

  /** The Agent confirmed a deploy without naming a container; MarkRunning refuses that. */
  predicate Blank(row: Row, env: Env) {
    row.state == Deploying && env.deployed == Some("")
  }

  /** What a pass leaves of the row it claimed, and of the lease counter. */
  ghost predicate Outcome(cfg: Config, next: nat, claimed: Row, env: Env, after: Sys, pass: Pass) {
    match pass
    case Nothing => true
    case ClaimOnly => after.row == claimed && after.nextLease == next
    case Advanced =>
      && after.row.version == claimed.version + 1 && after.row.worker == None
      && after.row.attempts == claimed.attempts && after.row.stopRequest == claimed.stopRequest
      && Moved(cfg, next, claimed, env, after)
    case Retried =>
      && after.row == Released(claimed).(attempts := claimed.attempts + 1) && after.row.attempts < cfg.maxAttempts
      && after.nextLease == next
    case GaveUpForGood =>
      && after.row == Released(claimed).(attempts := claimed.attempts + 1, state := Failed)
      && after.row.attempts >= cfg.maxAttempts && after.nextLease == next
  }

  /** The transition each state makes: a scheduled workload is bound to the provider selected and
      the next lease, a deployed one gets the Agent's container, and nothing else moves. */
  ghost predicate Moved(cfg: Config, next: nat, claimed: Row, env: Env, after: Sys) {
    var row := after.row;
    && (if claimed.state == Scheduling
        then && row.provider == env.selected && row.lease == Some(next) && row.hash == Some(cfg.resourceHash)
             && after.nextLease == next + 1
        else && row.provider == claimed.provider && row.lease == claimed.lease && row.hash == claimed.hash
             && after.nextLease == next)
    && row.container == (if claimed.state == Deploying then env.deployed else claimed.container)
    && (row.state, claimed.state) in {(Scheduling, Requested), (LeasePending, Scheduling), (Leased, LeasePending),
                                      (Deploying, Leased), (Running, Deploying), (Stopped, Stopping)}
  }

  lemma CommitOutcome(cfg: Config, s: Sys, w: string, env: Env, provider: string)
    requires w in s.flights && s.flights[w].item == s.row && s.row.worker == Some(w) && Claimable(s.row.state)
    requires s.flights[w].at == GivingUp || Ready(cfg, s.flights[w], env)
    requires env.selected.Some? ==> provider == env.selected.value
    ensures var t := Apply(cfg, s, Commit(w, env.claimAlive, provider));
            && w !in t.flights
            && (!env.claimAlive ==> Outcome(cfg, s.nextLease, s.row, env, t, ClaimOnly))
            && (env.claimAlive && s.flights[w].at != GivingUp ==>
                  Outcome(cfg, s.nextLease, s.row, env, t, if Blank(s.row, env) then ClaimOnly else Advanced))
            && (env.claimAlive && s.flights[w].at == GivingUp ==>
                  Outcome(cfg, s.nextLease, s.row, env, t,
                          if s.row.attempts + 1 >= cfg.maxAttempts then GaveUpForGood else Retried))
  {
  }
}
