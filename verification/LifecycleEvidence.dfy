/** Why a workload is RUNNING or STOPPED: the ordered evidence behind those states,
    over every interleaving. */
module LifecycleEvidence {
  import opened Base
  import opened Workloads
  import opened Lifecycle
  import opened LifecycleClaims
  import LP = LeasePallet

  // ----- ordered evidence in a log -----

  ghost predicate Bound(cfg: Config, row: Row) {
    row.lease.Some? && row.hash.Some? && KeyOf(cfg, row).Some?
  }

  /** The finalized Active lease of exactly this row was observed. */
  ghost predicate LeaseIn(cfg: Config, log: seq<Event>, row: Row) {
    Bound(cfg, row) && exists i :: 0 <= i < |log| && log[i] == LeaseEvent(cfg, row)
  }

  /** ... and after it the Agent confirmed the container. */
  ghost predicate DeployIn(cfg: Config, log: seq<Event>, row: Row, container: string) {
    exists i :: 0 <= i < |log| && log[i] == ContainerConfirmed(container) && LeaseIn(cfg, log[..i], row)
  }

  /** ... and after that, with an overlay, the peer was attached. */
  ghost predicate ReadyIn(cfg: Config, log: seq<Event>, row: Row, container: string) {
    if cfg.overlay
    then exists i :: 0 <= i < |log| && log[i] == PeerAttached && DeployIn(cfg, log[..i], row, container)
    else DeployIn(cfg, log, row, container)
  }

  ghost predicate StopAskedIn(log: seq<Event>) {
    exists i :: 0 <= i < |log| && log[i] == Entered(Stopping, ByOwner)
  }

  /** After the owner's stop the Agent confirmed that the container is stopped. */
  ghost predicate StopIn(log: seq<Event>) {
    exists i :: 0 <= i < |log| && log[i] == StopConfirmed && StopAskedIn(log[..i])
  }

  /** ... and after it, with an overlay, the peer was revoked. */
  ghost predicate RevokeIn(cfg: Config, log: seq<Event>) {
    if cfg.overlay
    then exists i :: 0 <= i < |log| && log[i] == PeerRevoked && StopIn(log[..i])
    else StopIn(log)
  }

  /** ... and after that the finalized Completed lease was observed. */
  ghost predicate CloseIn(cfg: Config, log: seq<Event>, row: Row) {
    row.lease.Some? &&
    exists i :: 0 <= i < |log| && log[i] == LeaseCompleted(row.lease.value) && RevokeIn(cfg, log[..i])
  }

  lemma PrefixesAgree(log: seq<Event>, more: seq<Event>)
    ensures forall i :: 0 <= i < |log| ==> (log + more)[i] == log[i] && (log + more)[..i] == log[..i]
  {
    forall i | 0 <= i < |log| ensures (log + more)[..i] == log[..i] { }
  }

  /** Evidence is never lost when the log grows. */
  lemma EvidenceStays(cfg: Config, log: seq<Event>, more: seq<Event>, row: Row, container: string)
    ensures LeaseIn(cfg, log, row) ==> LeaseIn(cfg, log + more, row)
    ensures DeployIn(cfg, log, row, container) ==> DeployIn(cfg, log + more, row, container)
    ensures ReadyIn(cfg, log, row, container) ==> ReadyIn(cfg, log + more, row, container)
    ensures StopAskedIn(log) ==> StopAskedIn(log + more)
    ensures StopIn(log) ==> StopIn(log + more)
    ensures RevokeIn(cfg, log) ==> RevokeIn(cfg, log + more)
    ensures CloseIn(cfg, log, row) ==> CloseIn(cfg, log + more, row)
  {
    PrefixesAgree(log, more);
    var l := log + more;
    if LeaseIn(cfg, log, row) {
      var i :| 0 <= i < |log| && log[i] == LeaseEvent(cfg, row);
      assert l[i] == LeaseEvent(cfg, row);
    }
    if StopAskedIn(log) {
      var i :| 0 <= i < |log| && log[i] == Entered(Stopping, ByOwner);
      assert l[i] == Entered(Stopping, ByOwner);
    }
  }

  /** The evidence the effect just logged adds. */
  lemma EvidenceGrows(cfg: Config, log: seq<Event>, e: Event, row: Row, container: string)
    ensures Bound(cfg, row) && e == LeaseEvent(cfg, row) ==> LeaseIn(cfg, log + [e], row)
    ensures e == ContainerConfirmed(container) && LeaseIn(cfg, log, row) ==> DeployIn(cfg, log + [e], row, container)
    ensures e == PeerAttached && cfg.overlay && DeployIn(cfg, log, row, container) ==>
        ReadyIn(cfg, log + [e], row, container)
    ensures e == Entered(Stopping, ByOwner) ==> StopAskedIn(log + [e])
    ensures e == StopConfirmed && StopAskedIn(log) ==> StopIn(log + [e])
    ensures e == PeerRevoked && cfg.overlay && StopIn(log) ==> RevokeIn(cfg, log + [e])
    ensures row.lease.Some? && e == LeaseCompleted(row.lease.value) && RevokeIn(cfg, log) ==>
        CloseIn(cfg, log + [e], row)
  {
    var l := log + [e];
    assert l[|log|] == e && l[..|log|] == log;
  }

  // ----- evidence carried by claims -----

  ghost predicate FlightEvidence(cfg: Config, log: seq<Event>, f: Flight) {
    && (f.item.state in {Leased, Deploying} ==> LeaseIn(cfg, log, f.item))
    && (f.item.state == Stopping ==> StopAskedIn(log))
    && match f.at
       case Claimed => true
       case GivingUp => true
       case LeaseSeen => f.item.state == LeasePending && LeaseIn(cfg, log, f.item)
       case Deployed(c) => f.item.state == Deploying && DeployIn(cfg, log, f.item, c)
       case Attached(c) => f.item.state == Deploying && cfg.overlay && ReadyIn(cfg, log, f.item, c)
       case AgentStopped => f.item.state == Stopping && StopIn(log)
       case PeerGone => f.item.state == Stopping && cfg.overlay && RevokeIn(cfg, log)
       case LeaseClosed => f.item.state == Stopping && CloseIn(cfg, log, f.item)
  }

  function LastEntered(log: seq<Event>): (r: Option<Event>) {
    if log == [] then None
    else if log[|log| - 1].Entered? then Some(log[|log| - 1])
    else LastEntered(log[..|log| - 1])
  }

  predicate ByWorkerLast(log: seq<Event>) {
    LastEntered(log).Some? && LastEntered(log).value.Entered? && LastEntered(log).value.actor.ByWorker?
  }

  ghost predicate RowEvidence(cfg: Config, row: Row, log: seq<Event>) {
    && (row.state == Requested || (LastEntered(log).Some? && LastEntered(log).value.Entered?
                                   && LastEntered(log).value.state == row.state))
    && (row.state in {Leased, Deploying, Running} ==> LeaseIn(cfg, log, row))
    && (row.state == Stopping ==> StopAskedIn(log))
    && (row.state == Running && ByWorkerLast(log) ==>
          row.container.Some? && row.container.value != "" && ReadyIn(cfg, log, row, row.container.value))
    && (row.state == Stopped && ByWorkerLast(log) ==> CloseIn(cfg, log, row))
  }

  ghost predicate Evidenced(cfg: Config, s: Sys) {
    RowEvidence(cfg, s.row, s.log) && forall w :: w in s.flights ==> FlightEvidence(cfg, s.log, s.flights[w])
  }

  lemma FlightEvidenceStays(cfg: Config, log: seq<Event>, more: seq<Event>, f: Flight)
    requires FlightEvidence(cfg, log, f)
    ensures FlightEvidence(cfg, log + more, f)
  {
    EvidenceStays(cfg, log, more, f.item, if f.at.Deployed? || f.at.Attached? then f.at.container else "");
  }

  lemma LastEnteredAppend(log: seq<Event>, e: Event)
    ensures LastEntered(log + [e]) == if e.Entered? then Some(e) else LastEntered(log)
  {
    assert (log + [e])[..|log|] == log;
  }

  // ----- evidence for the row -----

  predicate SameBinding(a: Row, b: Row) {
    a.lease == b.lease && a.provider == b.provider && a.hash == b.hash
  }

  lemma BindingIsEnough(cfg: Config, log: seq<Event>, a: Row, b: Row, container: string)
    requires SameBinding(a, b)
    ensures LeaseIn(cfg, log, a) ==> LeaseIn(cfg, log, b)
    ensures DeployIn(cfg, log, a, container) ==> DeployIn(cfg, log, b, container)
    ensures ReadyIn(cfg, log, a, container) ==> ReadyIn(cfg, log, b, container)
    ensures CloseIn(cfg, log, a) ==> CloseIn(cfg, log, b)
  {
    assert KeyOf(cfg, a) == KeyOf(cfg, b);
    forall l: seq<Event> | LeaseIn(cfg, l, a) ensures LeaseIn(cfg, l, b) {
      var i :| 0 <= i < |l| && l[i] == LeaseEvent(cfg, a);
      assert l[i] == LeaseEvent(cfg, b);
    }
  }

  /** A row that only changed its version or claim keeps its evidence, and a log that
      only gained effects keeps it too. */
  lemma RowEvidenceStays(cfg: Config, row: Row, after: Row, log: seq<Event>, more: seq<Event>)
    requires RowEvidence(cfg, row, log)
    requires SameBinding(row, after) && after.state == row.state && after.container == row.container
    requires |more| <= 1 && (|more| == 1 ==> !more[0].Entered?)
    ensures RowEvidence(cfg, after, log + more)
  {
    var c := if row.container.Some? then row.container.value else "";
    BindingIsEnough(cfg, log, row, after, c);
    EvidenceStays(cfg, log, more, after, c);
    if more == [] { assert log + more == log; } else { assert more == [more[0]]; LastEnteredAppend(log, more[0]); }
  }

  /** What a state change must rest on. */
  ghost predicate Justified(cfg: Config, before: Row, after: Row, log: seq<Event>, actor: Actor) {
    if after.state == before.state then SameBinding(before, after) && after.container == before.container
    else
      && (after.state in {Leased, Deploying, Running} ==> LeaseIn(cfg, log, after))
      && (after.state == Stopping ==> actor == ByOwner)
      && (after.state == Running && actor.ByWorker? ==>
            after.container.Some? && after.container.value != "" && ReadyIn(cfg, log, after, after.container.value))
      && (after.state == Stopped && actor.ByWorker? ==> CloseIn(cfg, log, after))
  }

  lemma WriteKeepsRowEvidence(cfg: Config, before: Row, after: Row, log: seq<Event>, actor: Actor)
    requires RowEvidence(cfg, before, log) && Justified(cfg, before, after, log, actor)
    ensures RowEvidence(cfg, after, log + Transition(before, after, actor))
  {
    var failed := if after.attempts > before.attempts then [AttemptFailed] else [];
    if after.state == before.state {
      assert Transition(before, after, actor) == failed;
      RowEvidenceStays(cfg, before, after, log, failed);
    } else {
      var e := Entered(after.state, actor);
      var l := log + failed;
      assert log + Transition(before, after, actor) == l + [e];
      var c := if after.container.Some? then after.container.value else "";
      EvidenceStays(cfg, log, failed, after, c);
      EvidenceStays(cfg, l, [e], after, c);
      EvidenceGrows(cfg, l, e, after, c);
      LastEnteredAppend(l, e);
    }
  }

  lemma CommitIsJustified(cfg: Config, s: Sys, w: string, alive: bool, provider: string)
    requires ClaimsCurrent(cfg, s) && Evidenced(cfg, s) && w in s.flights
    ensures Justified(cfg, s.row, CommitWrite(cfg, s, s.flights[w], alive, provider).row, s.log, ByWorker(w))
  {
    var f := s.flights[w];
    var write := CommitWrite(cfg, s, f, alive, provider);
    assert Current(s, w) && FlightEvidence(cfg, s.log, f);
    CommitMovesOn(cfg, s, f, alive, provider);
    if write.applied && f.item.state != Scheduling {
      assert SameBinding(f.item, write.row);
      BindingIsEnough(cfg, s.log, f.item, write.row, if f.at.Deployed? || f.at.Attached? then f.at.container else "");
    }
  }

  lemma StopIsJustified(cfg: Config, row: Row, log: seq<Event>, request: string)
    requires RowEvidence(cfg, row, log)
    ensures Justified(cfg, row, RequestStop(row, request).row, log, ByOwner)
  {
  }

  lemma HeartbeatIsJustified(cfg: Config, row: Row, log: seq<Event>, phase: AgentPhase, provider: string,
                             container: string)
    requires RowEvidence(cfg, row, log)
    ensures Justified(cfg, row, ReconcileFromAgent(row, phase, provider, container).row, log, ByHeartbeat)
  {
    BindingIsEnough(cfg, log, row, ReconcileFromAgent(row, phase, provider, container).row, "");
  }

  // ----- one step -----

  /** The effect a worker has just performed is the evidence its new point needs. */
  lemma MovedFlight(cfg: Config, s: Sys, f: Flight, at: Point, e: Event)
    requires FlightEvidence(cfg, s.log, f)
    requires
      || (at == LeaseSeen && f.item.state == LeasePending && Bound(cfg, f.item) && e == LeaseEvent(cfg, f.item))
      || (at.Deployed? && f.item.state == Deploying && e == ContainerConfirmed(at.container))
      || (at.Attached? && cfg.overlay && f.at == Deployed(at.container) && e == PeerAttached)
      || (at == AgentStopped && f.item.state == Stopping && e == StopConfirmed)
      || (at == PeerGone && cfg.overlay && f.at == AgentStopped && e == PeerRevoked)
      || (at == LeaseClosed && f.at == (if cfg.overlay then PeerGone else AgentStopped)
          && f.item.lease.Some? && e == LeaseCompleted(f.item.lease.value))
    ensures FlightEvidence(cfg, s.log + [e], f.(at := at))
  {
    var c := if at.Deployed? || at.Attached? then at.container else "";
    EvidenceGrows(cfg, s.log, e, f.item, c);
    EvidenceStays(cfg, s.log, [e], f.item, c);
  }

  lemma StepMovesFlight(cfg: Config, s: Sys, step: Step, w: string)
    requires w in s.flights && FlightEvidence(cfg, s.log, s.flights[w])
    requires w in Apply(cfg, s, step).flights && Apply(cfg, s, step).flights[w] != s.flights[w]
    ensures FlightEvidence(cfg, Apply(cfg, s, step).log, Apply(cfg, s, step).flights[w])
  {
    var f := s.flights[w];
    match step
    case SeeLease(_) => MovedFlight(cfg, s, f, LeaseSeen, LeaseEvent(cfg, f.item));
    case Deploy(_, c) => MovedFlight(cfg, s, f, Deployed(c), ContainerConfirmed(c));
    case Attach(_) => MovedFlight(cfg, s, f, Attached(f.at.container), PeerAttached);
    case StopAgent(_) => MovedFlight(cfg, s, f, AgentStopped, StopConfirmed);
    case Revoke(_) => MovedFlight(cfg, s, f, PeerGone, PeerRevoked);
    case SeeCompleted(_) => MovedFlight(cfg, s, f, LeaseClosed, LeaseCompleted(f.item.lease.value));
    case GiveUp(_, stopped) => EvidenceStays(cfg, s.log, GiveUpEvents(f, stopped), f.item, "");
    case _ =>
  }

  lemma FlightsKeepEvidence(cfg: Config, s: Sys, step: Step, w: string)
    requires Evidenced(cfg, s) && w in Apply(cfg, s, step).flights
    ensures FlightEvidence(cfg, Apply(cfg, s, step).log, Apply(cfg, s, step).flights[w])
  {
    var t := Apply(cfg, s, step);
    var more := LogGrows(cfg, s, step);
    FlightsCarryOver(cfg, s, step, w);
    if w !in s.flights {
      RowEvidenceStays(cfg, s.row, t.row, s.log, []);
      assert t.log == s.log + [];
    } else {
      assert FlightEvidence(cfg, s.log, s.flights[w]);
      if t.flights[w] == s.flights[w] { FlightEvidenceStays(cfg, s.log, more, s.flights[w]); }
      else { StepMovesFlight(cfg, s, step, w); }
    }
  }

  lemma CommitKeepsEvidence(cfg: Config, s: Sys, w: string, alive: bool, provider: string)
    requires ClaimsCurrent(cfg, s) && Evidenced(cfg, s) && w in s.flights
    ensures RowEvidence(cfg, ApplyCommit(cfg, s, w, alive, provider).row, ApplyCommit(cfg, s, w, alive, provider).log)
  {
    CommitIsJustified(cfg, s, w, alive, provider);
    WriteKeepsRowEvidence(cfg, s.row, CommitWrite(cfg, s, s.flights[w], alive, provider).row, s.log, ByWorker(w));
  }

  lemma OtherKeepsEvidence(cfg: Config, s: Sys, step: Step)
    requires Evidenced(cfg, s) && (step.OwnerStop? || step.Heartbeat?)
    ensures RowEvidence(cfg, ApplyOther(s, step).row, ApplyOther(s, step).log)
  {
    match step
    case OwnerStop(request) =>
      StopIsJustified(cfg, s.row, s.log, request);
      WriteKeepsRowEvidence(cfg, s.row, RequestStop(s.row, request).row, s.log, ByOwner);
    case Heartbeat(phase, provider, container) =>
      HeartbeatIsJustified(cfg, s.row, s.log, phase, provider, container);
      WriteKeepsRowEvidence(cfg, s.row, ReconcileFromAgent(s.row, phase, provider, container).row, s.log, ByHeartbeat);
  }

  lemma RowKeepsEvidence(cfg: Config, s: Sys, step: Step)
    requires ClaimsCurrent(cfg, s) && Evidenced(cfg, s)
    ensures RowEvidence(cfg, Apply(cfg, s, step).row, Apply(cfg, s, step).log)
  {
    if step.Commit? {
      if step.w in s.flights { CommitKeepsEvidence(cfg, s, step.w, step.alive, step.provider); }
    } else if step.OwnerStop? || step.Heartbeat? {
      OtherKeepsEvidence(cfg, s, step);
    } else {
      var more := LogGrows(cfg, s, step);
      EffectsLeaveRow(cfg, s, step);
      RowEvidenceStays(cfg, s.row, Apply(cfg, s, step).row, s.log, more);
    }
  }

  lemma StaysEvidenced(cfg: Config, s: Sys, step: Step)
    requires ClaimsCurrent(cfg, s) && Evidenced(cfg, s)
    ensures Evidenced(cfg, Apply(cfg, s, step))
  {
    RowKeepsEvidence(cfg, s, step);
    forall w | w in Apply(cfg, s, step).flights
      ensures FlightEvidence(cfg, Apply(cfg, s, step).log, Apply(cfg, s, step).flights[w])
    {
      FlightsKeepEvidence(cfg, s, step, w);
    }
  }

  // ----- what the log says of finalized storage still holds -----

  ghost predicate ChainBacks(cfg: Config, leases: LP.Leases, e: Event) {
    match e
    case LeaseActive(id, key, hash, blocks) =>
      && id in leases && leases[id].provider == key && leases[id].hash == hash && leases[id].consumer == cfg.bridge
      && leases[id].start <= leases[id].end && leases[id].end - leases[id].start == blocks
      && leases[id].state != LP.Created
    case LeaseCompleted(id) => id in leases && leases[id].consumer == cfg.bridge && leases[id].state == LP.Completed
    case _ => true
  }

  ghost predicate LogBacked(cfg: Config, s: Sys) {
    forall i :: 0 <= i < |s.log| ==> ChainBacks(cfg, s.leases, s.log[i])
  }

  lemma LeasesEvolve(cfg: Config, s: Sys, step: Step)
    ensures LP.Evolves(s.leases, Apply(cfg, s, step).leases)
  {
    match step
    case ChainCreate(id, provider, consumer, hash, duration, now) =>
      LP.CallsEvolve(s.leases, id, provider, consumer, hash, duration, now, true, MAX_LEASE_DURATION, LP.Active);
    case ChainUpdate(id, to, now) =>
      LP.CallsEvolve(s.leases, id, "", "", "", 0, now, true, MAX_LEASE_DURATION, to);
    case _ =>
  }

  lemma NewEventsBacked(cfg: Config, s: Sys, step: Step, i: nat)
    requires |s.log| <= i < |Apply(cfg, s, step).log|
    ensures ChainBacks(cfg, Apply(cfg, s, step).leases, Apply(cfg, s, step).log[i])
  {
  }

  lemma StaysBacked(cfg: Config, s: Sys, step: Step)
    requires LogBacked(cfg, s)
    ensures LogBacked(cfg, Apply(cfg, s, step))
  {
    var t := Apply(cfg, s, step);
    LeasesEvolve(cfg, s, step);
    var more := LogGrows(cfg, s, step);
    forall i | 0 <= i < |t.log| ensures ChainBacks(cfg, t.leases, t.log[i]) {
      if i < |s.log| { assert ChainBacks(cfg, s.leases, s.log[i]); } else { NewEventsBacked(cfg, s, step, i); }
    }
  }

  // ----- whole runs -----

  ghost predicate Sound(cfg: Config, s: Sys) {
    ClaimsCurrent(cfg, s) && Evidenced(cfg, s) && LogBacked(cfg, s)
  }

  lemma {:induction false} RunsStaySound(cfg: Config, s: Sys, steps: seq<Step>)
    requires Sound(cfg, s)
    ensures Sound(cfg, Exec(cfg, s, steps))
    decreases |steps|
  {
    if steps != [] {
      ClaimsStayCurrent(cfg, s, steps[0]);
      StaysEvidenced(cfg, s, steps[0]);
      StaysBacked(cfg, s, steps[0]);
      RunsStaySound(cfg, Apply(cfg, s, steps[0]), steps[1..]);
    }
  }

  /** In every run a RUNNING workload has observed, in finalized storage, the Active
      lease with exactly its lease id, provider key, resource hash and term; that lease
      is on chain with that identity.  If a worker (not a heartbeat) made it RUNNING,
      the Agent confirmed its container after that, and with an overlay the peer was
      attached after that again. */
  lemma RunningHasLease(cfg: Config, leases: LP.Leases, nextLease: nat, steps: seq<Step>)
    ensures var s := Exec(cfg, Init(leases, nextLease), steps);
            s.row.state == Running ==>
              && LeaseIn(cfg, s.log, s.row)
              && ChainBacks(cfg, s.leases, LeaseEvent(cfg, s.row))
              && (ByWorkerLast(s.log) ==>
                    s.row.container.Some? && ReadyIn(cfg, s.log, s.row, s.row.container.value))
  {
    RunsStaySound(cfg, Init(leases, nextLease), steps);
    var s := Exec(cfg, Init(leases, nextLease), steps);
    if s.row.state == Running {
      var i :| 0 <= i < |s.log| && s.log[i] == LeaseEvent(cfg, s.row);
      assert ChainBacks(cfg, s.leases, s.log[i]);
    }
  }

  /** In every run a workload that a worker made STOPPED had, after the owner's stop, its
      container stop confirmed, then (with an overlay) its peer revoked, then its lease
      observed Completed in finalized storage, where it still is Completed. */
  lemma StoppedIsCleanedUp(cfg: Config, leases: LP.Leases, nextLease: nat, steps: seq<Step>)
    ensures var s := Exec(cfg, Init(leases, nextLease), steps);
            s.row.state == Stopped && ByWorkerLast(s.log) ==>
              && CloseIn(cfg, s.log, s.row)
              && s.row.lease.value in s.leases && s.leases[s.row.lease.value].state == LP.Completed
  {
    RunsStaySound(cfg, Init(leases, nextLease), steps);
    var s := Exec(cfg, Init(leases, nextLease), steps);
    if s.row.state == Stopped && ByWorkerLast(s.log) {
      var i :| 0 <= i < |s.log| && s.log[i] == LeaseCompleted(s.row.lease.value);
      assert ChainBacks(cfg, s.leases, s.log[i]);
    }
  }
}
