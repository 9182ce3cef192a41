/** When a RUNNING workload is ready and a STOPPED one cleaned up, whoever made it so. */
module LifecycleReady {
  import opened Workloads
  import opened Lifecycle
  import opened LifecycleClaims
  import opened LifecycleEvidence
  import LifecycleLimits
  import LP = LeasePallet

  /** The last effect of a deployment. */
  predicate IsMark(cfg: Config, e: Event) {
    if cfg.overlay then e == PeerAttached else e.ContainerConfirmed?
  }

  ghost predicate Ready(cfg: Config, log: seq<Event>, row: Row) {
    exists container :: ReadyIn(cfg, log, row, container)
  }

  ghost predicate Marked(cfg: Config, log: seq<Event>) {
    exists i :: 0 <= i < |log| && IsMark(cfg, log[i])
  }

  /** Until the workload is stopping, a deployment's last effect has the others before it, and
      the managed peer is there once it was attached. */
  ghost predicate Prepared(cfg: Config, s: Sys) {
    Rank(s.row.state) <= 5 ==>
      && (Marked(cfg, s.log) ==> Ready(cfg, s.log, s.row))
      && (cfg.overlay ==> (s.peer <==> Marked(cfg, s.log)))
  }

  lemma ReadyIsMarked(cfg: Config, log: seq<Event>, row: Row)
    requires Ready(cfg, log, row)
    ensures Marked(cfg, log)
  {
    var c :| ReadyIn(cfg, log, row, c);
    if cfg.overlay {
      var i :| 0 <= i < |log| && log[i] == PeerAttached && DeployIn(cfg, log[..i], row, c);
      assert IsMark(cfg, log[i]);
    } else {
      var i :| 0 <= i < |log| && log[i] == ContainerConfirmed(c) && LeaseIn(cfg, log[..i], row);
      assert IsMark(cfg, log[i]);
    }
  }

  lemma ReadyStays(cfg: Config, log: seq<Event>, more: seq<Event>, row: Row, after: Row)
    requires Ready(cfg, log, row) && SameBinding(row, after)
    ensures Ready(cfg, log + more, after)
  {
    var c :| ReadyIn(cfg, log, row, c);
    EvidenceStays(cfg, log, more, row, c);
    BindingIsEnough(cfg, log + more, row, after, c);
  }

  /** A step that logs a last effect is a worker's, and leaves the row alone. */
  lemma MarkIsAWorkers(cfg: Config, s: Sys, step: Step, i: nat) returns (w: string)
    requires |s.log| <= i < |Apply(cfg, s, step).log| && IsMark(cfg, Apply(cfg, s, step).log[i])
    ensures var t := Apply(cfg, s, step);
            && t.row == s.row && w in s.flights && w in t.flights && t.flights[w].item == s.flights[w].item
            && s.flights[w].item.state == Deploying && (cfg.overlay ==> t.peer)
            && (if cfg.overlay then t.flights[w].at.Attached? else t.flights[w].at.Deployed?)
  {
    w := if step.Attach? || step.Deploy? then step.w else "";
  }

  lemma NewMarkIsReady(cfg: Config, s: Sys, step: Step, i: nat)
    requires ClaimsCurrent(cfg, s) && Evidenced(cfg, s)
    requires |s.log| <= i < |Apply(cfg, s, step).log| && IsMark(cfg, Apply(cfg, s, step).log[i])
    ensures var t := Apply(cfg, s, step); Ready(cfg, t.log, t.row) && (cfg.overlay ==> t.peer)
  {
    var t := Apply(cfg, s, step);
    var w := MarkIsAWorkers(cfg, s, step, i);
    StaysEvidenced(cfg, s, step);
    var f := t.flights[w];
    assert FlightEvidence(cfg, t.log, f) && Current(s, w);
    assert ReadyIn(cfg, t.log, f.item, f.at.container);
    assert f.item.lease.Some? && SameBinding(f.item, t.row);
    BindingIsEnough(cfg, t.log, f.item, t.row, f.at.container);
  }

  /** Nothing is revoked before the workload is stopping, nor attached without being logged. */
  lemma PeerMoves(cfg: Config, s: Sys, step: Step)
    requires ClaimsCurrent(cfg, s) && Rank(Apply(cfg, s, step).row.state) <= 5
    ensures var t := Apply(cfg, s, step);
            && (s.peer ==> t.peer)
            && (t.peer && !s.peer ==> cfg.overlay && |t.log| == |s.log| + 1 && t.log[|s.log|] == PeerAttached)
  {
    if step.Revoke? && step.w in s.flights { assert Current(s, step.w); }
  }

  lemma MarksCarryOver(cfg: Config, s: Sys, step: Step)
    requires Marked(cfg, s.log)
    ensures Marked(cfg, Apply(cfg, s, step).log)
  {
    var more := LogGrows(cfg, s, step);
    var i :| 0 <= i < |s.log| && IsMark(cfg, s.log[i]);
    assert IsMark(cfg, (s.log + more)[i]);
  }

  lemma ReadyIsBound(cfg: Config, log: seq<Event>, row: Row)
    requires Ready(cfg, log, row)
    ensures row.lease.Some?
  {
  }

  lemma StaysPrepared(cfg: Config, s: Sys, step: Step)
    requires ClaimsCurrent(cfg, s) && Evidenced(cfg, s) && Prepared(cfg, s)
    ensures Prepared(cfg, Apply(cfg, s, step))
  {
    var t := Apply(cfg, s, step);
    RowMovesOn(cfg, s, step);
    if Rank(t.row.state) <= 5 {
      PeerMoves(cfg, s, step);
      var more := LogGrows(cfg, s, step);
      if Marked(cfg, s.log) {
        MarksCarryOver(cfg, s, step);
        ReadyIsBound(cfg, s.log, s.row);
        ReadyStays(cfg, s.log, more, s.row, t.row);
      } else if Marked(cfg, t.log) {
        var i :| 0 <= i < |t.log| && IsMark(cfg, t.log[i]);
        assert t.log[i] == (s.log + more)[i] && i >= |s.log|;
        NewMarkIsReady(cfg, s, step, i);
      } else if t.peer && !s.peer {
        assert IsMark(cfg, t.log[|s.log|]);
      }
    }
  }

  lemma {:induction false} RunStaysPrepared(cfg: Config, s: Sys, steps: seq<Step>)
    requires Sound(cfg, s) && Prepared(cfg, s)
    ensures Prepared(cfg, Exec(cfg, s, steps))
    decreases |steps|
  {
    if steps != [] {
      var t := Apply(cfg, s, steps[0]);
      StaysPrepared(cfg, s, steps[0]);
      RunsStaySound(cfg, s, [steps[0]]);
      assert [steps[0]][1..] == [] && Exec(cfg, t, []) == t;
      RunStaysPrepared(cfg, t, steps[1..]);
    }
  }

  /** In every run, whoever made the workload RUNNING: the finalized lease, after it the
      confirmed container and after that the attached peer are all there exactly when the peer
      is managed now; without an overlay, exactly when some worker had a container confirmed. */
  lemma RunningIsReadyIff(cfg: Config, leases: LP.Leases, nextLease: nat, steps: seq<Step>)
    ensures var s := Exec(cfg, Init(leases, nextLease), steps);
            s.row.state == Running ==>
              (Ready(cfg, s.log, s.row) <==>
                 if cfg.overlay then s.peer else exists i :: 0 <= i < |s.log| && s.log[i].ContainerConfirmed?)
  {
    var s := Exec(cfg, Init(leases, nextLease), steps);
    RunsStaySound(cfg, Init(leases, nextLease), []);
    RunStaysPrepared(cfg, Init(leases, nextLease), steps);
    if s.row.state == Running {
      if Ready(cfg, s.log, s.row) { ReadyIsMarked(cfg, s.log, s.row); }
      assert !cfg.overlay ==>
          (Marked(cfg, s.log) <==> exists i :: 0 <= i < |s.log| && s.log[i].ContainerConfirmed?) by {
        if !cfg.overlay {
          if Marked(cfg, s.log) {
            var i :| 0 <= i < |s.log| && IsMark(cfg, s.log[i]);
            assert s.log[i].ContainerConfirmed?;
          } else {
            forall i | 0 <= i < |s.log| ensures !s.log[i].ContainerConfirmed? { assert !IsMark(cfg, s.log[i]); }
          }
        }
      }
    }
  }

  /** So a heartbeat that reports a DEPLOYING workload's container as running makes it ready
      exactly when its peer is managed at that moment. */
  lemma HeartbeatIsReadyIff(cfg: Config, leases: LP.Leases, nextLease: nat, steps: seq<Step>, provider: string,
                            container: string)
    requires cfg.overlay
    ensures var s := Exec(cfg, Init(leases, nextLease), steps);
            var t := Apply(cfg, s, Heartbeat(PhaseRunning, provider, container));
            s.row.state == Deploying && t.row.state == Running ==> (Ready(cfg, t.log, t.row) <==> s.peer)
  {
    var init := Init(leases, nextLease);
    var longer := LifecycleLimits.Next(cfg, init, steps, Heartbeat(PhaseRunning, provider, container));
    RunningIsReadyIff(cfg, leases, nextLease, longer);
  }

  // ----- cleaned up, whoever marked it STOPPED -----

  /** Whoever saw the lease Completed had the cleanup before it behind them. */
  ghost predicate Closing(cfg: Config, s: Sys) {
    forall i :: 0 <= i < |s.log| && s.log[i].LeaseCompleted? ==> CloseIn(cfg, s.log, s.row)
  }

  lemma CloseIsAWorkers(cfg: Config, s: Sys, step: Step, i: nat) returns (w: string)
    requires |s.log| <= i < |Apply(cfg, s, step).log| && Apply(cfg, s, step).log[i].LeaseCompleted?
    ensures var t := Apply(cfg, s, step);
            && t.row == s.row && w in s.flights && w in t.flights && t.flights[w].item == s.flights[w].item
            && t.flights[w].at == LeaseClosed
  {
    w := if step.SeeCompleted? then step.w else "";
  }

  lemma NewCloseIsClosed(cfg: Config, s: Sys, step: Step, i: nat)
    requires ClaimsCurrent(cfg, s) && Evidenced(cfg, s)
    requires |s.log| <= i < |Apply(cfg, s, step).log| && Apply(cfg, s, step).log[i].LeaseCompleted?
    ensures var t := Apply(cfg, s, step); CloseIn(cfg, t.log, t.row)
  {
    var t := Apply(cfg, s, step);
    var w := CloseIsAWorkers(cfg, s, step, i);
    StaysEvidenced(cfg, s, step);
    var f := t.flights[w];
    assert FlightEvidence(cfg, t.log, f);
    assert Current(s, w) && SameBinding(f.item, t.row);
    BindingIsEnough(cfg, t.log, f.item, t.row, "");
  }

  lemma StaysClosing(cfg: Config, s: Sys, step: Step)
    requires ClaimsCurrent(cfg, s) && Evidenced(cfg, s) && Closing(cfg, s)
    ensures Closing(cfg, Apply(cfg, s, step))
  {
    var t := Apply(cfg, s, step);
    RowMovesOn(cfg, s, step);
    var more := LogGrows(cfg, s, step);
    forall i | 0 <= i < |t.log| && t.log[i].LeaseCompleted? ensures CloseIn(cfg, t.log, t.row) {
      if i < |s.log| {
        assert s.log[i] == t.log[i];
        EvidenceStays(cfg, s.log, more, s.row, "");
        BindingIsEnough(cfg, t.log, s.row, t.row, "");
      } else {
        NewCloseIsClosed(cfg, s, step, i);
      }
    }
  }

  lemma {:induction false} RunStaysClosing(cfg: Config, s: Sys, steps: seq<Step>)
    requires Sound(cfg, s) && Closing(cfg, s)
    ensures Closing(cfg, Exec(cfg, s, steps))
    decreases |steps|
  {
    if steps != [] {
      var t := Apply(cfg, s, steps[0]);
      StaysClosing(cfg, s, steps[0]);
      RunsStaySound(cfg, s, [steps[0]]);
      assert [steps[0]][1..] == [] && Exec(cfg, t, []) == t;
      RunStaysClosing(cfg, t, steps[1..]);
    }
  }

  /** In every run, whoever marked the workload STOPPED: its container stopped after the owner's
      request, then its peer revoked, then its lease Completed, all in that order, exactly when
      some worker has seen the lease Completed. */
  lemma StoppedIsCleanIff(cfg: Config, leases: LP.Leases, nextLease: nat, steps: seq<Step>)
    ensures var s := Exec(cfg, Init(leases, nextLease), steps);
            s.row.state == Stopped ==>
              (CloseIn(cfg, s.log, s.row) <==> exists i :: 0 <= i < |s.log| && s.log[i].LeaseCompleted?)
  {
    RunsStaySound(cfg, Init(leases, nextLease), []);
    RunStaysClosing(cfg, Init(leases, nextLease), steps);
  }

  // ----- the peer, and what ends an attempt -----

  /** Attached, and not revoked since. */
  ghost predicate Managed(log: seq<Event>) {
    exists i :: 0 <= i < |log| && AttachedAt(log, i)
  }

  ghost predicate AttachedAt(log: seq<Event>, i: nat) {
    i < |log| && log[i] == PeerAttached && forall j :: i < j < |log| ==> log[j] != PeerRevoked
  }

  lemma ManagedAppend(log: seq<Event>, e: Event)
    ensures Managed(log + [e]) <==> e == PeerAttached || (e != PeerRevoked && Managed(log))
  {
    if e == PeerAttached { assert AttachedAt(log + [e], |log|); }
    if e != PeerRevoked && Managed(log) {
      var i :| 0 <= i < |log| && AttachedAt(log, i);
      assert AttachedAt(log + [e], i);
    }
    if Managed(log + [e]) && e != PeerAttached {
      var i :| 0 <= i < |log + [e]| && AttachedAt(log + [e], i);
      assert (log + [e])[|log|] == e;
      assert forall j :: 0 <= j < |log| ==> (log + [e])[j] == log[j];
      assert AttachedAt(log, i);
    }
  }

  lemma ManagedTransition(log: seq<Event>, before: Row, after: Row, actor: Actor)
    ensures Managed(log + Transition(before, after, actor)) <==> Managed(log)
  {
    var failed := if after.attempts > before.attempts then [AttemptFailed] else [];
    var entered := if after.state != before.state then [Entered(after.state, actor)] else [];
    assert log + Transition(before, after, actor) == log + failed + entered;
    ManagedAppend(log, AttemptFailed);
    ManagedAppend(log + failed, Entered(after.state, actor));
    assert log + [] == log && log + failed + [] == log + failed;
  }

  lemma StaysManaged(cfg: Config, s: Sys, step: Step)
    requires s.peer <==> Managed(s.log)
    ensures var t := Apply(cfg, s, step); t.peer <==> Managed(t.log)
  {
    var t := Apply(cfg, s, step);
    if step.Commit? || step.OwnerStop? || step.Heartbeat? {
      var actor := if step.OwnerStop? then ByOwner else if step.Heartbeat? then ByHeartbeat else ByWorker(step.w);
      ManagedTransition(s.log, s.row, t.row, actor);
      assert t.log == s.log + Transition(s.row, t.row, actor);
    } else if t.log != s.log {
      assert |t.log| == |s.log| + 1 && t.log == s.log + [t.log[|s.log|]];
      ManagedAppend(s.log, t.log[|s.log|]);
    }
  }

  lemma {:induction false} RunStaysManaged(cfg: Config, s: Sys, steps: seq<Step>)
    requires s.peer <==> Managed(s.log)
    ensures var t := Exec(cfg, s, steps); t.peer <==> Managed(t.log)
    decreases |steps|
  {
    if steps != [] {
      StaysManaged(cfg, s, steps[0]);
      RunStaysManaged(cfg, Apply(cfg, s, steps[0]), steps[1..]);
    }
  }

  /** In every run the peer is managed exactly when some worker attached it and none has revoked it
      since. */
  lemma PeerIsManagedIff(cfg: Config, leases: LP.Leases, nextLease: nat, steps: seq<Step>)
    ensures var s := Exec(cfg, Init(leases, nextLease), steps); s.peer <==> Managed(s.log)
  {
    RunStaysManaged(cfg, Init(leases, nextLease), steps);
  }

  /** A worker can give an attempt up exactly before it has placed, leased or deployed the workload,
      between deploying and attaching, and anywhere before the lease of a stopping one is closed; a
      deployed container may then be stopped, and nothing else is logged. */
  lemma GiveUpIff(cfg: Config, s: Sys, w: string, stopped: bool)
    requires w in s.flights
    ensures var t, f := Apply(cfg, s, GiveUp(w, stopped)), s.flights[w];
            var state, at := f.item.state, f.at;
            if || (at == Claimed && (state == Scheduling || state == LeasePending || state == Deploying))
               || (cfg.overlay && state == Deploying && at.Deployed?)
               || (state == Stopping && f.item.lease.Some? && (at == Claimed || at == AgentStopped || at == PeerGone))
            then && t == s.(flights := s.flights[w := Flight(f.item, GivingUp)], log := t.log)
                 && t.log == s.log + (if stopped && at.Deployed? then [StopConfirmed] else [])
            else t == s
  {
  }
}
