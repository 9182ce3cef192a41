/** Where the lifecycle's cleanup and readiness promises stop, and exactly when they hold. */
module LifecycleLimits {
  import opened Base
  import opened Workloads
  import opened Lifecycle
  import opened LifecycleClaims
  import opened LifecycleEvidence
  import LP = LeasePallet

  // ----- composing runs -----

  lemma {:induction false} ExecThen(cfg: Config, s: Sys, steps: seq<Step>, more: seq<Step>)
    ensures Exec(cfg, s, steps + more) == Exec(cfg, Exec(cfg, s, steps), more)
    decreases |steps|
  {
    if steps == [] {
      assert steps + more == more;
    } else {
      assert (steps + more)[1..] == steps[1..] + more;
      ExecThen(cfg, Apply(cfg, s, steps[0]), steps[1..], more);
    }
  }

  lemma Next(cfg: Config, s: Sys, steps: seq<Step>, step: Step) returns (longer: seq<Step>)
    ensures longer == steps + [step]
    ensures Exec(cfg, s, longer) == Apply(cfg, Exec(cfg, s, steps), step)
  {
    longer := steps + [step];
    ExecThen(cfg, s, steps, [step]);
    assert [step][1..] == [];
  }

  // ----- RUNNING by heartbeat -----

  ghost predicate RunsByWorkerOnly(log: seq<Event>) {
    forall i :: 0 <= i < |log| && log[i].Entered? && log[i].state == Running ==> log[i].actor.ByWorker?
  }

  lemma StaysByWorkerOnly(cfg: Config, s: Sys, step: Step)
    requires RunsByWorkerOnly(s.log) && !(step.Heartbeat? && step.phase == PhaseRunning)
    ensures RunsByWorkerOnly(Apply(cfg, s, step).log)
  {
    var more := LogGrows(cfg, s, step);
  }

  lemma {:induction false} RunStaysByWorkerOnly(cfg: Config, s: Sys, steps: seq<Step>)
    requires RunsByWorkerOnly(s.log)
    requires forall i :: 0 <= i < |steps| ==> !(steps[i].Heartbeat? && steps[i].phase == PhaseRunning)
    ensures RunsByWorkerOnly(Exec(cfg, s, steps).log)
    decreases |steps|
  {
    if steps != [] {
      StaysByWorkerOnly(cfg, s, steps[0]);
      RunStaysByWorkerOnly(cfg, Apply(cfg, s, steps[0]), steps[1..]);
    }
  }

  lemma {:induction false} LastEnteredIsLogged(log: seq<Event>)
    ensures LastEntered(log).Some? ==> LastEntered(log).value in log && LastEntered(log).value.Entered?
    decreases |log|
  {
    if log != [] && !log[|log| - 1].Entered? { LastEnteredIsLogged(log[..|log| - 1]); }
  }

  /** In every run in which no heartbeat reports a running container, RUNNING means:
      lease finalized, then container confirmed, then (with an overlay) peer attached. */
  lemma RunningIsReadyWithoutHeartbeat(cfg: Config, leases: LP.Leases, nextLease: nat, steps: seq<Step>)
    requires forall i :: 0 <= i < |steps| ==> !(steps[i].Heartbeat? && steps[i].phase == PhaseRunning)
    ensures var s := Exec(cfg, Init(leases, nextLease), steps);
            s.row.state == Running ==> s.row.container.Some? && ReadyIn(cfg, s.log, s.row, s.row.container.value)
  {
    RunsStaySound(cfg, Init(leases, nextLease), steps);
    RunStaysByWorkerOnly(cfg, Init(leases, nextLease), steps);
    LastEnteredIsLogged(Exec(cfg, Init(leases, nextLease), steps).log);
  }

  /** An idle state on the deployment path, with its finalized lease from LEASED on. */
  ghost predicate Idle(cfg: Config, s: Sys, state: State, provider: string) {
    && s.row.state == state && s.row.worker == None && s.row.container == None && s.row.stopRequest == None
    && s.row.provider == Some(provider) && s.row.lease == Some(1) && s.row.hash == Some(cfg.resourceHash)
    && s.flights == map[] && !s.peer && PeerAttached !in s.log
    && (state == LeasePending ==> s.leases == map[])
    && (state != LeasePending ==> 1 in s.leases && s.leases[1].consumer == cfg.bridge && s.leases[1].state == LP.Active)
  }

  /** Claim and commit at once, in a state whose commit needs no external effect. */
  lemma Hop(cfg: Config, s: Sys, provider: string)
    requires s.flights == map[] && s.row.worker == None && s.row.state in {Requested, Scheduling, Leased}
    ensures var t := Apply(cfg, Apply(cfg, s, Claim("w", false)), Commit("w", true, provider));
            && t == s.(row := t.row, nextLease := t.nextLease, log := t.log)
            && t.row.worker == None && Rank(t.row.state) == Rank(s.row.state) + 1
            && (s.row.state != Scheduling ==>
                t.row == s.row.(state := t.row.state, version := t.row.version) && t.nextLease == s.nextLease)
            && (s.row.state == Scheduling ==>
                  t.row == s.row.(state := LeasePending, version := t.row.version, provider := Some(provider),
                                  lease := Some(s.nextLease), hash := Some(cfg.resourceHash)))
            && t.log == s.log + [Entered(t.row.state, ByWorker("w"))]
  {
    var c := Apply(cfg, s, Claim("w", false));
    assert c.flights == map["w" := Flight(c.row, Claimed)];
    assert c.flights - {"w"} == map[];
  }

  lemma HopNext(cfg: Config, steps: seq<Step>, provider: string) returns (longer: seq<Step>)
    ensures Exec(cfg, Init(map[], 1), longer)
         == Apply(cfg, Apply(cfg, Exec(cfg, Init(map[], 1), steps), Claim("w", false)), Commit("w", true, provider))
  {
    longer := Next(cfg, Init(map[], 1), steps, Claim("w", false));
    longer := Next(cfg, Init(map[], 1), longer, Commit("w", true, provider));
  }

  lemma ReachLeasePending(cfg: Config, provider: string) returns (steps: seq<Step>)
    ensures Idle(cfg, Exec(cfg, Init(map[], 1), steps), LeasePending, provider)
  {
    Hop(cfg, Init(map[], 1), "");
    steps := HopNext(cfg, [], "");
    Hop(cfg, Exec(cfg, Init(map[], 1), steps), provider);
    steps := HopNext(cfg, steps, provider);
  }

  lemma ReachActiveLease(cfg: Config, provider: string) returns (steps: seq<Step>)
    requires ValidConfig(cfg) && provider in cfg.keys
    ensures var s := Exec(cfg, Init(map[], 1), steps);
            && Idle(cfg, s.(leases := map[]), LeasePending, provider)
            && var blocks := LP.LeaseBlocks(cfg.durationSeconds);
               s.leases == map[1 := LP.Lease(cfg.keys[provider], cfg.bridge, cfg.resourceHash, 0, blocks, LP.Active)]
  {
    LP.LeaseBlocksIsCeiling(cfg.durationSeconds);
    steps := ReachLeasePending(cfg, provider);
    steps := Next(cfg, Init(map[], 1), steps,
                  ChainCreate(1, cfg.keys[provider], cfg.bridge, cfg.resourceHash,
                      LP.LeaseBlocks(cfg.durationSeconds), 0));
    steps := Next(cfg, Init(map[], 1), steps, ChainUpdate(1, LP.Active, 0));
  }

  lemma SeeAndLease(cfg: Config, s: Sys)
    requires s.flights == map[] && s.row.worker == None && s.row.state == LeasePending && LeaseIsActive(cfg, s, s.row)
    ensures var t := Apply(cfg, Apply(cfg, Apply(cfg, s, Claim("w", false)), SeeLease("w")), Commit("w", true, ""));
            && t == s.(row := t.row, log := t.log)
            && t.row == s.row.(state := Leased, version := t.row.version)
            && t.log == s.log + [LeaseEvent(cfg, s.row), Entered(Leased, ByWorker("w"))]
  {
    var c := Apply(cfg, s, Claim("w", false));
    assert c.flights == map["w" := Flight(c.row, Claimed)];
    var d := Apply(cfg, c, SeeLease("w"));
    assert d.flights == map["w" := Flight(c.row, LeaseSeen)] && d.flights - {"w"} == map[];
    assert d.log == s.log + [LeaseEvent(cfg, s.row)];
  }

  lemma ReachLeased(cfg: Config, provider: string) returns (steps: seq<Step>)
    requires ValidConfig(cfg) && provider in cfg.keys && |cfg.keys[provider]| == 32
    ensures Idle(cfg, Exec(cfg, Init(map[], 1), steps), Leased, provider)
  {
    steps := ReachActiveLease(cfg, provider);
    SeeAndLease(cfg, Exec(cfg, Init(map[], 1), steps));
    steps := Next(cfg, Init(map[], 1), steps, Claim("w", false));
    steps := Next(cfg, Init(map[], 1), steps, SeeLease("w"));
    steps := Next(cfg, Init(map[], 1), steps, Commit("w", true, ""));
  }

  lemma ReachDeploying(cfg: Config, provider: string) returns (steps: seq<Step>)
    requires ValidConfig(cfg) && provider in cfg.keys && |cfg.keys[provider]| == 32
    ensures Idle(cfg, Exec(cfg, Init(map[], 1), steps), Deploying, provider)
  {
    steps := ReachLeased(cfg, provider);
    Hop(cfg, Exec(cfg, Init(map[], 1), steps), "");
    steps := HopNext(cfg, steps, "");
  }

  /** With an overlay, one heartbeat suffices to make a workload RUNNING with no peer
      ever attached, whatever the configuration. */
  lemma HeartbeatRunsWithoutPeer(cfg: Config, provider: string) returns (steps: seq<Step>)
    requires ValidConfig(cfg) && cfg.overlay && provider in cfg.keys && |cfg.keys[provider]| == 32
    ensures var s := Exec(cfg, Init(map[], 1), steps);
            s.row.state == Running && !s.peer && PeerAttached !in s.log
  {
    steps := ReachDeploying(cfg, provider);
    steps := Next(cfg, Init(map[], 1), steps, Heartbeat(PhaseRunning, provider, "c"));
  }

  /** Likewise one heartbeat makes it STOPPED with its lease still Active. */
  lemma HeartbeatStopsWithLeaseActive(cfg: Config, provider: string) returns (steps: seq<Step>)
    requires ValidConfig(cfg) && provider in cfg.keys && |cfg.keys[provider]| == 32
    ensures var s := Exec(cfg, Init(map[], 1), steps);
            && s.row.state == Stopped && s.row.lease == Some(1)
            && 1 in s.leases && s.leases[1].state == LP.Active
  {
    steps := ReachDeploying(cfg, provider);
    steps := Next(cfg, Init(map[], 1), steps, Heartbeat(PhaseStopped, provider, ""));
  }

  // ----- the overlay peer after cleanup -----

  /** Some worker still holds a DEPLOYING claim with its attach ahead of it. */
  ghost predicate MayAttach(s: Sys) {
    exists w :: w in s.flights && s.flights[w].item.state == Deploying
                && (s.flights[w].at == Claimed || s.flights[w].at.Deployed?)
  }

  ghost predicate PeerCleared(cfg: Config, s: Sys) {
    ClaimsCurrent(cfg, s) && Rank(s.row.state) >= 5 && !s.peer && !MayAttach(s)
  }

  lemma FlightsDoNotRewind(cfg: Config, s: Sys, step: Step, w: string)
    requires w in s.flights && w in Apply(cfg, s, step).flights
    ensures var f, g := s.flights[w], Apply(cfg, s, step).flights[w];
            g.item == f.item && (g.at == f.at || (g.at != Claimed && (g.at.Deployed? ==> f.at == Claimed)))
  {
  }

  lemma AttachNeedsClaim(cfg: Config, s: Sys, step: Step)
    requires !s.peer && Apply(cfg, s, step).peer
    ensures MayAttach(s)
  {
  }

  lemma PeerStaysGoneStep(cfg: Config, s: Sys, step: Step)
    requires PeerCleared(cfg, s)
    ensures PeerCleared(cfg, Apply(cfg, s, step))
  {
    var t := Apply(cfg, s, step);
    ClaimsStayCurrent(cfg, s, step);
    RowMovesOn(cfg, s, step);
    if t.peer { AttachNeedsClaim(cfg, s, step); }
    forall w | w in t.flights && t.flights[w].item.state == Deploying
      ensures t.flights[w].at != Claimed && !t.flights[w].at.Deployed?
    {
      FlightsCarryOver(cfg, s, step, w);
      assert w in s.flights;
      FlightsDoNotRewind(cfg, s, step, w);
    }
  }

  lemma {:induction false} PeerStaysGone(cfg: Config, s: Sys, steps: seq<Step>)
    requires PeerCleared(cfg, s)
    ensures !Exec(cfg, s, steps).peer
    decreases |steps|
  {
    if steps != [] {
      PeerStaysGoneStep(cfg, s, steps[0]);
      PeerStaysGone(cfg, Apply(cfg, s, steps[0]), steps[1..]);
    }
  }

  lemma PeerComesBack(cfg: Config, s: Sys) returns (steps: seq<Step>)
    requires cfg.overlay && MayAttach(s)
    ensures Exec(cfg, s, steps).peer
  {
    var w :| w in s.flights && s.flights[w].item.state == Deploying
        && (s.flights[w].at == Claimed || s.flights[w].at.Deployed?);
    steps := [];
    if s.flights[w].at == Claimed { steps := Next(cfg, s, steps, Deploy(w, "c")); }
    steps := Next(cfg, s, steps, Attach(w));
  }

  /** From any reachable state past DEPLOYING with no managed peer, the peer stays gone in
      every continuation if and only if no worker in flight still has its attach ahead. */
  lemma PeerStaysGoneIff(cfg: Config, leases: LP.Leases, nextLease: nat, steps: seq<Step>)
    requires cfg.overlay
    ensures var s := Exec(cfg, Init(leases, nextLease), steps);
            Rank(s.row.state) >= 5 && !s.peer ==>
              ((forall more: seq<Step> :: !Exec(cfg, s, more).peer) <==> !MayAttach(s))
  {
    var s := Exec(cfg, Init(leases, nextLease), steps);
    RunsStaySound(cfg, Init(leases, nextLease), steps);
    if Rank(s.row.state) >= 5 && !s.peer {
      if MayAttach(s) {
        var more := PeerComesBack(cfg, s);
        assert Exec(cfg, s, more).peer;
      } else {
        forall more: seq<Step> ensures !Exec(cfg, s, more).peer { PeerStaysGone(cfg, s, more); }
      }
    }
  }

  /** A slow worker holds a DEPLOYING claim while the owner's stop is being served by "w". */
  ghost predicate SlowDeploy(cfg: Config, s: Sys) {
    && s.row.state == Stopping && s.row.lease == Some(1) && s.row.worker == Some("w")
    && "w" in s.flights && s.flights["w"] == Flight(s.row, Claimed) && At(s, "slow", Deploying, Claimed)
    && 1 in s.leases && s.leases[1].consumer == cfg.bridge && s.leases[1].state == LP.Active
  }

  lemma BecomesSlow(cfg: Config, s: Sys, provider: string)
    requires Idle(cfg, s, Deploying, provider)
    ensures SlowDeploy(cfg,
        Apply(cfg, Apply(cfg, Apply(cfg, s, Claim("slow", false)), OwnerStop("r")), Claim("w", false)))
  {
    var c := Apply(cfg, s, Claim("slow", false));
    assert c.flights == map["slow" := Flight(c.row, Claimed)];
    var d := Apply(cfg, c, OwnerStop("r"));
    assert d.flights == c.flights && d.row.worker == None && d.row.state == Stopping;
  }

  /** "w" cleans up: stop confirmed, peer revoked, lease Completed. */
  lemma CleansUp(cfg: Config, s: Sys)
    requires cfg.overlay && SlowDeploy(cfg, s)
    ensures var t := Apply(cfg, Apply(cfg, s, StopAgent("w")), Revoke("w"));
            && t.row == s.row && t.leases == s.leases
            && "w" in t.flights && t.flights["w"] == Flight(s.row, PeerGone) && At(t, "slow", Deploying, Claimed)
  {
    var b := Apply(cfg, s, StopAgent("w"));
    assert b.flights == s.flights["w" := Flight(s.row, AgentStopped)];
  }

  lemma ClosesLease(cfg: Config, s: Sys)
    requires cfg.overlay && s.row.state == Stopping && s.row.lease == Some(1)
    requires 1 in s.leases && s.leases[1].consumer == cfg.bridge && s.leases[1].state == LP.Active
    requires "w" in s.flights && s.flights["w"] == Flight(s.row, PeerGone) && At(s, "slow", Deploying, Claimed)
    ensures var t := Apply(cfg, Apply(cfg, s, ChainUpdate(1, LP.Completed, 0)), SeeCompleted("w"));
            && t.row == s.row && "w" in t.flights && t.flights["w"] == Flight(s.row, LeaseClosed)
            && At(t, "slow", Deploying, Claimed)
  {
    assert LeaseIsCompleted(cfg, Apply(cfg, s, ChainUpdate(1, LP.Completed, 0)), s.row);
  }

  lemma StopsBehindSlow(cfg: Config, s: Sys)
    requires "w" in s.flights && s.flights["w"] == Flight(s.row, LeaseClosed)
    requires s.row.state == Stopping && s.row.worker == Some("w") && At(s, "slow", Deploying, Claimed)
    ensures var t := Apply(cfg, s, Commit("w", true, ""));
            t.row.state == Stopped && ByWorkerLast(t.log) && At(t, "slow", Deploying, Claimed)
  {
    assert Transition(s.row, Released(s.row).(state := Stopped), ByWorker("w")) == [Entered(Stopped, ByWorker("w"))];
    LastEnteredAppend(s.log, Entered(Stopped, ByWorker("w")));
  }

  lemma SlowAttaches(cfg: Config, s: Sys)
    requires cfg.overlay && At(s, "slow", Deploying, Claimed)
    ensures var t := Apply(cfg, Apply(cfg, s, Deploy("slow", "c")), Attach("slow"));
            t.row == s.row && t.peer && LastEntered(t.log) == LastEntered(s.log)
  {
    LastEnteredAppend(s.log, ContainerConfirmed("c"));
    LastEnteredAppend(s.log + [ContainerConfirmed("c")], PeerAttached);
  }

  /** The condition is needed: a slow deploying worker leaves a managed peer behind a
      workload that another worker cleaned up and marked STOPPED. */
  lemma StoppedCanHoldPeer(cfg: Config, provider: string) returns (steps: seq<Step>)
    requires ValidConfig(cfg) && cfg.overlay && provider in cfg.keys && |cfg.keys[provider]| == 32
    ensures var s := Exec(cfg, Init(map[], 1), steps);
            s.row.state == Stopped && ByWorkerLast(s.log) && s.peer
  {
    var init := Init(map[], 1);
    steps := ReachDeploying(cfg, provider);
    BecomesSlow(cfg, Exec(cfg, init, steps), provider);
    steps := Next(cfg, init, steps, Claim("slow", false));
    steps := Next(cfg, init, steps, OwnerStop("r"));
    steps := Next(cfg, init, steps, Claim("w", false));
    CleansUp(cfg, Exec(cfg, init, steps));
    steps := Next(cfg, init, steps, StopAgent("w"));
    steps := Next(cfg, init, steps, Revoke("w"));
    ClosesLease(cfg, Exec(cfg, init, steps));
    steps := Next(cfg, init, steps, ChainUpdate(1, LP.Completed, 0));
    steps := Next(cfg, init, steps, SeeCompleted("w"));
    StopsBehindSlow(cfg, Exec(cfg, init, steps));
    steps := Next(cfg, init, steps, Commit("w", true, ""));
    SlowAttaches(cfg, Exec(cfg, init, steps));
    steps := Next(cfg, init, steps, Deploy("slow", "c"));
    steps := Next(cfg, init, steps, Attach("slow"));
  }

  // ----- a stop before a lease exists -----

  /** A worker that claimed STOPPING with no lease id fails to parse it and does nothing. */
  ghost predicate Lost(s: Sys) {
    forall w :: w in s.flights && s.flights[w].item.state == Stopping && s.flights[w].item.lease.None? ==>
        s.flights[w].at == Claimed
  }

  lemma LostStep(cfg: Config, s: Sys, step: Step)
    requires Lost(s)
    ensures Lost(Apply(cfg, s, step))
  {
  }

  lemma {:induction false} LostRun(cfg: Config, s: Sys, steps: seq<Step>)
    requires Lost(s)
    ensures Lost(Exec(cfg, s, steps))
    decreases |steps|
  {
    if steps != [] {
      LostStep(cfg, s, steps[0]);
      LostRun(cfg, Apply(cfg, s, steps[0]), steps[1..]);
    }
  }

  ghost predicate Wedged(cfg: Config, s: Sys, attempts: nat) {
    && ClaimsCurrent(cfg, s) && Lost(s)
    && s.row.state == Stopping && s.row.lease.None? && s.row.attempts == attempts
  }

  lemma WedgedCommit(cfg: Config, s: Sys, attempts: nat, w: string, alive: bool, provider: string)
    requires Wedged(cfg, s, attempts) && w in s.flights
    ensures ApplyCommit(cfg, s, w, alive, provider).row == s.row
  {
    assert Current(s, w);
    CommitMovesOn(cfg, s, s.flights[w], alive, provider);
  }

  lemma WedgedRow(cfg: Config, s: Sys, attempts: nat, step: Step)
    requires Wedged(cfg, s, attempts)
    ensures var r := Apply(cfg, s, step).row;
            r.state == Stopping && r.lease.None? && r.attempts == attempts
  {
    if step.Commit? {
      if step.w in s.flights { WedgedCommit(cfg, s, attempts, step.w, step.alive, step.provider); }
    } else if !Writes(step) {
      EffectsLeaveRow(cfg, s, step);
    }
  }

  lemma {:induction false} WedgedForever(cfg: Config, s: Sys, attempts: nat, steps: seq<Step>)
    requires Wedged(cfg, s, attempts)
    ensures Wedged(cfg, Exec(cfg, s, steps), attempts)
    decreases |steps|
  {
    if steps != [] {
      ClaimsStayCurrent(cfg, s, steps[0]);
      LostStep(cfg, s, steps[0]);
      WedgedRow(cfg, s, attempts, steps[0]);
      WedgedForever(cfg, Apply(cfg, s, steps[0]), attempts, steps[1..]);
    }
  }

  /** With a lease, its provider's report of a stopped container ends the stop. */
  lemma LeasedStopEnds(cfg: Config, s: Sys)
    requires s.row.state == Stopping && s.row.provider.Some?
    ensures Exec(cfg, s, [Heartbeat(PhaseStopped, s.row.provider.value, "")]).row.state == Stopped
  {
    var steps := [Heartbeat(PhaseStopped, s.row.provider.value, "")];
    var t := Apply(cfg, s, steps[0]);
    assert steps[1..] == [] && Exec(cfg, t, []) == t;
  }

  /** From every reachable STOPPING state, some continuation leaves STOPPING exactly when the row
      has a lease id; without one no continuation even counts an attempt. */
  lemma StopFinishesIff(cfg: Config, leases: LP.Leases, nextLease: nat, before: seq<Step>)
    requires Exec(cfg, Init(leases, nextLease), before).row.state == Stopping
    ensures var s := Exec(cfg, Init(leases, nextLease), before);
            && ((exists more :: Exec(cfg, s, more).row.state != Stopping) <==> s.row.lease.Some?)
            && (s.row.lease.None? ==> forall more :: Exec(cfg, s, more).row.attempts == s.row.attempts)
  {
    var s := Exec(cfg, Init(leases, nextLease), before);
    RunsStaySound(cfg, Init(leases, nextLease), before);
    LostRun(cfg, Init(leases, nextLease), before);
    if s.row.lease.Some? {
      LeasedStopEnds(cfg, s);
    } else {
      forall more ensures Exec(cfg, s, more).row.state == Stopping
          && Exec(cfg, s, more).row.attempts == s.row.attempts {
        WedgedForever(cfg, s, s.row.attempts, more);
      }
    }
  }

  /** An owner's first stop of a live workload can be finished exactly when the workload was past
      SCHEDULING at the time, that is, when a lease had been assigned. */
  lemma StopRequestFinishesIff(cfg: Config, leases: LP.Leases, nextLease: nat, before: seq<Step>, request: string)
    requires var s := Exec(cfg, Init(leases, nextLease), before);
             s.row.state !in {Stopped, Completed, Failed} && s.row.stopRequest.None?
    ensures var s := Exec(cfg, Init(leases, nextLease), before);
            var t := Apply(cfg, s, OwnerStop(request));
            && t.row.state == Stopping
            && ((exists more :: Exec(cfg, t, more).row.state != Stopping) <==> s.row.state !in {Requested, Scheduling})
  {
    var s := Exec(cfg, Init(leases, nextLease), before);
    RunsStaySound(cfg, Init(leases, nextLease), before);
    StoppingRun(cfg, Init(leases, nextLease), before);
    var steps := Next(cfg, Init(leases, nextLease), before, OwnerStop(request));
    StopFinishesIff(cfg, leases, nextLease, steps);
  }

  lemma StoppingStep(cfg: Config, s: Sys, step: Step)
    requires s.row.state == Stopping ==> s.row.stopRequest.Some?
    ensures var t := Apply(cfg, s, step); t.row.state == Stopping ==> t.row.stopRequest.Some?
  {
  }

  lemma {:induction false} StoppingRun(cfg: Config, s: Sys, steps: seq<Step>)
    requires s.row.state == Stopping ==> s.row.stopRequest.Some?
    ensures var t := Exec(cfg, s, steps); t.row.state == Stopping ==> t.row.stopRequest.Some?
    decreases |steps|
  {
    if steps != [] {
      StoppingStep(cfg, s, steps[0]);
      StoppingRun(cfg, Apply(cfg, s, steps[0]), steps[1..]);
    }
  }
}
