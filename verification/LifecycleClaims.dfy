/** What every interleaving of workers keeps about claims, rows and the attempt budget. */
module LifecycleClaims {
  import opened Base
  import opened Workloads
  import opened Lifecycle
  import LeasePallet

  /** A claimed item whose version is still the row's is the row itself; any other
      claim only lags behind the row. */
  ghost predicate Current(s: Sys, w: string)
    requires w in s.flights
  {
    var item := s.flights[w].item;
    && item.worker == Some(w) && Claimable(item.state)
    && (item == s.row || Behind(item, s.row))
  }

  ghost predicate ClaimsCurrent(cfg: Config, s: Sys) {
    && LeaseColumns(s.row, cfg.resourceHash)
    && forall w :: w in s.flights ==> Current(s, w) && LeaseColumns(s.flights[w].item, cfg.resourceHash)
  }

  // ----- the row only moves on -----

  lemma CommitMovesOn(cfg: Config, s: Sys, f: Flight, alive: bool, provider: string)
    requires LeaseColumns(s.row, cfg.resourceHash) && (f.item == s.row || Behind(f.item, s.row))
    ensures var write := CommitWrite(cfg, s, f, alive, provider);
            && LeaseColumns(write.row, cfg.resourceHash)
            && if write.applied then Behind(s.row, write.row) && s.row == f.item else write.row == s.row
  {
  }

  lemma OtherMovesOn(cfg: Config, s: Sys, step: Step)
    requires LeaseColumns(s.row, cfg.resourceHash)
    ensures var t := ApplyOther(s, step);
            && LeaseColumns(t.row, cfg.resourceHash) && t.flights == s.flights
            && (t.row == s.row || Behind(s.row, t.row))
            && t.row.attempts == s.row.attempts
  {
  }

  lemma RowMovesOn(cfg: Config, s: Sys, step: Step)
    requires ClaimsCurrent(cfg, s)
    ensures var t := Apply(cfg, s, step);
            && LeaseColumns(t.row, cfg.resourceHash)
            && (t.row == s.row || Behind(s.row, t.row))
  {
    OtherMovesOn(cfg, s, step);
    if step.Commit? && step.w in s.flights {
      assert Current(s, step.w);
      CommitMovesOn(cfg, s, s.flights[step.w], step.alive, step.provider);
    }
  }

  /** A flight after a step is an earlier one, or a claim of the row just taken. */
  lemma FlightsCarryOver(cfg: Config, s: Sys, step: Step, w: string)
    requires w in Apply(cfg, s, step).flights
    ensures var t := Apply(cfg, s, step);
            || (w in s.flights && t.flights[w].item == s.flights[w].item)
            || (w !in s.flights && t.flights[w] == Flight(t.row, Claimed) && t.row.worker == Some(w)
                && Claimable(t.row.state) && step.Claim?)
  {
  }

  lemma ClaimsStayCurrent(cfg: Config, s: Sys, step: Step)
    requires ClaimsCurrent(cfg, s)
    ensures ClaimsCurrent(cfg, Apply(cfg, s, step))
  {
    var t := Apply(cfg, s, step);
    RowMovesOn(cfg, s, step);
    forall w | w in t.flights ensures Current(t, w) && LeaseColumns(t.flights[w].item, cfg.resourceHash) {
      FlightsCarryOver(cfg, s, step, w);
      if w in s.flights { assert Current(s, w); }
    }
  }

  // ----- the attempt budget -----

  function Failures(log: seq<Event>): (r: nat) {
    if log == [] then 0 else Failures(log[..|log| - 1]) + if log[|log| - 1].AttemptFailed? then 1 else 0
  }

  function Entries(log: seq<Event>): (r: nat) {
    if log == [] then 0 else Entries(log[..|log| - 1]) + if log[|log| - 1].Entered? then 1 else 0
  }

  lemma CountsAppend(log: seq<Event>, e: Event)
    ensures Failures(log + [e]) == Failures(log) + if e.AttemptFailed? then 1 else 0
    ensures Entries(log + [e]) == Entries(log) + if e.Entered? then 1 else 0
  {
    assert (log + [e])[..|log|] == log;
  }

  lemma CountsTransition(log: seq<Event>, before: Row, after: Row, actor: Actor)
    ensures var l := log + Transition(before, after, actor);
            && Failures(l) == Failures(log) + (if after.attempts > before.attempts then 1 else 0)
            && Entries(l) == Entries(log) + (if after.state != before.state then 1 else 0)
  {
    var failed := if after.attempts > before.attempts then log + [AttemptFailed] else log;
    CountsAppend(log, AttemptFailed);
    CountsAppend(failed, Entered(after.state, actor));
    assert log + Transition(before, after, actor) ==
           if after.state != before.state then failed + [Entered(after.state, actor)] else failed;
  }

  predicate Writes(step: Step) {
    step.Commit? || step.OwnerStop? || step.Heartbeat?
  }

  /** A step that does not write the row logs at most one effect, and touches at most the
      row's claim. */
  lemma LogGrows(cfg: Config, s: Sys, step: Step) returns (more: seq<Event>)
    ensures Apply(cfg, s, step).log == s.log + more
    ensures !Writes(step) ==> |more| <= 1 && (|more| == 1 ==> !more[0].Entered? && !more[0].AttemptFailed?)
  {
    var t := Apply(cfg, s, step);
    assert s.log + [] == s.log;
    more := t.log[|s.log|..];
  }

  lemma EffectsLeaveRow(cfg: Config, s: Sys, step: Step)
    requires !Writes(step)
    ensures var t := Apply(cfg, s, step);
            t.row == s.row.(version := t.row.version, worker := t.row.worker)
  {
  }

  lemma EffectsDoNotCount(log: seq<Event>, more: seq<Event>)
    requires |more| <= 1 && (|more| == 1 ==> !more[0].Entered? && !more[0].AttemptFailed?)
    ensures Failures(log + more) == Failures(log) && Entries(log + more) == Entries(log)
  {
    if more == [] { assert log + more == log; } else { assert more == [more[0]]; CountsAppend(log, more[0]); }
  }

  ghost predicate BudgetOf(cfg: Config, row: Row, log: seq<Event>) {
    && row.attempts == Failures(log) <= cfg.maxAttempts
    && (row.state != Failed ==> row.attempts < cfg.maxAttempts)
    && (Rank(row.state) <= 5 ==> Entries(log) == Rank(row.state))
  }

  ghost predicate WithinBudget(cfg: Config, s: Sys) {
    BudgetOf(cfg, s.row, s.log)
  }

  /** A write advances by one position or leaves the deployment path, or spends one
      attempt in place, or spends the last one. */
  ghost predicate AdvancesOrSpends(cfg: Config, before: Row, after: Row) {
    || (after.attempts == before.attempts && (before.state == Failed ==> after.state == Failed)
        && (after.state == before.state || Rank(after.state) == Rank(before.state) + 1 || Rank(after.state) > 5))
    || (after.attempts == before.attempts + 1 < cfg.maxAttempts && after.state == before.state)
    || (after.attempts == before.attempts + 1 == cfg.maxAttempts && after.state == Failed)
  }

  lemma CommitAdvancesOrSpends(cfg: Config, s: Sys, f: Flight, alive: bool, provider: string)
    requires f.item == s.row || Behind(f.item, s.row)
    requires s.row.state != Failed ==> s.row.attempts < cfg.maxAttempts
    ensures AdvancesOrSpends(cfg, s.row, CommitWrite(cfg, s, f, alive, provider).row)
  {
  }

  lemma OtherAdvances(cfg: Config, s: Sys, step: Step)
    requires step.OwnerStop? || step.Heartbeat?
    ensures AdvancesOrSpends(cfg, s.row, ApplyOther(s, step).row)
  {
  }

  lemma WriteStaysWithinBudget(cfg: Config, before: Row, after: Row, log: seq<Event>, actor: Actor)
    requires BudgetOf(cfg, before, log) && AdvancesOrSpends(cfg, before, after)
    ensures BudgetOf(cfg, after, log + Transition(before, after, actor))
  {
    CountsTransition(log, before, after, actor);
  }

  lemma StaysWithinBudget(cfg: Config, s: Sys, step: Step)
    requires ClaimsCurrent(cfg, s) && WithinBudget(cfg, s)
    ensures WithinBudget(cfg, Apply(cfg, s, step))
  {
    var t := Apply(cfg, s, step);
    match step
    case Commit(w, alive, provider) =>
      if w in s.flights {
        assert Current(s, w);
        CommitAdvancesOrSpends(cfg, s, s.flights[w], alive, provider);
        WriteStaysWithinBudget(cfg, s.row, t.row, s.log, ByWorker(w));
      }
    case OwnerStop(_) => OtherAdvances(cfg, s, step); WriteStaysWithinBudget(cfg, s.row, t.row, s.log, ByOwner);
    case Heartbeat(_, _, _) => OtherAdvances(cfg, s, step);
        WriteStaysWithinBudget(cfg, s.row, t.row, s.log, ByHeartbeat);
    case _ =>
      var more := LogGrows(cfg, s, step);
      EffectsLeaveRow(cfg, s, step);
      EffectsDoNotCount(s.log, more);
  }

  lemma {:induction false} RunsKeepClaims(cfg: Config, s: Sys, steps: seq<Step>)
    requires ClaimsCurrent(cfg, s) && WithinBudget(cfg, s)
    ensures ClaimsCurrent(cfg, Exec(cfg, s, steps)) && WithinBudget(cfg, Exec(cfg, s, steps))
    decreases |steps|
  {
    if steps != [] {
      ClaimsStayCurrent(cfg, s, steps[0]);
      StaysWithinBudget(cfg, s, steps[0]);
      RunsKeepClaims(cfg, Apply(cfg, s, steps[0]), steps[1..]);
    }
  }

  /** In every run, under every interleaving of workers, stop requests and heartbeats:
      at most MaxAttempts attempts fail, a workload that is not FAILED has used fewer,
      and a workload that has not been stopped got where it is by exactly as many
      transitions as its position, so by five on reaching RUNNING. */
  lemma AttemptBudget(cfg: Config, leases: map<nat, LeasePallet.Lease>, nextLease: nat, steps: seq<Step>)
    requires ValidConfig(cfg)
    ensures var s := Exec(cfg, Init(leases, nextLease), steps);
            && Failures(s.log) == s.row.attempts <= cfg.maxAttempts
            && (s.row.state != Failed ==> Failures(s.log) < cfg.maxAttempts)
            && (Rank(s.row.state) <= 5 ==> Entries(s.log) == Rank(s.row.state))
            && (s.row.state == Running ==> Entries(s.log) == 5)
  {
    RunsKeepClaims(cfg, Init(leases, nextLease), steps);
  }

  /** A commit takes effect only on exactly the row that was claimed: no write of a
      worker overwrites anything another actor wrote after the claim. */
  lemma NoLostUpdate(cfg: Config, leases: map<nat, LeasePallet.Lease>, nextLease: nat, steps: seq<Step>, w: string,
                     alive: bool, provider: string)
    requires ValidConfig(cfg)
    ensures var s := Exec(cfg, Init(leases, nextLease), steps);
            w in s.flights ==>
              var t := Apply(cfg, s, Commit(w, alive, provider));
              (t.row != s.row ==> s.row == s.flights[w].item && Behind(s.row, t.row))
  {
    RunsKeepClaims(cfg, Init(leases, nextLease), steps);
    var s := Exec(cfg, Init(leases, nextLease), steps);
    if w in s.flights {
      assert Current(s, w);
      CommitMovesOn(cfg, s, s.flights[w], alive, provider);
    }
  }
}
