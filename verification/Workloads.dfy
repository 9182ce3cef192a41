/** One `workloads` row and the guarded UPDATE statements of the Postgres store
    (control-plane/internal/workloadapi/postgres.go).

    Every statement is one atomic step.  A statement whose WHERE clause does not
    match affects no row; the store reports that as a conflict. */
module Workloads {
  import opened Base

  datatype State =
    | Requested | Scheduling | LeasePending | Leased | Deploying | Running
    | Stopping | Stopped | Completed | Failed

  datatype Row = Row(
    state: State,
    version: nat,
    attempts: nat,
    worker: Option<string>,
    provider: Option<string>,
    lease: Option<nat>,
    hash: Option<string>,
    container: Option<string>,
    stopRequest: Option<string>)

  /** The row after a statement, and whether the statement affected it. */
  datatype Write = Write(row: Row, applied: bool)

  /** Position in the lifecycle; no statement ever lowers it. */
  function Rank(state: State): (r: nat) {
    match state
    case Requested => 0
    case Scheduling => 1
    case LeasePending => 2
    case Leased => 3
    case Deploying => 4
    case Running => 5
    case Stopping => 6
    case Stopped => 7
    case Completed => 7
    case Failed => 7
  }

  predicate Claimable(state: State) {
    state in {Requested, Scheduling, LeasePending, Leased, Deploying, Stopping}
  }

  /** `version=$ AND worker_id=$ AND worker_lease_until>now()`. */
  predicate Holds(row: Row, item: Row, alive: bool) {
    row.version == item.version && item.worker.Some? && row.worker == item.worker && alive
  }

  function Released(row: Row): (r: Row) {
    row.(version := row.version + 1, worker := None)
  }

  /** `expired` says that a previous claim's lease has run out. */
  function ClaimNext(row: Row, worker: string, expired: bool): (r: Write) {
    if Claimable(row.state) && (row.worker.None? || expired) then
      Write(row.(version := row.version + 1, worker := Some(worker)), true)
    else
      Write(row, false)
  }

  function Advance(row: Row, item: Row, alive: bool, from: State, to: State): (r: Write) {
    if row.state == from && Holds(row, item, alive) then Write(Released(row).(state := to), true)
    else Write(row, false)
  }

  function BeginScheduling(row: Row, item: Row, alive: bool): (r: Write) {
    Advance(row, item, alive, Requested, Scheduling)
  }

  function AssignLease(row: Row, item: Row, alive: bool, provider: string, lease: nat, hash: string): (r: Write) {
    var w := Advance(row, item, alive, Scheduling, LeasePending);
    if w.applied then Write(w.row.(provider := Some(provider), lease := Some(lease), hash := Some(hash)), true)
    else w
  }

  function MarkLeased(row: Row, item: Row, alive: bool): (r: Write) {
    if row.lease == item.lease then Advance(row, item, alive, LeasePending, Leased) else Write(row, false)
  }

  function MarkDeploying(row: Row, item: Row, alive: bool): (r: Write) {
    if row.lease == item.lease then Advance(row, item, alive, Leased, Deploying) else Write(row, false)
  }

  function MarkRunning(row: Row, item: Row, alive: bool, container: string): (r: Write) {
    var w := Advance(row, item, alive, Deploying, Running);
    if container != "" && w.applied then Write(w.row.(container := Some(container)), true)
    else Write(row, false)
  }

  function MarkStopped(row: Row, item: Row, alive: bool): (r: Write) {
    if row.lease == item.lease then Advance(row, item, alive, Stopping, Stopped) else Write(row, false)
  }

  function RetryLater(row: Row, item: Row, alive: bool): (r: Write) {
    if Claimable(row.state) && Holds(row, item, alive) then
      Write(Released(row).(attempts := row.attempts + 1), true)
    else
      Write(row, false)
  }

  function MarkFailed(row: Row, item: Row, alive: bool): (r: Write) {
    if Claimable(row.state) && Holds(row, item, alive) then
      Write(Released(row).(attempts := row.attempts + 1, state := Failed), true)
    else
      Write(row, false)
  }

  /** The owner's stop: at most one stop request is ever recorded. */
  function RequestStop(row: Row, request: string): (r: Write) {
    if row.stopRequest.None? then
      var to := if row.state in {Stopped, Completed, Failed} then row.state else Stopping;
      Write(Released(row).(state := to, stopRequest := Some(request)), true)
    else
      Write(row, false)
  }

  datatype AgentPhase = PhaseOther | PhaseRunning | PhaseFailed | PhaseLost | PhaseStopped

  /** The heartbeat conflict table: accepted source states and the target. */
  function Reconciliation(phase: AgentPhase): (r: Option<(set<State>, State)>) {
    match phase
    case PhaseRunning => Some(({Deploying}, Running))
    case PhaseFailed => Some(({Deploying, Running}, Failed))
    case PhaseLost => Some(({Deploying, Running}, Failed))
    case PhaseStopped => Some(({Running, Deploying, Stopping}, Stopped))
    case PhaseOther => None
  }

  /** Matches on provider and source state only; no claim or version is needed.
      The table's CHECK constraint refuses RUNNING without a container id. */
  function ReconcileFromAgent(row: Row, phase: AgentPhase, provider: string, container: string): (r: Write) {
    var rule := Reconciliation(phase);
    if rule.None? || row.provider != Some(provider) || row.state !in rule.value.0 then Write(row, false)
    else
      var to := rule.value.1;
      var kept := if to == Failed || container == "" then row.container else Some(container);
      if to == Running && kept.None? then Write(row, false)
      else Write(Released(row).(state := to, container := kept), true)
  }

  // ----- the statements in plain terms -----

  /** A row is claimed exactly when there is work left to do on it and no worker has it, or its claim
      has run out. */
  lemma ClaimIff(row: Row, worker: string, expired: bool)
    ensures var w := ClaimNext(row, worker, expired);
            && (w.applied <==> row.state != Running && Rank(row.state) < 7 && (expired || row.worker.None?))
            && w.row == if w.applied then row.(version := row.version + 1, worker := Some(worker)) else row
  {
  }

  /** A heartbeat changes the row exactly when it comes from the row's own provider and reports what
      may follow: running, with a container known, after DEPLOYING; failed or lost after DEPLOYING or
      RUNNING; stopped after these or STOPPING.  It takes the row from whoever claimed it. */
  lemma HeartbeatIff(row: Row, phase: AgentPhase, provider: string, container: string)
    ensures var w := ReconcileFromAgent(row, phase, provider, container);
            var to := match phase
                      case PhaseRunning => Running
                      case PhaseStopped => Stopped
                      case _ => Failed;
            && (w.applied <==>
                  && row.provider == Some(provider)
                  && match phase
                     case PhaseRunning => row.state == Deploying && (container != "" || row.container.Some?)
                     case PhaseStopped => row.state == Deploying || row.state == Running || row.state == Stopping
                     case PhaseOther => false
                     case _ => row.state == Deploying || row.state == Running)
            && w.row == if !w.applied then row else
                          row.(state := to, version := row.version + 1, worker := None,
                               container := if to != Failed && container != "" then Some(container) else row.container)
  {
  }

  /** The first stop request is recorded, stops what is not over, and takes the row from whoever
      claimed it; any other changes nothing. */
  lemma StopIff(row: Row, request: string)
    ensures var w := RequestStop(row, request);
            && (w.applied <==> row.stopRequest.None?)
            && w.row == if !w.applied then row else
                          row.(state := if Rank(row.state) == 7 then row.state else Stopping,
                               version := row.version + 1, worker := None, stopRequest := Some(request))
  {
  }

  /** `after` is a later content of the row than `before`: the version has grown, the
      lifecycle has not gone back, and a lease once assigned is never changed. */
  predicate Behind(before: Row, after: Row) {
    && before.version < after.version
    && Rank(before.state) <= Rank(after.state)
    && before.attempts <= after.attempts
    && (before.lease.Some? ==>
        after.lease == before.lease && after.provider == before.provider && after.hash == before.hash)
  }

  /** The lease columns are filled together, by AssignLease and not before. */
  predicate LeaseColumns(row: Row, hash: string) {
    && row.lease.Some? == row.provider.Some? == row.hash.Some?
    && (row.hash.Some? ==> row.hash.value == hash)
    && (row.state in {Requested, Scheduling} ==> row.lease.None?)
    && (row.state in {LeasePending, Leased, Deploying, Running} ==> row.lease.Some?)
  }
}
