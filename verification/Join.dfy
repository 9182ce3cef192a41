/** Joining as a provider, and the outbox that takes a joined provider to the chain
    (control-plane/internal/providerjoin/postgres.go, reconciler.go and service.go).

    Identifiers, keys, hashes and nonces are numbers; `digest` stands for the SHA-256 that
    names a provider after its key.  Each transaction is one step. */
module Join {
  import opened Base
  import Backoff

  datatype Status = Pending | Active | Revoked

  datatype RowState = Ready | Retry | Finalized | Failed

  /** A row of provider_chain_registrations. */
  datatype Row = Row(state: RowState, attempts: nat, next: Option<int>)

  datatype Challenge = Challenge(key: nat, nonce: nat, expires: int, consumed: Option<int>)

  datatype Begun = Begun(challenge: nat, hash: nat)

  datatype Provider = Provider(key: nat, status: Status)

  datatype Completion = Completion(challenge: nat, hash: nat, provider: nat, at: int)

  datatype Db = Db(challenges: map<nat, Challenge>, begun: map<nat, Begun>, providers: map<nat, Provider>,
                   outbox: map<nat, Row>, completions: map<nat, Completion>)

  datatype Config = Config(maxAttempts: nat, baseBackoff: nat, maxBackoff: nat)

  /** withDefaults leaves every bound positive. */
  predicate IsConfig(cfg: Config) {
    cfg.maxAttempts >= 1 && 0 < cfg.baseBackoff < INT64_LIMIT && 0 < cfg.maxBackoff < INT64_LIMIT
  }

  // ----- transactions -----

  /** CreateOrGetChallenge: a repeated request gets the challenge it got before. */
  function Begin(db: Db, req: nat, hash: nat, ch: nat, c: Challenge): (r: (Db, Option<nat>)) {
    if req in db.begun then (db, if db.begun[req].hash == hash then Some(db.begun[req].challenge) else None)
    else if ch in db.challenges then (db, None)
    else (db.(begun := db.begun[req := Begun(ch, hash)], challenges := db.challenges[ch := c]), Some(ch))
  }

  datatype Answer = Completed(provider: nat, status: Status, at: int) | Conflict | ChallengeNotFound
      | ChallengeConsumed | ChallengeExpired

  /** What a complete request carries; `key` and `nonce` are the challenge's as read before. */
  datatype Request = Request(id: nat, hash: nat, challenge: nat, key: nat, nonce: nat, provider: nat, now: int)

  /** A request completed before is answered with what is stored, a new one with the Pending it
      brought, whatever the status of a provider that was there already. */
  function CompleteJoin(db: Db, q: Request): (r: (Db, Answer)) {
    if q.id in db.completions then
      var c := db.completions[q.id];
      if c.challenge != q.challenge || c.hash != q.hash || c.provider !in db.providers then (db, Conflict)
      else (db, Completed(c.provider, db.providers[c.provider].status, c.at))
    else if q.challenge !in db.challenges then (db, ChallengeNotFound)
    else
      var ch := db.challenges[q.challenge];
      if ch.consumed.Some? then (db, ChallengeConsumed)
      else if q.now >= ch.expires then (db, ChallengeExpired)
      else if ch.nonce != q.nonce || ch.key != q.key then (db, Conflict)
      else (Enroll(db, q), Completed(q.provider, Pending, q.now))
  }

  /** The provider row, the outbox row beside it, the spent challenge and the completion. */
  function Enroll(db: Db, q: Request): (r: Db)
    requires q.challenge in db.challenges
    ensures q.provider in r.providers
  {
    db.(providers := if q.provider in db.providers then db.providers
        else db.providers[q.provider := Provider(q.key, Pending)],
        outbox := if q.provider in db.outbox then db.outbox else db.outbox[q.provider := Row(Ready, 0, None)],
        challenges := db.challenges[q.challenge := db.challenges[q.challenge].(consumed := Some(q.now))],
        completions := db.completions[q.id := Completion(q.challenge, q.hash, q.provider, q.now)])
  }

  /** ActivateProvider, whatever the status was.  It also looks up a completion of the provider,
      and there always is one (AllBrought below). */
  function ActivateProvider(db: Db, pid: nat): (r: Db) {
    if pid !in db.providers then db
    else db.(providers := db.providers[pid := db.providers[pid].(status := Active)],
             outbox := if pid in db.outbox then db.outbox[pid := db.outbox[pid].(state := Finalized)] else db.outbox)
  }

  function RevokeProvider(db: Db, pid: nat): (r: Db) {
    if pid !in db.providers then db else db.(providers := db.providers[pid := db.providers[pid].(status := Revoked)])
  }

  function RecordFailure(db: Db, pid: nat, next: int, terminal: bool): (r: Db) {
    if pid !in db.outbox then db
    else
      var attempts, due := db.outbox[pid].attempts + 1, if terminal then None else Some(next);
      var row := Row(if terminal then Failed else Retry, attempts, due);
      db.(outbox := db.outbox[pid := row])
  }

  /** A registration the reconciler has fetched. */
  datatype Item = Item(provider: nat, attempts: nat)

  predicate DueRow(r: Row, now: int) {
    r.state in {Ready, Retry} && (r.next.None? || r.next.value <= now)
  }

  /** A batch DueChainRegistrations may return: due rows, each once, with their counts. */
  ghost predicate IsBatch(db: Db, batch: seq<Item>, now: int) {
    && (forall i :: 0 <= i < |batch| ==>
          batch[i].provider in db.outbox && DueRow(db.outbox[batch[i].provider], now)
              && batch[i].attempts == db.outbox[batch[i].provider].attempts)
    && (forall i, j :: 0 <= i < j < |batch| ==> batch[i].provider != batch[j].provider)
  }

  /** When the reconciler tries again: the shared backoff, or at once the longest after a ban. */
  function NextDelay(cfg: Config, attempt: nat, banned: bool): (d: int)
    requires attempt >= 1
  {
    var d := Backoff.Delay(cfg.baseBackoff, cfg.maxBackoff, attempt);
    if banned && d < cfg.maxBackoff then cfg.maxBackoff else d
  }

  function Fail(cfg: Config, db: Db, item: Item, now: int, banned: bool, malformed: bool): (r: Db) {
    var attempt := item.attempts + 1;
    RecordFailure(db, item.provider, now + NextDelay(cfg, attempt, banned), malformed || attempt >= cfg.maxAttempts)
  }

  // ----- the system -----

  /** `confirmed` holds the providers whose Active status was read at a finalized block;
      `flights` the callers that read it and have yet to commit; `queue` the one reconciler's
      batch; `spent` every consumption of a challenge. */
  datatype Spending = Spending(challenge: nat, request: nat, at: int)

  datatype Sys = Sys(db: Db, confirmed: set<nat>, flights: map<nat, nat>, queue: seq<Item>, spent: seq<Spending>)

  datatype Step =
    | BeginStep(req: nat, hash: nat, ch: nat, key: nat, nonce: nat, expires: int)
    | CompleteStep(q: Request)
    | Confirm(token: nat, provider: nat)
    | Commit(token: nat)
    | Abandon(token: nat)
    | Fetch(batch: seq<Item>, now: int)
    | ReconcileConfirm(token: nat)
    | ReconcileFail(now: int, banned: bool, malformed: bool)
    | ReconcileSkip
    | Revoke(provider: nat)

  function Init(): (s: Sys) {
    Sys(Db(map[], map[], map[], map[], map[]), {}, map[], [], [])
  }

  /** This request now consumes its challenge. */
  predicate Spends(db: Db, q: Request) {
    q.id !in db.completions && CompleteJoin(db, q).1.Completed?
  }

  function ApplyComplete(s: Sys, q: Request): (t: Sys) {
    s.(db := CompleteJoin(s.db, q).0,
       spent := if Spends(s.db, q) then s.spent + [Spending(q.challenge, q.id, q.now)] else s.spent)
  }

  function ApplyCommit(s: Sys, token: nat): (t: Sys) {
    if token !in s.flights then s
    else s.(db := ActivateProvider(s.db, s.flights[token]), flights := s.flights - {token})
  }

  function ApplyConfirm(s: Sys, token: nat, pid: nat): (t: Sys) {
    if token in s.flights || pid !in s.db.providers then s
    else s.(confirmed := s.confirmed + {pid}, flights := s.flights[token := pid])
  }

  ghost function Apply(cfg: Config, digest: nat -> nat, s: Sys, step: Step): (t: Sys) {
    match step
    case BeginStep(req, hash, ch, key, nonce, expires) =>
        s.(db := Begin(s.db, req, hash, ch, Challenge(key, nonce, expires, None)).0)
    case CompleteStep(q) => if q.provider == digest(q.key) then ApplyComplete(s, q) else s
    case Confirm(token, pid) => ApplyConfirm(s, token, pid)
    case Commit(token) => ApplyCommit(s, token)
    case Abandon(token) => s.(flights := s.flights - {token})
    case Fetch(batch, now) => if s.queue == [] && IsBatch(s.db, batch, now) then s.(queue := batch) else s
    case ReconcileConfirm(token) => if s.queue == [] then s
        else ApplyConfirm(s.(queue := s.queue[1..]), token, s.queue[0].provider)
    case ReconcileFail(now, banned, malformed) =>
      if s.queue == [] then s else s.(db := Fail(cfg, s.db, s.queue[0], now, banned, malformed), queue := s.queue[1..])
    case ReconcileSkip => if s.queue == [] then s else s.(queue := s.queue[1..])
    case Revoke(pid) => s.(db := RevokeProvider(s.db, pid))
  }

  ghost function Run(cfg: Config, digest: nat -> nat, s: Sys, steps: seq<Step>): (t: Sys)
    decreases |steps|
  {
    if steps == [] then s else Run(cfg, digest, Apply(cfg, digest, s, steps[0]), steps[1..])
  }

  // ----- what always holds -----

  /** Every provider has an outbox row, and a Pending one's is not Finalized. */
  ghost predicate Paired(db: Db) {
    && db.outbox.Keys == db.providers.Keys
    && forall pid :: pid in db.providers && db.providers[pid].status == Pending ==> db.outbox[pid].state != Finalized
  }

  /** Failures counted below the limit while more are to come, and never above it. */
  predicate WithinBudget(cfg: Config, r: Row) {
    r.attempts <= cfg.maxAttempts && (r.state in {Ready, Retry} ==> r.attempts < cfg.maxAttempts)
  }

  ghost predicate Budgeted(cfg: Config, outbox: map<nat, Row>, queue: seq<Item>) {
    && (forall pid :: pid in outbox ==> WithinBudget(cfg, outbox[pid]))
    && (forall i :: 0 <= i < |queue| ==>
          queue[i].provider in outbox && queue[i].attempts == outbox[queue[i].provider].attempts < cfg.maxAttempts)
    && (forall i, j :: 0 <= i < j < |queue| ==> queue[i].provider != queue[j].provider)
  }

  /** Active only after an Active status was read at a finalized block. */
  ghost predicate Confirmed(providers: map<nat, Provider>, confirmed: set<nat>, flights: map<nat, nat>) {
    && (forall pid :: pid in providers && providers[pid].status == Active ==> pid in confirmed)
    && (forall token :: token in flights ==> flights[token] in confirmed && flights[token] in providers)
  }

  /** Each challenge is spent once, before it expires, by the request that completed. */
  ghost predicate SpentOnce(db: Db, spent: seq<Spending>) {
    && (forall i :: 0 <= i < |spent| ==>
          && spent[i].challenge in db.challenges && db.challenges[spent[i].challenge].consumed == Some(spent[i].at)
          && spent[i].at < db.challenges[spent[i].challenge].expires
          && spent[i].request in db.completions && db.completions[spent[i].request].challenge == spent[i].challenge)
    && (forall i, j :: 0 <= i < j < |spent| ==> spent[i].challenge != spent[j].challenge)
    && (forall req :: req in db.completions ==>
          db.completions[req].provider in db.providers && exists i :: 0 <= i < |spent| && spent[i].request == req)
  }

  /** The providers that completed requests brought. */
  function Brought(completions: map<nat, Completion>): (pids: set<nat>) {
    set req | req in completions :: completions[req].provider
  }

  ghost predicate AllBrought(db: Db) {
    db.providers.Keys <= Brought(db.completions)
  }

  ghost predicate Sound(cfg: Config, s: Sys) {
    && Paired(s.db) && Budgeted(cfg, s.db.outbox, s.queue) && Confirmed(s.db.providers, s.confirmed, s.flights)
        && SpentOnce(s.db, s.spent)
  }

  // ----- each transaction keeps it -----

  lemma BeginKeeps(cfg: Config, s: Sys, req: nat, hash: nat, ch: nat, c: Challenge)
    requires Sound(cfg, s)
    ensures Sound(cfg, s.(db := Begin(s.db, req, hash, ch, c).0))
  {
  }

  lemma EnrollPairs(cfg: Config, s: Sys, q: Request)
    requires IsConfig(cfg) && Sound(cfg, s) && q.challenge in s.db.challenges
    ensures Paired(Enroll(s.db, q)) && Budgeted(cfg, Enroll(s.db, q).outbox, s.queue)
    ensures Confirmed(Enroll(s.db, q).providers, s.confirmed, s.flights)
  {
  }

  lemma EnrollSpends(db: Db, spent: seq<Spending>, q: Request)
    requires SpentOnce(db, spent) && q.id !in db.completions && q.challenge in db.challenges
    requires db.challenges[q.challenge].consumed.None? && q.now < db.challenges[q.challenge].expires
    ensures SpentOnce(Enroll(db, q), spent + [Spending(q.challenge, q.id, q.now)])
  {
    var db', spent' := Enroll(db, q), spent + [Spending(q.challenge, q.id, q.now)];
    forall i | 0 <= i < |spent| ensures spent[i].challenge != q.challenge && spent[i].request != q.id { }
    forall req | req in db'.completions ensures exists i :: 0 <= i < |spent'| && spent'[i].request == req {
      if req == q.id {
        assert spent'[|spent|].request == req;
      } else {
        var i :| 0 <= i < |spent| && spent[i].request == req;
        assert spent'[i].request == req;
      }
    }
  }

  lemma CompleteKeeps(cfg: Config, s: Sys, q: Request)
    requires IsConfig(cfg) && Sound(cfg, s)
    ensures Sound(cfg, ApplyComplete(s, q))
  {
    if Spends(s.db, q) {
      EnrollPairs(cfg, s, q);
      EnrollSpends(s.db, s.spent, q);
      assert CompleteJoin(s.db, q).0 == Enroll(s.db, q);
    } else {
      assert CompleteJoin(s.db, q).0 == s.db;
    }
  }

  lemma ConfirmKeeps(cfg: Config, s: Sys, token: nat, pid: nat)
    requires Sound(cfg, s)
    ensures Sound(cfg, ApplyConfirm(s, token, pid))
  {
  }

  lemma CommitKeeps(cfg: Config, s: Sys, token: nat)
    requires Sound(cfg, s)
    ensures Sound(cfg, ApplyCommit(s, token))
  {
  }

  lemma RevokeKeeps(cfg: Config, s: Sys, pid: nat)
    requires Sound(cfg, s)
    ensures Sound(cfg, s.(db := RevokeProvider(s.db, pid)))
  {
  }

  lemma FailKeeps(cfg: Config, s: Sys, now: int, banned: bool, malformed: bool)
    requires Sound(cfg, s) && s.queue != []
    ensures Sound(cfg, s.(db := Fail(cfg, s.db, s.queue[0], now, banned, malformed), queue := s.queue[1..]))
  {
    var db', pid := Fail(cfg, s.db, s.queue[0], now, banned, malformed), s.queue[0].provider;
    assert pid in s.db.outbox && s.queue[0].attempts == s.db.outbox[pid].attempts;
    assert db'.outbox.Keys == s.db.outbox.Keys;
    forall i | 0 <= i < |s.queue[1..]| ensures s.queue[1..][i].provider != pid {
      assert s.queue[1..][i] == s.queue[i + 1];
    }
  }

  lemma DropKeeps(cfg: Config, s: Sys)
    requires Sound(cfg, s) && s.queue != []
    ensures Sound(cfg, s.(queue := s.queue[1..]))
  {
  }

  lemma StepKeeps(cfg: Config, digest: nat -> nat, s: Sys, step: Step)
    requires IsConfig(cfg) && Sound(cfg, s)
    ensures Sound(cfg, Apply(cfg, digest, s, step))
  {
    match step
    case BeginStep(req, hash, ch, key, nonce, expires) =>
        BeginKeeps(cfg, s, req, hash, ch, Challenge(key, nonce, expires, None));
    case CompleteStep(q) => CompleteKeeps(cfg, s, q);
    case Confirm(token, pid) => ConfirmKeeps(cfg, s, token, pid);
    case Commit(token) => CommitKeeps(cfg, s, token);
    case Abandon(token) =>
    case Fetch(batch, now) =>
    case ReconcileConfirm(token) =>
      if s.queue != [] {
        DropKeeps(cfg, s);
        ConfirmKeeps(cfg, s.(queue := s.queue[1..]), token, s.queue[0].provider);
      }
    case ReconcileFail(now, banned, malformed) => if s.queue != [] { FailKeeps(cfg, s, now, banned, malformed); }
    case ReconcileSkip => if s.queue != [] { DropKeeps(cfg, s); }
    case Revoke(pid) => RevokeKeeps(cfg, s, pid);
  }

  /** In every run: a Pending provider has an unfinished outbox row, attempts stay within the
      limit, Active follows a finalized read, and each challenge is spent once and in time. */
  lemma {:induction false} RunKeeps(cfg: Config, digest: nat -> nat, s: Sys, steps: seq<Step>)
    requires IsConfig(cfg) && Sound(cfg, s)
    ensures Sound(cfg, Run(cfg, digest, s, steps))
    decreases |steps|
  {
    if steps != [] {
      StepKeeps(cfg, digest, s, steps[0]);
      RunKeeps(cfg, digest, Apply(cfg, digest, s, steps[0]), steps[1..]);
    }
  }

  // ----- every provider has its completion -----

  lemma EnrollBrings(db: Db, q: Request)
    requires q.id !in db.completions && q.challenge in db.challenges && AllBrought(db)
    ensures AllBrought(Enroll(db, q))
  {
    var after := Enroll(db, q).completions;
    assert after[q.id].provider == q.provider;
    forall pid | pid in Brought(db.completions) ensures pid in Brought(after) {
      var req :| req in db.completions && db.completions[req].provider == pid;
      assert after[req].provider == pid;
    }
  }

  lemma CompleteBrings(db: Db, q: Request)
    requires AllBrought(db)
    ensures AllBrought(CompleteJoin(db, q).0)
  {
    if Spends(db, q) { EnrollBrings(db, q); }
  }

  lemma StepBrings(cfg: Config, digest: nat -> nat, s: Sys, step: Step)
    requires AllBrought(s.db)
    ensures AllBrought(Apply(cfg, digest, s, step).db)
  {
    if step.CompleteStep? { CompleteBrings(s.db, step.q); }
  }

  /** In every run each provider has a completed request, so an activation never fails for want
      of one. */
  lemma {:induction false} RunBrings(cfg: Config, digest: nat -> nat, s: Sys, steps: seq<Step>)
    requires AllBrought(s.db)
    ensures AllBrought(Run(cfg, digest, s, steps).db)
    decreases |steps|
  {
    if steps != [] {
      StepBrings(cfg, digest, s, steps[0]);
      RunBrings(cfg, digest, Apply(cfg, digest, s, steps[0]), steps[1..]);
    }
  }
}
