/** The join tables as the object whose transactions update them, with the reconciler's pass
    and the service's completion over it (control-plane/internal/providerjoin/postgres.go,
    reconciler.go and service.go). */
module JoinStore {
  import opened Base
  import opened Join
  import JoinRuns
  import Backoff

  /** How one fetched registration went: not tried, failed, or read Active with the activation
      committed or not. */
  datatype Outcome = Skipped | Failure(now: int, banned: bool, malformed: bool) | ReadActive(committed: bool)

  function Settled(cfg: Config, db: Db, item: Item, o: Outcome): (r: Db) {
    match o
    case Skipped => db
    case Failure(now, banned, malformed) => Fail(cfg, db, item, now, banned, malformed)
    case ReadActive(committed) => if committed then ActivateProvider(db, item.provider) else db
  }

  function Reconciled(cfg: Config, db: Db, batch: seq<Item>, outcomes: nat -> Outcome): (r: Db) {
    if batch == [] then db
    else
      var n := |batch| - 1;
      Settled(cfg, Reconciled(cfg, db, batch[..n], outcomes), batch[n], outcomes(n))
  }

  /** The service: only an answer that says Active skips the chain. */
  function Finished(db: Db, q: Request, readActive: bool, committed: bool): (r: (Db, Option<nat>)) {
    var (joined, answer) := CompleteJoin(db, q);
    if !answer.Completed? then (joined, None)
    else if answer.status == Active then (joined, Some(answer.provider))
    else if !readActive || !committed then (joined, None)
    else (ActivateProvider(joined, answer.provider), Some(answer.provider))
  }

  /** What the agent is told. */
  datatype Response = Response(provider: nat, at: int)

  /** No request of the same provider completed earlier. */
  ghost predicate Earliest(completions: map<nat, Completion>, req: nat)
    requires req in completions
  {
    forall other :: other in completions && completions[other].provider == completions[req].provider ==>
      completions[req].at <= completions[other].at
  }

  /** The time of the provider's earliest completion. */
  ghost predicate IsFirst(completions: map<nat, Completion>, pid: nat, at: int) {
    exists req :: req in completions && completions[req].provider == pid && completions[req].at == at
                  && Earliest(completions, req)
  }

  /** An answer means an Active provider, and its absence after enrolment leaves the outbox row
      the reconciler needs. */
  lemma AnsweredIsActive(cfg: Config, s: Sys, q: Request, readActive: bool, committed: bool)
    requires IsConfig(cfg) && Sound(cfg, s)
    ensures var (db, answer) := Finished(s.db, q, readActive, committed);
            && (answer.Some? <==>
                  var a := CompleteJoin(s.db, q).1; a.Completed? && (a.status == Active || (readActive && committed)))
            && (answer.Some? ==> answer.value in db.providers && db.providers[answer.value].status == Active)
            && (answer.None? && CompleteJoin(s.db, q).1.Completed? ==> CompleteJoin(s.db, q).1.provider in db.outbox)
  {
    CompleteKeeps(cfg, s, q);
  }

  class Tables {
    var challenges: map<nat, Challenge>
    var begun: map<nat, Begun>
    var providers: map<nat, Provider>
    var outbox: map<nat, Row>
    var completions: map<nat, Completion>

    function Contents(): (db: Db)
      reads this
    {
      Db(challenges, begun, providers, outbox, completions)
    }

    /** Every provider has its outbox row, a Pending one's unfinished, and its completion. */
    ghost predicate Valid()
      reads this
    {
      Paired(Contents()) && AllBrought(Contents())
    }

    constructor ()
      ensures Valid() && Contents() == Init().db
    {
      challenges, begun, providers, outbox, completions := map[], map[], map[], map[], map[];
    }

    /** One serializable transaction.  A refused or repeated request changes nothing.  Any other
        spends its challenge, unspent and in time until then, and leaves a provider and an
        outbox row, keeping those there are.  Sent again it gets the answer it got exactly when
        it was a repetition already, or its provider was new or Pending. */
    method Complete(q: Request) returns (answer: Answer)
      requires Valid()
      modifies this
      ensures Valid()
      ensures (Contents(), answer) == CompleteJoin(old(Contents()), q)
      ensures !answer.Completed? || q.id in old(completions) ==> Contents() == old(Contents())
      ensures answer.Completed? && q.id !in old(completions) ==>
                && answer.provider == q.provider && q.provider in providers && q.provider in outbox
                && q.challenge in old(challenges) && old(challenges)[q.challenge].consumed.None?
                && q.now < old(challenges)[q.challenge].expires
                && challenges == old(challenges)[q.challenge := old(challenges)[q.challenge].(consumed := Some(q.now))]
                && (forall pid :: pid in old(providers) ==> pid in providers && providers[pid] == old(providers)[pid])
                && (forall pid :: pid in old(outbox) ==> pid in outbox && outbox[pid] == old(outbox)[pid])
                && (q.provider !in old(providers) ==>
                    providers[q.provider].status == Pending && DueRow(outbox[q.provider], q.now))
      ensures answer.Completed? ==>
                (CompleteJoin(Contents(), q) == (Contents(), answer) <==>
                   || q.id in old(completions) || q.provider !in old(providers)
                   || old(providers)[q.provider].status == Pending)
    {
      CompleteBrings(Contents(), q);
      if q.id in completions {
        var c := completions[q.id];
        if c.challenge != q.challenge || c.hash != q.hash || c.provider !in providers { return Conflict; }
        return Completed(c.provider, providers[c.provider].status, c.at);
      }
      if q.challenge !in challenges { return ChallengeNotFound; }
      var ch := challenges[q.challenge];
      if ch.consumed.Some? { return ChallengeConsumed; }
      if q.now >= ch.expires { return ChallengeExpired; }
      if ch.nonce != q.nonce || ch.key != q.key { return Conflict; }
      if q.provider !in providers { providers := providers[q.provider := Provider(q.key, Pending)]; }
      if q.provider !in outbox { outbox := outbox[q.provider := Row(Ready, 0, None)]; }
      challenges := challenges[q.challenge := ch.(consumed := Some(q.now))];
      completions := completions[q.id := Completion(q.challenge, q.hash, q.provider, q.now)];
      return Completed(q.provider, Pending, q.now);
    }

    /** `ORDER BY registered_at LIMIT 1` over a provider's completions. */
    method FirstCompletion(pid: nat) returns (at: int)
      requires pid in Brought(completions)
      ensures IsFirst(completions, pid, at)
    {
      var first :| first in completions && completions[first].provider == pid;
      var todo := completions.Keys;
      while todo != {}
        invariant todo <= completions.Keys && first in completions && completions[first].provider == pid
        invariant forall req :: req in completions && req !in todo && completions[req].provider == pid ==>
                    completions[first].at <= completions[req].at
        decreases |todo|
      {
        var req :| req in todo;
        if completions[req].provider == pid && completions[req].at < completions[first].at { first := req; }
        todo := todo - {req};
      }
      assert Earliest(completions, first);
      return completions[first].at;
    }

    /** Provider and outbox row move together, and no other row moves: the provider is Active, its
        row is due at no time again, and its key and attempts are what they were.  The answer is
        the time of its earliest completion, None for a provider there is not. */
    method Activate(pid: nat) returns (at: Option<int>)
      requires Valid()
      modifies this`providers, this`outbox
      ensures Valid()
      ensures Contents() == ActivateProvider(old(Contents()), pid) && (at.Some? <==> pid in old(providers))
      ensures at.None? ==> Contents() == old(Contents())
      ensures at.Some? ==>
                && IsFirst(completions, pid, at.value)
                && pid in providers && providers[pid].status == Active && providers[pid].key == old(providers)[pid].key
                && pid in outbox && outbox[pid].attempts == old(outbox)[pid].attempts
                && (forall now :: !DueRow(outbox[pid], now))
                && providers - {pid} == old(providers) - {pid} && outbox - {pid} == old(outbox) - {pid}
    {
      if pid !in providers { return None; }
      providers := providers[pid := providers[pid].(status := Active)];
      if pid in outbox { outbox := outbox[pid := outbox[pid].(state := Finalized)]; }
      var first := FirstCompletion(pid);
      return Some(first);
    }

    method RecordChainRegistrationFailure(pid: nat, next: int, terminal: bool)
      requires Valid()
      modifies this`outbox
      ensures Valid()
      ensures Contents() == RecordFailure(old(Contents()), pid, next, terminal)
    {
      if pid in outbox {
        var row := outbox[pid];
        outbox := outbox[pid :=
            Row(if terminal then Failed else Retry, row.attempts + 1, if terminal then None else Some(next))];
      }
    }

    /** One fetched registration. */
    method ReconcileOne(cfg: Config, item: Item, o: Outcome)
      requires IsConfig(cfg) && Valid()
      modifies this
      ensures Valid()
      ensures Contents() == Settled(cfg, old(Contents()), item, o)
    {
      match o
      case Skipped =>
      case Failure(now, banned, malformed) =>
        var attempt := item.attempts + 1;
        var backoff := Backoff.BackoffFor(cfg.baseBackoff, cfg.maxBackoff, attempt);
        if banned && backoff < cfg.maxBackoff { backoff := cfg.maxBackoff; }
        RecordChainRegistrationFailure(item.provider, now + backoff, malformed || attempt >= cfg.maxAttempts);
      case ReadActive(committed) => if committed { var _ := Activate(item.provider); }
    }

    /** A pass over one fetched batch. */
    method ReconcileOnce(cfg: Config, batch: seq<Item>, outcomes: nat -> Outcome)
      requires IsConfig(cfg) && Valid()
      modifies this
      ensures Valid()
      ensures Contents() == Reconciled(cfg, old(Contents()), batch, outcomes)
    {
      for i := 0 to |batch|
        invariant Valid()
        invariant Contents() == Reconciled(cfg, old(Contents()), batch[..i], outcomes)
      {
        assert batch[..i + 1][..i] == batch[..i];
        ReconcileOne(cfg, batch[i], outcomes(i));
      }
      assert batch[..|batch|] == batch;
    }

    /** Commit first, then the chain, then activate.  An answer names an Active provider, and the
        same request again names it too, with no chain and no change; the time it then gives is
        the one given now exactly when the answer needed no activation or no request of the
        provider completed earlier.  A completed request is left unanswered only for want of the
        chain, with its outbox row there, and its provider is Active all the same exactly when
        it was before a new request. */
    method CompleteAndActivate(q: Request, readActive: bool, committed: bool) returns (response: Option<Response>)
      requires Valid()
      modifies this
      ensures Valid()
      ensures var (db, provider) := Finished(old(Contents()), q, readActive, committed);
              && Contents() == db && (response.Some? <==> provider.Some?)
              && (response.Some? ==> response.value.provider == provider.value)
      ensures var answer := CompleteJoin(old(Contents()), q).1;
              response.Some? <==> answer.Completed? && (answer.status == Active || (readActive && committed))
      ensures response.Some? ==>
                && q.id in completions && completions[q.id].provider == response.value.provider
                && response.value.provider in providers && providers[response.value.provider].status == Active
                && Finished(Contents(), q, false, false) == (Contents(), Some(response.value.provider))
                && (response.value.at == completions[q.id].at <==>
                      || CompleteJoin(old(Contents()), q).1.status == Active
                      || Earliest(completions, q.id))
      ensures response.None? && CompleteJoin(old(Contents()), q).1.Completed? ==>
                && q.id in completions && completions[q.id].provider in providers
                && completions[q.id].provider in outbox && !(readActive && committed)
                && (providers[completions[q.id].provider].status == Active <==>
                      && q.id !in old(completions) && q.provider in old(providers)
                      && old(providers)[q.provider].status == Active)
    {
      var answer := Complete(q);
      if !answer.Completed? { return None; }
      if answer.status == Active { return Some(Response(answer.provider, answer.at)); }
      if !readActive || !committed { return None; }
      var at := Activate(answer.provider);
      assert at.Some? && IsFirst(completions, answer.provider, at.value);
      FirstIsOwnIff(completions, q.id, at.value);
      return Some(Response(answer.provider, at.value));
    }
  }

  lemma FirstIsOwnIff(completions: map<nat, Completion>, req: nat, at: int)
    requires req in completions && IsFirst(completions, completions[req].provider, at)
    ensures at == completions[req].at <==> Earliest(completions, req)
  {
  }

  /** For every configuration and key: an Active provider joins again while the chain cannot be
      read.  Its request completes and gets no answer, though the provider is Active; and with
      the chain readable its first answer and a later one give different times. */
  lemma RejoinIsUnanswered(cfg: Config, digest: nat -> nat, key: nat)
    ensures var pid := digest(key);
            var steps := JoinRuns.Joining(digest, key) + [Confirm(0, pid), Commit(0)] + [BeginStep(1, 0, 1, key, 0, 2)];
            var db := Run(cfg, digest, Init(), steps).db;
            var q := Request(1, 0, 1, key, 0, pid, 1);
            var (t, answer) := Finished(db, q, false, false);
            && CompleteJoin(db, q).1.Completed? && answer == None
            && pid in t.providers && t.providers[pid].status == Active
            && 1 in t.completions && !Earliest(t.completions, 1)
  {
    var pid := digest(key);
    var first, second := JoinRuns.Joining(digest, key), [Confirm(0, pid), Commit(0)];
    var s := Run(cfg, digest, Init(), first);
    JoinRuns.JoiningJoins(cfg, digest, key);
    JoinRuns.RunConcat(cfg, digest, Init(), first, second);
    JoinRuns.RunConcat(cfg, digest, Init(), first + second, [BeginStep(1, 0, 1, key, 0, 2)]);
    JoinRuns.RunTwo(cfg, digest, s, second[0], second[1]);
    var u := Run(cfg, digest, s, second);
    JoinRuns.RunOne(cfg, digest, u, BeginStep(1, 0, 1, key, 0, 2));
    var t := CompleteJoin(Apply(cfg, digest, u, BeginStep(1, 0, 1, key, 0, 2)).db, Request(1, 0, 1, key, 0, pid, 1)).0;
    assert t.completions[0].provider == pid && t.completions[0].at == 0 && t.completions[1].at == 1;
  }

  // ----- a pass is steps of the proved system -----

  function ItemSteps(o: Outcome, token: nat): (steps: seq<Step>) {
    match o
    case Skipped => [ReconcileSkip]
    case Failure(now, banned, malformed) => [ReconcileFail(now, banned, malformed)]
    case ReadActive(committed) => [ReconcileConfirm(token), if committed then Commit(token) else Abandon(token)]
  }

  function PassSteps(outcomes: nat -> Outcome, n: nat, token: nat): (steps: seq<Step>) {
    if n == 0 then [] else PassSteps(outcomes, n - 1, token) + ItemSteps(outcomes(n - 1), token)
  }

  lemma ItemIsSteps(cfg: Config, digest: nat -> nat, s: Sys, o: Outcome, token: nat)
    requires s.queue != [] && token !in s.flights && s.queue[0].provider in s.db.providers
    ensures var t := Run(cfg, digest, s, ItemSteps(o, token));
            t.db == Settled(cfg, s.db, s.queue[0], o) && t.queue == s.queue[1..] && t.flights == s.flights
  {
    var steps := ItemSteps(o, token);
    if o.ReadActive? {
      JoinRuns.RunTwo(cfg, digest, s, steps[0], steps[1]);
      assert steps == [steps[0], steps[1]];
      assert s.flights[token := s.queue[0].provider] - {token} == s.flights;
    } else {
      JoinRuns.RunOne(cfg, digest, s, steps[0]);
    }
  }

  lemma {:induction false} PassIsSteps(cfg: Config, digest: nat -> nat, s: Sys, outcomes: nat -> Outcome, n: nat,
                                       token: nat)
    requires IsConfig(cfg) && Sound(cfg, s) && n <= |s.queue| && token !in s.flights
    ensures var t := Run(cfg, digest, s, PassSteps(outcomes, n, token));
            && Sound(cfg, t) && t.db == Reconciled(cfg, s.db, s.queue[..n], outcomes)
            && t.queue == s.queue[n..] && t.flights == s.flights
  {
    if n > 0 {
      var t := Run(cfg, digest, s, PassSteps(outcomes, n - 1, token));
      PassIsSteps(cfg, digest, s, outcomes, n - 1, token);
      assert t.queue[0] == s.queue[n - 1] && s.queue[..n][..n - 1] == s.queue[..n - 1];
      assert t.queue[0].provider in t.db.outbox;
      ItemIsSteps(cfg, digest, t, outcomes(n - 1), token);
      RunKeeps(cfg, digest, t, ItemSteps(outcomes(n - 1), token));
      JoinRuns.RunConcat(cfg, digest, s, PassSteps(outcomes, n - 1, token), ItemSteps(outcomes(n - 1), token));
    }
  }

  /** A pass over a fetched batch is a run of the proved system, so it keeps all that runs keep:
      tables paired, attempts within the limit, Active confirmed, challenges spent once. */
  lemma PassIsRun(cfg: Config, digest: nat -> nat, s: Sys, batch: seq<Item>, now: int, outcomes: nat -> Outcome,
                  token: nat)
    requires IsConfig(cfg) && Sound(cfg, s) && s.queue == [] && token !in s.flights && IsBatch(s.db, batch, now)
    ensures var t := Run(cfg, digest, s, [Fetch(batch, now)] + PassSteps(outcomes, |batch|, token));
            Sound(cfg, t) && t.db == Reconciled(cfg, s.db, batch, outcomes) && t.queue == [] && t.flights == s.flights
  {
    var fetched := Apply(cfg, digest, s, Fetch(batch, now));
    StepKeeps(cfg, digest, s, Fetch(batch, now));
    JoinRuns.RunOne(cfg, digest, s, Fetch(batch, now));
    JoinRuns.RunConcat(cfg, digest, s, [Fetch(batch, now)], PassSteps(outcomes, |batch|, token));
    PassIsSteps(cfg, digest, fetched, outcomes, |batch|, token);
    assert batch[..|batch|] == batch;
  }
}
