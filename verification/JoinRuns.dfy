/** What the join protocol guarantees over whole runs, and where it stops short
    (control-plane/internal/providerjoin). */
module JoinRuns {
  import opened Base
  import opened Join
  import Backoff

  // ----- what each request gets -----

  /** Which answer a complete request gets: the stored one if it completed before as it is now; and
      else the first of these that applies, completing only for a challenge that is there, unspent
      and not expired, with the nonce and the key it was issued for. */
  lemma CompleteIs(db: Db, q: Request)
    ensures var (t, a) := CompleteJoin(db, q);
            if q.id in db.completions then
              var c := db.completions[q.id];
              && t == db
              && (if c.challenge == q.challenge && c.hash == q.hash && c.provider in db.providers
                  then a == Completed(c.provider, db.providers[c.provider].status, c.at) else a == Conflict)
            else if q.challenge !in db.challenges then t == db && a == ChallengeNotFound
            else
              var ch := db.challenges[q.challenge];
              if ch.consumed.Some? then t == db && a == ChallengeConsumed
              else if ch.expires <= q.now then t == db && a == ChallengeExpired
              else if ch.nonce == q.nonce && ch.key == q.key then
                && a == Completed(q.provider, Pending, q.now)
                && q.provider in t.providers
                && (q.provider !in db.providers ==> t.providers[q.provider] == Provider(ch.key, Pending))
                && q.provider in t.outbox && (q.provider !in db.outbox ==> t.outbox[q.provider] == Row(Ready, 0, None))
                && t.providers - {q.provider} == db.providers - {q.provider}
                && t.outbox - {q.provider} == db.outbox - {q.provider}
                && q.id in t.completions && t.completions[q.id] == Completion(q.challenge, q.hash, q.provider, q.now)
                && t.completions - {q.id} == db.completions && t.begun == db.begun
                && t.challenges == db.challenges[q.challenge := ch.(consumed := Some(q.now))]
              else t == db && a == Conflict
  {
    var (t, a) := CompleteJoin(db, q);
    assert q.id !in db.completions ==> t.completions - {q.id} == db.completions;
  }

  /** A new begin request gets the challenge made for it and is remembered with it; one made before
      gets its own if it is the same request, and nothing otherwise. */
  lemma BeginIs(db: Db, req: nat, hash: nat, ch: nat, c: Challenge)
    ensures var (t, r) := Begin(db, req, hash, ch, c);
            if req in db.begun then
              t == db && r == (if db.begun[req].hash == hash then Some(db.begun[req].challenge) else None)
            else if ch in db.challenges then t == db && r == None
            else
              && r == Some(ch) && HasBegun(t, req, Begun(challenge := ch, hash := hash))
              && t.challenges == db.challenges[ch := c]
              && t.begun - {req} == db.begun && t == db.(begun := t.begun, challenges := t.challenges)
  {
    var t := Begin(db, req, hash, ch, c).0;
    assert req !in db.begun ==> t.begun - {req} == db.begun;
  }

  // ----- a completed request stays completed -----

  lemma StepKeepsCompletion(cfg: Config, digest: nat -> nat, s: Sys, step: Step, req: nat)
    requires req in s.db.completions
    ensures var t := Apply(cfg, digest, s, step);
        req in t.db.completions && t.db.completions[req] == s.db.completions[req]
  {
  }

  lemma {:induction false} RunKeepsCompletion(cfg: Config, digest: nat -> nat, s: Sys, steps: seq<Step>, req: nat)
    requires req in s.db.completions
    ensures var t := Run(cfg, digest, s, steps);
        req in t.db.completions && t.db.completions[req] == s.db.completions[req]
    decreases |steps|
  {
    if steps != [] {
      StepKeepsCompletion(cfg, digest, s, steps[0], req);
      RunKeepsCompletion(cfg, digest, Apply(cfg, digest, s, steps[0]), steps[1..], req);
    }
  }

  /** Repeated whenever later, a completed request changes nothing and gets the same provider. */
  lemma {:induction false} RepeatAnswersSame(cfg: Config, digest: nat -> nat, s: Sys, steps: seq<Step>, q: Request,
                                             t: Sys)
    requires IsConfig(cfg) && Sound(cfg, s) && t == Run(cfg, digest, s, steps)
    requires q.id in s.db.completions && s.db.completions[q.id].challenge == q.challenge
        && s.db.completions[q.id].hash == q.hash
    ensures CompleteJoin(t.db, q).0 == t.db
    ensures var a := CompleteJoin(t.db, q).1;
            a.Completed? && a.provider == s.db.completions[q.id].provider && a.at == s.db.completions[q.id].at
  {
    RunKeepsCompletion(cfg, digest, s, steps, q.id);
    RunKeeps(cfg, digest, s, steps);
  }

  // ----- a begun request keeps its challenge -----

  /** The same challenge, spent or not. */
  predicate SameChallenge(a: Challenge, b: Challenge) {
    a.key == b.key && a.nonce == b.nonce && a.expires == b.expires
  }

  /** The request has its challenge. */
  predicate HasBegun(db: Db, req: nat, b: Begun) {
    req in db.begun && db.begun[req] == b && b.challenge in db.challenges
  }

  lemma StepKeepsBegun(cfg: Config, digest: nat -> nat, s: Sys, step: Step, req: nat, b: Begun)
    requires HasBegun(s.db, req, b)
    ensures var t := Apply(cfg, digest, s, step);
            HasBegun(t.db, req, b) && SameChallenge(t.db.challenges[b.challenge], s.db.challenges[b.challenge])
  {
  }

  /** Repeated whenever later, a begin request changes nothing and gets the challenge it got, the
      same but for its being spent. */
  lemma {:induction false} RepeatedBeginGetsSame(cfg: Config, digest: nat -> nat, s: Sys, steps: seq<Step>, req: nat,
                                                 b: Begun)
    requires HasBegun(s.db, req, b)
    ensures var t := Run(cfg, digest, s, steps);
            && HasBegun(t.db, req, b) && SameChallenge(t.db.challenges[b.challenge], s.db.challenges[b.challenge])
            && forall ch, c :: Begin(t.db, req, b.hash, ch, c) == (t.db, Some(b.challenge))
    decreases |steps|
  {
    if steps != [] {
      StepKeepsBegun(cfg, digest, s, steps[0], req, b);
      RepeatedBeginGetsSame(cfg, digest, Apply(cfg, digest, s, steps[0]), steps[1..], req, b);
    }
  }

  // ----- keys -----

  /** Every provider's id is the digest of its key. */
  ghost predicate Named(digest: nat -> nat, providers: map<nat, Provider>) {
    forall pid :: pid in providers ==> digest(providers[pid].key) == pid
  }

  /** The providers of before are still there, each with the key it had. */
  ghost predicate SameKeys(before: map<nat, Provider>, after: map<nat, Provider>) {
    forall pid :: pid in before ==> pid in after && after[pid].key == before[pid].key
  }

  lemma StepKeepsKeys(cfg: Config, digest: nat -> nat, s: Sys, step: Step)
    requires Named(digest, s.db.providers)
    ensures var t := Apply(cfg, digest, s, step);
            Named(digest, t.db.providers) && SameKeys(s.db.providers, t.db.providers)
  {
  }

  lemma {:induction false} RunKeepsKeys(cfg: Config, digest: nat -> nat, s: Sys, steps: seq<Step>)
    requires Named(digest, s.db.providers)
    ensures var t := Run(cfg, digest, s, steps);
            Named(digest, t.db.providers) && SameKeys(s.db.providers, t.db.providers)
    decreases |steps|
  {
    if steps != [] {
      StepKeepsKeys(cfg, digest, s, steps[0]);
      RunKeepsKeys(cfg, digest, Apply(cfg, digest, s, steps[0]), steps[1..]);
    }
  }

  /** In every run and all its continuations: a provider keeps the key it joined with, its id
      is that key's digest, and so no two providers ever share a key, colliding digests or not. */
  lemma KeysAreFixed(cfg: Config, digest: nat -> nat, steps: seq<Step>, more: seq<Step>)
    ensures var s := Run(cfg, digest, Init(), steps);
            var t := Run(cfg, digest, s, more);
            && Named(digest, t.db.providers) && SameKeys(s.db.providers, t.db.providers)
            && forall p, q ::
                p in s.db.providers && q in t.db.providers && s.db.providers[p].key == t.db.providers[q].key ==> p == q
  {
    RunKeepsKeys(cfg, digest, Init(), steps);
    RunKeepsKeys(cfg, digest, Run(cfg, digest, Init(), steps), more);
  }

  // ----- retries -----

  /** A failure is final exactly when it is the last allowed or can never be mended, and then no
      other is scheduled; otherwise the row waits for its backoff. */
  lemma FailureIsFinalIff(cfg: Config, s: Sys, now: int, banned: bool, malformed: bool)
    requires IsConfig(cfg) && Sound(cfg, s) && s.queue != []
    ensures var pid := s.queue[0].provider;
            var row := Fail(cfg, s.db, s.queue[0], now, banned, malformed).outbox[pid];
            && row.attempts == s.db.outbox[pid].attempts + 1 <= cfg.maxAttempts
            && row.state == (if malformed || row.attempts == cfg.maxAttempts then Failed else Retry)
            && (row.state == Failed ==> forall later :: !DueRow(row, later))
            && (row.state == Retry ==> forall later :: DueRow(row, later) <==>
                later >= now + NextDelay(cfg, row.attempts, banned))
  {
  }

  /** After a ban the wait is the longest there is; otherwise it doubles with the attempts up to it. */
  lemma DelaysAreOrdered(cfg: Config, m: nat, n: nat)
    requires 1 <= m <= n
    ensures NextDelay(cfg, m, true) == cfg.maxBackoff
    ensures NextDelay(cfg, m, false) == Min(cfg.baseBackoff * Backoff.Pow2(Min(m - 1, 16)), cfg.maxBackoff)
    ensures NextDelay(cfg, m, false) <= NextDelay(cfg, n, false) <= cfg.maxBackoff
  {
    Backoff.DelayMonotone(cfg.baseBackoff, cfg.maxBackoff, m, n);
  }

  // ----- what ends a status -----

  lemma {:induction false} RunExtend(cfg: Config, digest: nat -> nat, s: Sys, steps: seq<Step>, k: nat)
    requires k < |steps|
    ensures Run(cfg, digest, s, steps[..k + 1]) == Apply(cfg, digest, Run(cfg, digest, s, steps[..k]), steps[k])
    decreases |steps|
  {
    var rest := steps[1..];
    assert steps[..k + 1][1..] == rest[..k];
    if k > 0 {
      assert steps[..k][1..] == rest[..k - 1];
      RunExtend(cfg, digest, Apply(cfg, digest, s, steps[0]), rest, k - 1);
    }
  }

  /** A fact that `ups` establish, `downs` end and nothing else touches, and that did not hold at
      first, holds after `n` steps exactly when some up has no down after it. */
  lemma {:induction false} LastWins(holds: nat -> bool, up: nat -> bool, down: nat -> bool, n: nat)
    requires !holds(0)
    requires forall k: nat :: k < n ==> (holds(k + 1) <==> up(k) || (holds(k) && !down(k)))
    ensures holds(n) <==> exists i: nat :: i < n && up(i) && forall j: nat :: i < j < n ==> !down(j)
  {
    if n > 0 {
      LastWins(holds, up, down, n - 1);
      if holds(n - 1) && !down(n - 1) {
        var i: nat :| i < n - 1 && up(i) && forall j: nat :: i < j < n - 1 ==> !down(j);
        assert i < n && up(i) && forall j: nat :: i < j < n ==> !down(j);
      }
    }
  }

  /** At step k, a caller that had read `pid` Active commits its activation. */
  ghost predicate CommitsAt(cfg: Config, digest: nat -> nat, s: Sys, steps: seq<Step>, k: nat, pid: nat) {
    && k < |steps| && steps[k].Commit?
    && var flights := Run(cfg, digest, s, steps[..k]).flights;
       steps[k].token in flights && flights[steps[k].token] == pid
  }

  /** At step k, the reconciler records a failure for `pid`, fetched before. */
  ghost predicate FailsAt(cfg: Config, digest: nat -> nat, s: Sys, steps: seq<Step>, k: nat, pid: nat) {
    && k < |steps| && steps[k].ReconcileFail?
    && var queue := Run(cfg, digest, s, steps[..k]).queue;
       queue != [] && queue[0].provider == pid
  }

  predicate RevokesAt(steps: seq<Step>, k: nat, pid: nat) {
    k < |steps| && steps[k] == Revoke(pid)
  }

  lemma StatusMoves(cfg: Config, digest: nat -> nat, s: Sys, step: Step, pid: nat)
    requires pid in s.db.providers
    ensures var t := Apply(cfg, digest, s, step);
            && pid in t.db.providers
            && t.db.providers[pid].status ==
                 if step.Commit? && step.token in s.flights && s.flights[step.token] == pid then Active
                 else if step == Revoke(pid) then Revoked
                 else s.db.providers[pid].status
  {
  }

  lemma RowMoves(cfg: Config, digest: nat -> nat, s: Sys, step: Step, pid: nat)
    requires pid in s.db.providers && pid in s.db.outbox
    ensures var t := Apply(cfg, digest, s, step);
            && pid in t.db.outbox
            && (t.db.outbox[pid].state == Finalized <==>
                  || (step.Commit? && step.token in s.flights && s.flights[step.token] == pid)
                  || (s.db.outbox[pid].state == Finalized
                      && !(step.ReconcileFail? && s.queue != [] && s.queue[0].provider == pid)))
  {
  }

  lemma {:induction false} StillJoined(cfg: Config, digest: nat -> nat, s: Sys, steps: seq<Step>, pid: nat)
    requires pid in s.db.providers && pid in s.db.outbox
    ensures var t := Run(cfg, digest, s, steps); pid in t.db.providers && pid in t.db.outbox
    decreases |steps|
  {
    if steps != [] {
      StatusMoves(cfg, digest, s, steps[0], pid);
      RowMoves(cfg, digest, s, steps[0], pid);
      StillJoined(cfg, digest, Apply(cfg, digest, s, steps[0]), steps[1..], pid);
    }
  }

  ghost predicate ActiveAfter(cfg: Config, digest: nat -> nat, s: Sys, steps: seq<Step>, k: nat, pid: nat) {
    && k <= |steps|
    && var providers := Run(cfg, digest, s, steps[..k]).db.providers;
        pid in providers && providers[pid].status == Active
  }

  ghost predicate FinalizedAfter(cfg: Config, digest: nat -> nat, s: Sys, steps: seq<Step>, k: nat, pid: nat) {
    && k <= |steps|
    && var outbox := Run(cfg, digest, s, steps[..k]).db.outbox; pid in outbox && outbox[pid].state == Finalized
  }

  lemma ActiveStep(cfg: Config, digest: nat -> nat, s: Sys, steps: seq<Step>, k: nat, pid: nat)
    requires pid in s.db.providers && pid in s.db.outbox && k < |steps|
    ensures ActiveAfter(cfg, digest, s, steps, k + 1, pid) <==>
              CommitsAt(cfg, digest, s, steps, k, pid)
                  || (ActiveAfter(cfg, digest, s, steps, k, pid) && !RevokesAt(steps, k, pid))
  {
    StillJoined(cfg, digest, s, steps[..k], pid);
    RunExtend(cfg, digest, s, steps, k);
    StatusMoves(cfg, digest, Run(cfg, digest, s, steps[..k]), steps[k], pid);
  }

  lemma FinalizedStep(cfg: Config, digest: nat -> nat, s: Sys, steps: seq<Step>, k: nat, pid: nat)
    requires pid in s.db.providers && pid in s.db.outbox && k < |steps|
    ensures FinalizedAfter(cfg, digest, s, steps, k + 1, pid) <==>
              || CommitsAt(cfg, digest, s, steps, k, pid)
              || (FinalizedAfter(cfg, digest, s, steps, k, pid) && !FailsAt(cfg, digest, s, steps, k, pid))
  {
    StillJoined(cfg, digest, s, steps[..k], pid);
    RunExtend(cfg, digest, s, steps, k);
    RowMoves(cfg, digest, Run(cfg, digest, s, steps[..k]), steps[k], pid);
  }

  /** After any steps, a provider that was not Active is Active exactly when some activation
      commit for it has no revocation after it: the later of the two always wins. */
  lemma ActiveIffCommitLast(cfg: Config, digest: nat -> nat, s: Sys, steps: seq<Step>, pid: nat)
    requires Sound(cfg, s) && pid in s.db.providers && s.db.providers[pid].status != Active
    ensures ActiveAfter(cfg, digest, s, steps, |steps|, pid) <==>
              exists i: nat :: i < |steps| && CommitsAt(cfg, digest, s, steps, i, pid)
                               && forall j: nat :: i < j < |steps| ==> !RevokesAt(steps, j, pid)
  {
    ghost var holds := (k: nat) => ActiveAfter(cfg, digest, s, steps, k, pid);
    ghost var up, down := (k: nat) => CommitsAt(cfg, digest, s, steps, k, pid), (k: nat) => RevokesAt(steps, k, pid);
    forall k: nat | k < |steps| ensures holds(k + 1) <==> up(k) || (holds(k) && !down(k)) {
      ActiveStep(cfg, digest, s, steps, k, pid);
    }
    assert !holds(0);
    LastWins(holds, up, down, |steps|);
    if holds(|steps|) {
      var i: nat :| i < |steps| && up(i) && forall j: nat :: i < j < |steps| ==> !down(j);
      forall j: nat | i < j < |steps| ensures !RevokesAt(steps, j, pid) { assert !down(j); }
      assert CommitsAt(cfg, digest, s, steps, i, pid);
    } else {
      forall i: nat | i < |steps| && CommitsAt(cfg, digest, s, steps, i, pid)
        ensures exists j: nat :: i < j < |steps| && RevokesAt(steps, j, pid)
      {
        assert up(i);
        var j: nat :| i < j < |steps| && down(j);
        assert RevokesAt(steps, j, pid);
      }
    }
  }

  /** After any steps, a row that was not FINALIZED is FINALIZED exactly when some activation
      commit for its provider has no recorded failure after it. */
  lemma FinalizedIffCommitLast(cfg: Config, digest: nat -> nat, s: Sys, steps: seq<Step>, pid: nat)
    requires Sound(cfg, s) && pid in s.db.outbox && s.db.outbox[pid].state != Finalized
    ensures FinalizedAfter(cfg, digest, s, steps, |steps|, pid) <==>
              exists i: nat :: i < |steps| && CommitsAt(cfg, digest, s, steps, i, pid)
                               && forall j: nat :: i < j < |steps| ==> !FailsAt(cfg, digest, s, steps, j, pid)
  {
    ghost var holds := (k: nat) => FinalizedAfter(cfg, digest, s, steps, k, pid);
    ghost var up := (k: nat) => CommitsAt(cfg, digest, s, steps, k, pid);
    ghost var down := (k: nat) => FailsAt(cfg, digest, s, steps, k, pid);
    forall k: nat | k < |steps| ensures holds(k + 1) <==> up(k) || (holds(k) && !down(k)) {
      FinalizedStep(cfg, digest, s, steps, k, pid);
    }
    assert !holds(0);
    LastWins(holds, up, down, |steps|);
    if holds(|steps|) {
      var i: nat :| i < |steps| && up(i) && forall j: nat :: i < j < |steps| ==> !down(j);
      forall j: nat | i < j < |steps| ensures !FailsAt(cfg, digest, s, steps, j, pid) { assert !down(j); }
      assert CommitsAt(cfg, digest, s, steps, i, pid);
    } else {
      forall i: nat | i < |steps| && CommitsAt(cfg, digest, s, steps, i, pid)
        ensures exists j: nat :: i < j < |steps| && FailsAt(cfg, digest, s, steps, j, pid)
      {
        assert up(i);
        var j: nat :| i < j < |steps| && down(j);
        assert FailsAt(cfg, digest, s, steps, j, pid);
      }
    }
  }

  lemma FetchedAndConfirmed(s: Sys, pid: nat, now: int, token: nat)
    requires Paired(s.db) && s.queue == [] && token !in s.flights
    requires pid in s.db.outbox && DueRow(s.db.outbox[pid], now)
    ensures IsBatch(s.db, [Item(pid, s.db.outbox[pid].attempts)], now)
    ensures var c := ApplyConfirm(s, token, pid);
        token in c.flights && c.flights[token] == pid && c.db == s.db && c.queue == []
  {
  }

  lemma Committed(s: Sys, token: nat, pid: nat)
    requires token in s.flights && s.flights[token] == pid && pid in s.db.providers && pid in s.db.outbox
    ensures var t := ApplyCommit(s, token); t.db.providers[pid].status == Active && t.db.outbox[pid].state == Finalized
  {
  }

  /** A due outbox row is enough: the idle reconciler fetches it, reads the chain and activates
      the provider, with no help from the agent; and that also when it had been Revoked. */
  lemma OutboxFinishes(cfg: Config, digest: nat -> nat, s: Sys, pid: nat, now: int, token: nat)
    requires IsConfig(cfg) && Sound(cfg, s) && s.queue == [] && token !in s.flights
    requires pid in s.db.outbox && DueRow(s.db.outbox[pid], now)
    ensures var a := Apply(cfg, digest, s, Fetch([Item(pid, s.db.outbox[pid].attempts)], now));
            var b := Apply(cfg, digest, a, ReconcileConfirm(token));
            var c := Apply(cfg, digest, b, Commit(token));
            c.db.providers[pid].status == Active && c.db.outbox[pid].state == Finalized
  {
    var batch := [Item(pid, s.db.outbox[pid].attempts)];
    FetchedAndConfirmed(s, pid, now, token);
    var a := Apply(cfg, digest, s, Fetch(batch, now));
    assert a == s.(queue := batch) && a.queue[1..] == [] && a.(queue := []) == s;
    var b := Apply(cfg, digest, a, ReconcileConfirm(token));
    assert b == ApplyConfirm(s, token, pid);
    Committed(b, token, pid);
  }

  // ----- two runs -----

  /** A provider begins and completes its join. */
  function Joining(digest: nat -> nat, key: nat): (steps: seq<Step>) {
    [BeginStep(0, 0, 0, key, 0, 1), CompleteStep(Request(0, 0, 0, key, 0, digest(key), 0))]
  }

  lemma {:induction false} RunConcat(cfg: Config, digest: nat -> nat, s: Sys, steps: seq<Step>, more: seq<Step>)
    ensures Run(cfg, digest, s, steps + more) == Run(cfg, digest, Run(cfg, digest, s, steps), more)
    decreases |steps|
  {
    if steps == [] {
      assert steps + more == more;
    } else {
      assert (steps + more)[1..] == steps[1..] + more;
      RunConcat(cfg, digest, Apply(cfg, digest, s, steps[0]), steps[1..], more);
    }
  }

  lemma RunOne(cfg: Config, digest: nat -> nat, s: Sys, a: Step)
    ensures Run(cfg, digest, s, [a]) == Apply(cfg, digest, s, a)
  {
    var t := Apply(cfg, digest, s, a);
    assert [a][1..] == [] && Run(cfg, digest, t, []) == t;
  }

  lemma RunTwo(cfg: Config, digest: nat -> nat, s: Sys, a: Step, b: Step)
    ensures Run(cfg, digest, s, [a, b]) == Apply(cfg, digest, Apply(cfg, digest, s, a), b)
  {
    assert [a, b] == [a] + [b];
    RunConcat(cfg, digest, s, [a], [b]);
    RunOne(cfg, digest, s, a);
    RunOne(cfg, digest, Apply(cfg, digest, s, a), b);
  }

  lemma JoiningJoins(cfg: Config, digest: nat -> nat, key: nat)
    ensures var s, pid := Run(cfg, digest, Init(), Joining(digest, key)), digest(key);
            && pid in s.db.providers && s.db.providers[pid].status == Pending && pid in s.db.outbox
            && s.db.outbox[pid] == Row(Ready, 0, None) && s.flights == map[] && s.queue == []
            && s.db.challenges.Keys == {0} && s.db.begun.Keys == {0}
            && s.db.completions == map[0 := Completion(0, 0, pid, 0)]
  {
    var steps := Joining(digest, key);
    RunTwo(cfg, digest, Init(), steps[0], steps[1]);
    assert steps == [steps[0], steps[1]];
  }

  /** For every configuration and key: the service reads Active and commits between the
      reconciler's fetch and the failure of its own read.  The provider ends Active, its
      registration waiting for another attempt or given up. */
  lemma FinalizedCanEnd(cfg: Config, digest: nat -> nat, key: nat, now: int, banned: bool)
    ensures var pid := digest(key);
            var late := [Fetch([Item(pid, 0)], now), Confirm(0, pid)] + [Commit(0), ReconcileFail(now, banned, false)];
            var db := Run(cfg, digest, Init(), Joining(digest, key) + late).db;
            && pid in db.providers && db.providers[pid].status == Active
            && pid in db.outbox && db.outbox[pid].state == (if cfg.maxAttempts <= 1 then Failed else Retry)
  {
    var pid := digest(key);
    var s := Run(cfg, digest, Init(), Joining(digest, key));
    var first, second := [Fetch([Item(pid, 0)], now), Confirm(0, pid)], [Commit(0), ReconcileFail(now, banned, false)];
    JoiningJoins(cfg, digest, key);
    RunConcat(cfg, digest, Init(), Joining(digest, key), first + second);
    RunConcat(cfg, digest, s, first, second);
    RunTwo(cfg, digest, s, first[0], first[1]);
    var u := Run(cfg, digest, s, first);
    assert u.queue == [Item(pid, 0)] && u.flights == map[0 := pid] && u.db == s.db;
    RunTwo(cfg, digest, u, second[0], second[1]);
  }

  /** For every configuration and key: a provider revoked while the service holds an Active read
      is Active again once the service commits. */
  lemma RevocationCanEnd(cfg: Config, digest: nat -> nat, key: nat)
    ensures var pid := digest(key);
            var revoked := [Confirm(0, pid), Revoke(pid)];
            var a := Run(cfg, digest, Init(), Joining(digest, key) + revoked).db;
            var b := Run(cfg, digest, Init(), Joining(digest, key) + revoked + [Commit(0)]).db;
            && pid in a.providers && a.providers[pid].status == Revoked
            && pid in b.providers && b.providers[pid].status == Active
  {
    var pid := digest(key);
    var s := Run(cfg, digest, Init(), Joining(digest, key));
    var revoked := [Confirm(0, pid), Revoke(pid)];
    JoiningJoins(cfg, digest, key);
    RunConcat(cfg, digest, Init(), Joining(digest, key), revoked);
    RunConcat(cfg, digest, Init(), Joining(digest, key) + revoked, [Commit(0)]);
    RunTwo(cfg, digest, s, revoked[0], revoked[1]);
    var u := Run(cfg, digest, s, revoked);
    assert u.flights == map[0 := pid];
    assert Run(cfg, digest, u, [Commit(0)]) == Apply(cfg, digest, u, Commit(0));
  }
}
