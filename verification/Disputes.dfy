/** Which round's score is in force when rounds are disputed
    (blockchain/pallets/network-validator/src/lib.rs). */
module Disputes {
  import opened Base
  import opened Rounds

  function New(base: nat): (b: Board) {
    Board(map[], base, [], None)
  }

  predicate Closed(b: Board, round: nat) {
    Get(b, round).result.Some?
  }

  predicate Has(b: Board, round: nat, status: RoundStatus) {
    Closed(b, round) && Get(b, round).result.value.status == status
  }

  /** Closed and neither disputed nor found wrong. */
  predicate Stands(b: Board, round: nat) {
    Has(b, round, Final) || Has(b, round, DisputeRejected)
  }

  /** The latest standing round among the first `n` to close. */
  function LatestStanding(b: Board, n: nat): (r: Option<nat>)
    requires n <= |b.order|
  {
    if n == 0 then None else if Stands(b, b.order[n - 1]) then Some(b.order[n - 1]) else LatestStanding(b, n - 1)
  }

  /** The score in force is the latest standing round's. */
  predicate InForce(b: Board) {
    b.source == LatestStanding(b, |b.order|)
  }

  // ----- what a call does -----

  predicate Closes(cfg: Config, b: Board, c: Call) {
    c.CloseRound? && c.entitled && !Closed(b, c.round) && |Get(b, c.round).evidence| >= cfg.quorum
  }

  predicate Contests(b: Board, c: Call) {
    c.DisputeRound? && c.entitled && Has(b, c.round, Final)
  }

  predicate Upholds(b: Board, c: Call) {
    c.ResolveDispute? && c.entitled && c.uphold && Has(b, c.round, Disputed)
  }

  predicate Rejects(b: Board, c: Call) {
    c.ResolveDispute? && c.entitled && !c.uphold && Has(b, c.round, Disputed)
  }

  /** Every other round is what it was. */
  ghost predicate OthersSame(b: Board, t: Board, round: nat) {
    forall r :: r != round ==> Get(t, r) == Get(b, r)
  }

  /** The round has a new status and nothing else. */
  ghost predicate Restated(b: Board, t: Board, round: nat, status: RoundStatus) {
    && OthersSame(b, t, round) && Closed(b, round) && t.order == b.order
    && Get(t, round) == Get(b, round).(result := Some(Get(b, round).result.value.(status := status)))
  }

  lemma CloseDoes(cfg: Config, b: Board, c: Call)
    requires Closes(cfg, b, c)
    ensures var t := Execute(cfg, b, c);
            && OthersSame(b, t, c.round) && Has(t, c.round, Final) && Get(t, c.round).beneath == b.source
            && Get(t, c.round).result.value.previous == cfg.scale.read(b.score)
            && t.score == cfg.scale.store(Get(t, c.round).result.value.score)
            && Get(t, c.round).result.value.score <= MAX_SCORE
            && t.order == b.order + [c.round] && t.source == Some(c.round)
  {
  }

  lemma ContestDoes(cfg: Config, b: Board, c: Call)
    requires Contests(b, c)
    ensures var t := Execute(cfg, b, c);
            && Restated(b, t, c.round, Disputed) && t.source == Get(b, c.round).beneath
            && t.score == cfg.scale.store(Get(b, c.round).result.value.previous)
  {
  }

  lemma ResolveDoes(cfg: Config, b: Board, c: Call)
    requires Upholds(b, c) || Rejects(b, c)
    ensures var t := Execute(cfg, b, c);
            if Upholds(b, c) then Restated(b, t, c.round, DisputeUpheld) && t.source == b.source && t.score == b.score
            else
              && Restated(b, t, c.round, DisputeRejected) && t.source == Some(c.round)
              && t.score == cfg.scale.store(Get(b, c.round).result.value.score)
  {
  }

  lemma OtherDoes(cfg: Config, b: Board, c: Call)
    requires !Closes(cfg, b, c) && !Contests(b, c) && !Upholds(b, c) && !Rejects(b, c)
    ensures var t := Execute(cfg, b, c);
            && t.order == b.order && t.source == b.source && t.score == b.score
            && forall r :: Get(t, r).result == Get(b, r).result && Get(t, r).beneath == Get(b, r).beneath
  {
  }

  // ----- in every run, the score is that of the round in force -----

  /** The score a round, or the beginning, puts in force. */
  function ScoreFrom(cfg: Config, b: Board, base: nat, source: Option<nat>): (score: nat) {
    if source.Some? && Closed(b, source.value) then cfg.scale.store(Get(b, source.value).result.value.score) else base
  }

  /** The closed rounds are those listed, once each. */
  ghost predicate Listed(b: Board) {
    Distinct(b.order) && forall round :: round in b.order <==> Closed(b, round)
  }

  /** What is on the scale survives being read and stored again, and basis points stay on it. */
  ghost predicate Exact(scale: Scale) {
    && (forall s: nat :: s <= scale.max ==> scale.store(scale.read(s)) == s)
    && (forall bps: nat :: bps <= MAX_SCORE ==> scale.store(bps) <= scale.max)
  }

  /** Recorded scores are those of the rounds they are recorded for. */
  ghost predicate Sourced(cfg: Config, b: Board, base: nat) {
    && (b.source.Some? ==> Closed(b, b.source.value)) && b.score == ScoreFrom(cfg, b, base, b.source)
    && forall r :: Closed(b, r) ==>
         && Get(b, r).result.value.score <= MAX_SCORE
         && (Get(b, r).beneath.Some? ==> Closed(b, Get(b, r).beneath.value))
         && Get(b, r).result.value.previous == cfg.scale.read(ScoreFrom(cfg, b, base, Get(b, r).beneath))
  }

  lemma ListedStep(cfg: Config, b: Board, c: Call)
    requires Listed(b)
    ensures Listed(Execute(cfg, b, c))
  {
    if Closes(cfg, b, c) {
      CloseDoes(cfg, b, c);
      assert forall r :: r in b.order + [c.round] <==> r in b.order || r == c.round;
    } else if Contests(b, c) { ContestDoes(cfg, b, c); }
    else if Upholds(b, c) || Rejects(b, c) { ResolveDoes(cfg, b, c); }
    else { OtherDoes(cfg, b, c); }
  }

  /** Statuses and evidence apart, the closed rounds are those of before. */
  ghost predicate SameResults(b: Board, t: Board) {
    forall r :: (Closed(t, r) <==> Closed(b, r)) && Get(t, r).beneath == Get(b, r).beneath
      && (Closed(b, r) ==> Get(t, r).result.value.score == Get(b, r).result.value.score
                           && Get(t, r).result.value.previous == Get(b, r).result.value.previous)
  }

  lemma SameResultsSource(cfg: Config, b: Board, t: Board, base: nat)
    requires Sourced(cfg, b, base) && SameResults(b, t)
    requires (t.source.Some? ==> Closed(t, t.source.value)) && t.score == ScoreFrom(cfg, t, base, t.source)
    ensures Sourced(cfg, t, base)
  {
    forall source: Option<nat> ensures ScoreFrom(cfg, t, base, source) == ScoreFrom(cfg, b, base, source) { }
  }

  lemma CloseSources(cfg: Config, b: Board, base: nat, c: Call)
    requires Sourced(cfg, b, base) && Closes(cfg, b, c)
    ensures Sourced(cfg, Execute(cfg, b, c), base)
  {
    CloseDoes(cfg, b, c);
    var t := Execute(cfg, b, c);
    forall r | Closed(b, r)
      ensures ScoreFrom(cfg, t, base, Get(b, r).beneath) == ScoreFrom(cfg, b, base, Get(b, r).beneath)
    {
    }
  }

  lemma ContestSources(cfg: Config, b: Board, base: nat, c: Call)
    requires Exact(cfg.scale) && base <= cfg.scale.max && Sourced(cfg, b, base) && Contests(b, c)
    ensures Sourced(cfg, Execute(cfg, b, c), base)
  {
    ContestDoes(cfg, b, c);
    var t := Execute(cfg, b, c);
    var under := ScoreFrom(cfg, b, base, Get(b, c.round).beneath);
    assert under <= cfg.scale.max && cfg.scale.store(cfg.scale.read(under)) == under;
    SameResultsSource(cfg, b, t, base);
  }

  lemma SourcedStep(cfg: Config, b: Board, base: nat, c: Call)
    requires Exact(cfg.scale) && base <= cfg.scale.max && Sourced(cfg, b, base)
    ensures Sourced(cfg, Execute(cfg, b, c), base)
  {
    if Closes(cfg, b, c) {
      CloseSources(cfg, b, base, c);
    } else if Contests(b, c) {
      ContestSources(cfg, b, base, c);
    } else {
      if Upholds(b, c) || Rejects(b, c) { ResolveDoes(cfg, b, c); } else { OtherDoes(cfg, b, c); }
      SameResultsSource(cfg, b, Execute(cfg, b, c), base);
    }
  }

  /** In every run on an exact scale, the score is that of the round in force, or the one it began
      with. */
  lemma {:induction false} ScoreIsInForce(cfg: Config, b: Board, base: nat, calls: seq<Call>)
    requires Exact(cfg.scale) && base <= cfg.scale.max && Sourced(cfg, b, base)
    ensures Sourced(cfg, Run(cfg, b, calls), base)
    decreases |calls|
  {
    if calls != [] {
      SourcedStep(cfg, b, base, calls[0]);
      ScoreIsInForce(cfg, Execute(cfg, b, calls[0]), base, calls[1..]);
    }
  }

  // ----- the latest standing round -----

  lemma {:induction false} LatestIs(b: Board, n: nat)
    requires n <= |b.order|
    ensures var r := LatestStanding(b, n);
            if r.Some? then exists j ::
                0 <= j < n && b.order[j] == r.value && Stands(b, b.order[j])
                && forall k :: j < k < n ==> !Stands(b, b.order[k])
            else forall k :: 0 <= k < n ==> !Stands(b, b.order[k])
  {
    if n > 0 && !Stands(b, b.order[n - 1]) {
      LatestIs(b, n - 1);
      var r := LatestStanding(b, n - 1);
      if r.Some? {
        var j :| 0 <= j < n - 1 && b.order[j] == r.value && Stands(b, b.order[j]) && forall k :: j < k < n - 1 ==>
            !Stands(b, b.order[k]);
        assert forall k :: j < k < n ==> !Stands(b, b.order[k]);
      }
    }
  }

  lemma {:induction false} LatestAgrees(b: Board, t: Board, n: nat)
    requires n <= |b.order| && n <= |t.order| && forall k :: 0 <= k < n ==>
        t.order[k] == b.order[k] && (Stands(t, b.order[k]) <==> Stands(b, b.order[k]))
    ensures LatestStanding(t, n) == LatestStanding(b, n)
  {
    if n > 0 { LatestAgrees(b, t, n - 1); }
  }

  lemma {:induction false} LatestSkips(b: Board, m: nat, n: nat)
    requires m <= n <= |b.order| && forall k :: m <= k < n ==> !Stands(b, b.order[k])
    ensures LatestStanding(b, n) == LatestStanding(b, m)
  {
    if m < n { LatestSkips(b, m, n - 1); }
  }

  // ----- when the latest standing round stays in force -----

  /** A round that still stands closed after the `i`-th did. */
  ghost predicate Buried(b: Board, i: nat) {
    exists j :: i < j < |b.order| && Stands(b, b.order[j])
  }

  /** Disputes, or clears of a dispute, a round after which another closed that still stands. */
  ghost predicate Overrides(b: Board, c: Call) {
    (Contests(b, c) || Rejects(b, c)) && exists i :: 0 <= i < |b.order| && b.order[i] == c.round && Buried(b, i)
  }

  /** Undisputed rounds lie on the latest standing round before them. */
  ghost predicate Stacked(b: Board) {
    forall i :: 0 <= i < |b.order| && Has(b, b.order[i], Final) ==> Get(b, b.order[i]).beneath == LatestStanding(b, i)
  }

  ghost predicate Orderly(b: Board) {
    Listed(b) && InForce(b) && Stacked(b)
  }

  /** No round stands or falls, so nothing changes. */
  lemma UnmovedKeeps(b: Board, t: Board)
    requires Orderly(b) && Listed(t) && t.order == b.order && t.source == b.source
    requires forall r ::
        (Stands(t, r) <==> Stands(b, r)) && (Has(t, r, Final) <==> Has(b, r, Final))
        && Get(t, r).beneath == Get(b, r).beneath
    ensures Orderly(t)
  {
    forall n: nat | n <= |b.order| ensures LatestStanding(t, n) == LatestStanding(b, n) { LatestAgrees(b, t, n); }
  }

  lemma CloseKeeps(cfg: Config, b: Board, c: Call)
    requires Orderly(b) && Closes(cfg, b, c)
    ensures Orderly(Execute(cfg, b, c))
  {
    var t := Execute(cfg, b, c);
    CloseDoes(cfg, b, c);
    ListedStep(cfg, b, c);
    assert c.round !in b.order;
    forall n: nat | n <= |b.order| ensures LatestStanding(t, n) == LatestStanding(b, n) { LatestAgrees(b, t, n); }
  }

  /** The `i`-th round changed its standing and nothing else did. */
  ghost predicate MovedAt(b: Board, t: Board, i: nat) {
    && i < |b.order| && t.order == b.order && OthersSame(b, t, b.order[i])
    && Get(t, b.order[i]).beneath == Get(b, b.order[i]).beneath && !Has(t, b.order[i], Final)
  }

  lemma MovedLatest(b: Board, t: Board, i: nat)
    requires Listed(b) && MovedAt(b, t, i)
    ensures forall n: nat :: n <= i ==> LatestStanding(t, n) == LatestStanding(b, n)
    ensures forall k :: i < k < |b.order| ==> (Stands(t, t.order[k]) <==> Stands(b, b.order[k]))
  {
    forall n: nat | n <= i ensures LatestStanding(t, n) == LatestStanding(b, n) {
      assert forall k :: 0 <= k < n ==> b.order[k] != b.order[i];
      LatestAgrees(b, t, n);
    }
  }

  /** If no later round stands, the stack above the `i`-th is empty: what is below it, or the
      round itself if it now stands, is in force. */
  lemma TopMoves(b: Board, t: Board, i: nat)
    requires Orderly(b) && Listed(t) && MovedAt(b, t, i) && !Buried(b, i)
    requires t.source == if Stands(t, b.order[i]) then Some(b.order[i]) else LatestStanding(b, i)
    ensures Orderly(t)
  {
    MovedLatest(b, t, i);
    forall k | i < k < |t.order| ensures !Stands(t, t.order[k]) { assert !Stands(b, b.order[k]); }
    LatestSkips(t, i + 1, |t.order|);
  }

  /** If a later round stands, it is not the one in force any more. */
  lemma BuriedMoves(b: Board, t: Board, i: nat)
    requires Orderly(b) && MovedAt(b, t, i) && Buried(b, i)
    requires t.source == Some(b.order[i]) || t.source == LatestStanding(b, i)
    ensures !InForce(t)
  {
    MovedLatest(b, t, i);
    LatestIs(t, |t.order|);
    LatestIs(b, i);
    var j :| i < j < |b.order| && Stands(b, b.order[j]);
    assert Stands(t, t.order[j]);
  }

  lemma IndexOf(b: Board, round: nat) returns (i: nat)
    requires Listed(b) && Closed(b, round)
    ensures i < |b.order| && b.order[i] == round
    ensures (exists k :: 0 <= k < |b.order| && b.order[k] == round && Buried(b, k)) <==> Buried(b, i)
  {
    assert round in b.order;
    i :| 0 <= i < |b.order| && b.order[i] == round;
    assert forall k :: 0 <= k < |b.order| && b.order[k] == round ==> k == i;
  }

  lemma ContestIff(cfg: Config, b: Board, c: Call)
    requires Orderly(b) && (Contests(b, c) || Rejects(b, c))
    ensures var t := Execute(cfg, b, c); if Overrides(b, c) then !InForce(t) else Orderly(t)
  {
    var t := Execute(cfg, b, c);
    var i := IndexOf(b, c.round);
    ListedStep(cfg, b, c);
    if Contests(b, c) { ContestDoes(cfg, b, c); } else { ResolveDoes(cfg, b, c); }
    assert MovedAt(b, t, i);
    if Buried(b, i) { BuriedMoves(b, t, i); } else { TopMoves(b, t, i); }
  }

  /** While the latest standing round is in force, a call leaves it so exactly when it does not
      dispute, or clear of a dispute, a round after which another closed that still stands. */
  lemma StepIff(cfg: Config, b: Board, c: Call)
    requires Orderly(b)
    ensures var t := Execute(cfg, b, c); (InForce(t) <==> !Overrides(b, c)) && (InForce(t) ==> Orderly(t))
  {
    if Contests(b, c) || Rejects(b, c) {
      ContestIff(cfg, b, c);
    } else if Closes(cfg, b, c) {
      CloseKeeps(cfg, b, c);
    } else {
      ListedStep(cfg, b, c);
      if Upholds(b, c) { ResolveDoes(cfg, b, c); } else { OtherDoes(cfg, b, c); }
      UnmovedKeeps(b, Execute(cfg, b, c));
    }
  }

  // ----- whole runs -----

  ghost function After(cfg: Config, base: nat, calls: seq<Call>, k: nat): (b: Board)
    requires k <= |calls|
  {
    Run(cfg, New(base), calls[..k])
  }

  lemma {:induction false} RunExtend(cfg: Config, b: Board, calls: seq<Call>, k: nat)
    requires k < |calls|
    ensures Run(cfg, b, calls[..k + 1]) == Execute(cfg, Run(cfg, b, calls[..k]), calls[k])
    decreases |calls|
  {
    var rest := calls[1..];
    assert calls[..k + 1][1..] == rest[..k];
    if k > 0 {
      assert calls[..k][1..] == rest[..k - 1];
      RunExtend(cfg, Execute(cfg, b, calls[0]), rest, k - 1);
    }
  }

  ghost predicate InForceThroughout(cfg: Config, base: nat, calls: seq<Call>) {
    forall k: nat :: k <= |calls| ==> InForce(After(cfg, base, calls, k))
  }

  ghost predicate NeverOverridden(cfg: Config, base: nat, calls: seq<Call>) {
    forall k: nat :: k < |calls| ==> !Overrides(After(cfg, base, calls, k), calls[k])
  }

  lemma AfterStep(cfg: Config, base: nat, calls: seq<Call>, k: nat)
    requires k < |calls| && Orderly(After(cfg, base, calls, k))
    ensures var t := After(cfg, base, calls, k + 1);
            (InForce(t) <==> !Overrides(After(cfg, base, calls, k), calls[k])) && (InForce(t) ==> Orderly(t))
  {
    RunExtend(cfg, New(base), calls, k);
    StepIff(cfg, After(cfg, base, calls, k), calls[k]);
  }

  /** In every run the round in force is at all times the latest one standing if and only if no
      call disputes, or clears of a dispute, a round after which another closed that still stands. */
  lemma LatestInForceIff(cfg: Config, base: nat, calls: seq<Call>)
    ensures InForceThroughout(cfg, base, calls) <==> NeverOverridden(cfg, base, calls)
  {
    ghost var good := (k: nat) => k <= |calls| && InForce(After(cfg, base, calls, k));
    ghost var sound := (k: nat) => k <= |calls| && Orderly(After(cfg, base, calls, k));
    ghost var bad := (k: nat) => k < |calls| && Overrides(After(cfg, base, calls, k), calls[k]);
    assert After(cfg, base, calls, 0) == New(base);
    forall k: nat | k < |calls| && sound(k) ensures (good(k + 1) <==> !bad(k)) && (good(k + 1) ==> sound(k + 1)) {
      AfterStep(cfg, base, calls, k);
    }
    Throughout(good, sound, bad, |calls|);
    if InForceThroughout(cfg, base, calls) {
      forall k: nat | k <= |calls| ensures good(k) { }
      forall k: nat | k < |calls| ensures !Overrides(After(cfg, base, calls, k), calls[k]) { assert !bad(k); }
    } else {
      var k: nat :| k <= |calls| && !InForce(After(cfg, base, calls, k));
      assert !good(k);
      var j: nat :| j < |calls| && bad(j);
      assert Overrides(After(cfg, base, calls, j), calls[j]);
    }
  }

  // ----- a run in which it is overridden -----

  /** Evidence of `n` validators, each with a payload of its own. */
  function Evidence(n: nat, score: nat): (subs: seq<Submission>) {
    if n == 0 then [] else Evidence(n - 1, score) + [Submission(n - 1, score, 1, seq(n - 1, _ => 0))]
  }

  function Submitting(round: nat, n: nat, score: nat): (calls: seq<Call>) {
    if n == 0 then []
    else
      var sub := Submission(n - 1, score, 1, seq(n - 1, _ => 0));
      Submitting(round, n - 1, score) + [SubmitEvidence(true, round, sub)]
  }

  lemma {:induction false} EvidenceIs(n: nat, score: nat)
    ensures |Evidence(n, score)| == n
    ensures forall i :: 0 <= i < n ==> Evidence(n, score)[i].validator == i == |Evidence(n, score)[i].payload|
  {
    if n > 0 { EvidenceIs(n - 1, score); }
  }

  lemma {:induction false} RunConcat(cfg: Config, b: Board, calls: seq<Call>, more: seq<Call>)
    ensures Run(cfg, b, calls + more) == Run(cfg, Run(cfg, b, calls), more)
    decreases |calls|
  {
    if calls == [] {
      assert calls + more == more;
    } else {
      assert (calls + more)[1..] == calls[1..] + more;
      RunConcat(cfg, Execute(cfg, b, calls[0]), calls[1..], more);
    }
  }

  lemma RunOne(cfg: Config, b: Board, c: Call)
    ensures Run(cfg, b, [c]) == Execute(cfg, b, c)
  {
    var t := Execute(cfg, b, c);
    assert [c][1..] == [] && Run(cfg, t, []) == t;
  }

  lemma {:induction false} SubmittingFills(cfg: Config, b: Board, round: nat, n: nat, score: nat)
    requires Get(b, round) == OPEN && n <= cfg.maxSubmissions && score <= MAX_SCORE
    ensures var t := Run(cfg, b, Submitting(round, n, score));
            && Get(t, round) == OPEN.(evidence := Evidence(n, score)) && OthersSame(b, t, round)
            && t.order == b.order && t.source == b.source && t.score == b.score
  {
    if n > 0 {
      SubmittingFills(cfg, b, round, n - 1, score);
      EvidenceIs(n - 1, score);
      var c := SubmitEvidence(true, round, Submission(n - 1, score, 1, seq(n - 1, _ => 0)));
      RunConcat(cfg, b, Submitting(round, n - 1, score), [c]);
      RunOne(cfg, Run(cfg, b, Submitting(round, n - 1, score)), c);
    }
  }

  lemma QuorumCloses(cfg: Config, b: Board, round: nat, score: nat)
    requires Get(b, round) == OPEN && cfg.quorum <= cfg.maxSubmissions && score <= MAX_SCORE
    ensures var t := Run(cfg, b, Submitting(round, cfg.quorum, score) + [CloseRound(true, round)]);
            && OthersSame(b, t, round) && Has(t, round, Final) && Get(t, round).beneath == b.source
            && Get(t, round).result.value.previous == cfg.scale.read(b.score)
            && t.order == b.order + [round] && t.source == Some(round)
  {
    var t := Run(cfg, b, Submitting(round, cfg.quorum, score));
    SubmittingFills(cfg, b, round, cfg.quorum, score);
    EvidenceIs(cfg.quorum, score);
    RunConcat(cfg, b, Submitting(round, cfg.quorum, score), [CloseRound(true, round)]);
    RunOne(cfg, t, CloseRound(true, round));
    CloseDoes(cfg, t, CloseRound(true, round));
  }

  /** For every configuration and all scores: rounds 0 and 1 close in turn, then 0 is disputed.
      Round 1 is the latest and undisputed, and the score is the one from before round 0. */
  lemma DisputeOverridesLater(cfg: Config, base: nat, early: nat, late: nat)
    requires cfg.quorum <= cfg.maxSubmissions && early <= MAX_SCORE && late <= MAX_SCORE
    ensures var calls := Submitting(0, cfg.quorum, early) + [CloseRound(true, 0)]
                         + (Submitting(1, cfg.quorum, late) + [CloseRound(true, 1)]) + [DisputeRound(true, 0)];
            var b := Run(cfg, New(base), calls);
            && b.order == [0, 1] && Has(b, 1, Final) && LatestStanding(b, 2) == Some(1)
            && b.source == None && b.score == cfg.scale.store(cfg.scale.read(base)) && !InForce(b)
  {
    var first, second := Submitting(0, cfg.quorum, early) + [CloseRound(true, 0)],
        Submitting(1, cfg.quorum, late) + [CloseRound(true, 1)];
    var s := Run(cfg, New(base), first);
    var t := Run(cfg, s, second);
    QuorumCloses(cfg, New(base), 0, early);
    QuorumCloses(cfg, s, 1, late);
    RunConcat(cfg, New(base), first, second);
    RunConcat(cfg, New(base), first + second, [DisputeRound(true, 0)]);
    RunOne(cfg, t, DisputeRound(true, 0));
    ContestDoes(cfg, t, DisputeRound(true, 0));
  }
}
