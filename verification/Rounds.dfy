/** Scoring rounds on chain: evidence, the trimmed mean that closes a round, and disputes
    (blockchain/pallets/network-validator/src/lib.rs).  Accounts are numbers. */
module Rounds {
  import opened Base
  import opened Bytes
  import opened Sorting

  datatype Submission = Submission(validator: nat, score: nat, samples: nat, payload: seq<Byte>)

  const MAX_SCORE: nat := 10_000

  // ----- the trimmed mean -----

  /** By score, then by validator. */
  predicate Precedes(a: Submission, b: Submission) {
    a.score < b.score || (a.score == b.score && a.validator <= b.validator)
  }

  /** With three or more, all but the lowest and the highest. */
  function Survivors(subs: seq<Submission>): (r: seq<Submission>) {
    var sorted := Sort(Precedes, subs);
    if |sorted| >= 3 then sorted[1..|sorted| - 1] else sorted
  }

  function SaturatingAdd(a: nat, b: nat): (r: nat) {
    if a + b < U32 then a + b else U32 - 1
  }

  function Total(subs: seq<Submission>): (r: nat) {
    if subs == [] then 0 else SaturatingAdd(Total(subs[..|subs| - 1]), subs[|subs| - 1].score)
  }

  function Mean(subs: seq<Submission>): (r: nat)
    requires subs != []
  {
    Min(Quotient(Total(subs), |subs|), MAX_SCORE)
  }

  /** The aggregate of a round. */
  function Aggregate(subs: seq<Submission>): (r: nat) {
    if subs == [] then 0 else Mean(Survivors(subs))
  }

  method Trimmed(subs: seq<Submission>) returns (considered: seq<Submission>, mean: nat)
    ensures mean == Aggregate(subs) && considered == Survivors(subs)
  {
    if subs == [] { return [], 0; }
    var sorted := Sort(Precedes, subs);
    considered := if |sorted| >= 3 then sorted[1..|sorted| - 1] else sorted;
    var total := SumScores(considered);
    QuotientIs(total, |considered|);
    mean := Min(total / |considered|, MAX_SCORE);
  }

  method SumScores(subs: seq<Submission>) returns (total: nat)
    ensures total == Total(subs)
  {
    total := 0;
    for i := 0 to |subs|
      invariant total == Total(subs[..i])
    {
      assert subs[..i + 1][..i] == subs[..i];
      total := SaturatingAdd(total, subs[i].score);
    }
    assert subs[..|subs|] == subs;
  }

  lemma PrecedesIsOrder()
    ensures IsOrder(Precedes)
  {
  }

  ghost predicate OneEach(subs: seq<Submission>) {
    forall i, j :: 0 <= i < j < |subs| ==> subs[i].validator != subs[j].validator
  }

  lemma OneEachHasNoTies(subs: seq<Submission>)
    requires OneEach(subs)
    ensures NoTies(Precedes, multiset(subs))
  {
    forall x: Submission, y: Submission | x in multiset(subs) && y in multiset(subs) && Precedes(x, y)
        && Precedes(y, x) ensures x == y {
      var i :| 0 <= i < |subs| && subs[i] == x;
      var j :| 0 <= j < |subs| && subs[j] == y;
    }
  }

  /** Every node gets the same survivors and the same score, in whatever order evidence came. */
  lemma AggregateOrderIndependent(subs: seq<Submission>, other: seq<Submission>)
    requires OneEach(subs) && multiset(subs) == multiset(other)
    ensures Survivors(subs) == Survivors(other) && Aggregate(subs) == Aggregate(other)
  {
    PrecedesIsOrder();
    SortSorts(Precedes, subs);
    SortSorts(Precedes, other);
    OneEachHasNoTies(subs);
    SortedUnique(Precedes, Sort(Precedes, subs), Sort(Precedes, other));
    assert |multiset(subs)| == |subs| && |multiset(other)| == |other|;
  }

  ghost predicate AllIn(subs: seq<Submission>, lo: nat, hi: nat) {
    forall i :: 0 <= i < |subs| ==> lo <= subs[i].score <= hi
  }

  lemma {:induction false} TotalIn(subs: seq<Submission>, lo: nat, hi: nat)
    requires AllIn(subs, lo, hi) && |subs| * hi < U32
    ensures |subs| * lo <= Total(subs) <= |subs| * hi
    decreases |subs|
  {
    if subs != [] {
      var n := |subs| - 1;
      assert |subs| * hi == n * hi + hi && |subs| * lo == n * lo + lo;
      TotalIn(subs[..n], lo, hi);
    }
  }

  lemma MeanIn(subs: seq<Submission>, lo: nat, hi: nat)
    requires subs != [] && AllIn(subs, lo, hi) && hi <= MAX_SCORE && |subs| * hi < U32
    ensures lo <= Mean(subs) <= hi
  {
    TotalIn(subs, lo, hi);
    DivAtLeast(Total(subs), |subs|, lo);
    assert |subs| * (hi + 1) == |subs| * hi + |subs|;
    DivLess(Total(subs), |subs|, hi + 1);
    QuotientIs(Total(subs), |subs|);
  }

  /** All but submission `i` are between `lo` and `hi`. */
  ghost predicate OthersIn(subs: seq<Submission>, i: nat, lo: nat, hi: nat) {
    forall j :: 0 <= j < |subs| && j != i ==> lo <= subs[j].score <= hi
  }

  lemma PermutedIn(subs: seq<Submission>, s: seq<Submission>, i: nat, lo: nat, hi: nat)
    requires multiset(s) == multiset(subs) && i < |subs| && OthersIn(subs, i, lo, hi)
    ensures forall k :: 0 <= k < |s| ==> s[k] == subs[i] || lo <= s[k].score <= hi
  {
    forall k | 0 <= k < |s| ensures s[k] == subs[i] || lo <= s[k].score <= hi {
      assert s[k] in multiset(subs);
      var j :| 0 <= j < |subs| && subs[j] == s[k];
    }
  }

  lemma MiddleIn(s: seq<Submission>, x: Submission, lo: nat, hi: nat)
    requires Sorted(Precedes, s) && Distinct(s) && |s| >= 3
    requires forall k :: 0 <= k < |s| ==> s[k] == x || lo <= s[k].score <= hi
    ensures AllIn(s[1..|s| - 1], lo, hi)
  {
    forall k | 1 <= k < |s| - 1 ensures lo <= s[k].score <= hi {
      if s[k] == x { assert Precedes(s[0], s[k]) && Precedes(s[k], s[|s| - 1]); }
    }
  }

  lemma SurvivorsIn(subs: seq<Submission>, i: nat, lo: nat, hi: nat)
    requires OneEach(subs) && |subs| >= 3 && i < |subs| && OthersIn(subs, i, lo, hi)
    ensures AllIn(Survivors(subs), lo, hi)
  {
    var s := Sort(Precedes, subs);
    PrecedesIsOrder();
    SortSorts(Precedes, subs);
    PermutedIn(subs, s, i, lo, hi);
    DistinctPermuted(subs, s);
    MiddleIn(s, subs[i], lo, hi);
  }

  /** One outlier is contained: with three or more submissions, whatever one of them says, the
      aggregate stays within what the others say. */
  lemma OutlierIsContained(subs: seq<Submission>, i: nat, lo: nat, hi: nat)
    requires OneEach(subs) && |subs| >= 3 && i < |subs| && OthersIn(subs, i, lo, hi)
    requires hi <= MAX_SCORE && |subs| * MAX_SCORE < U32
    ensures lo <= Aggregate(subs) <= hi
  {
    SurvivorsIn(subs, i, lo, hi);
    MulMonotone(|Survivors(subs)|, hi, MAX_SCORE);
    MulMonotone(MAX_SCORE, |Survivors(subs)|, |subs|);
    MeanIn(Survivors(subs), lo, hi);
  }

  // ----- one provider's rounds in one dimension -----

  datatype RoundStatus = Final | Disputed | DisputeUpheld | DisputeRejected

  datatype Result = Result(score: nat, previous: nat, count: nat, status: RoundStatus)

  /** Evidence collected and the result once closed; as history, what it was closed on and the
      round whose score was in force then. */
  datatype Round = Round(evidence: seq<Submission>, result: Option<Result>, closedOn: seq<Submission>,
      beneath: Option<nat>)

  const OPEN: Round := Round([], None, [], None)

  /** The rounds of one provider and dimension, and its reputation there, on its scale; as history, the
      rounds in the order they closed, and the one whose score is in force. */
  datatype Board = Board(rounds: map<nat, Round>, score: nat, order: seq<nat>, source: Option<nat>)

  /** How the reputation pallet stores basis points on its own scale and reads them back. */
  datatype Scale = Scale(max: nat, store: nat -> nat, read: nat -> nat)

  datatype Config = Config(quorum: nat, maxSubmissions: nat, scale: Scale)

  predicate IsConfig(cfg: Config) {
    3 <= cfg.quorum && cfg.maxSubmissions * MAX_SCORE < U32
  }

  function Get(b: Board, round: nat): (r: Round) {
    if round in b.rounds then b.rounds[round] else OPEN
  }

  /** `entitled` is each call's origin, activity, assignment or window check, taken together. */
  datatype Call =
    | SubmitEvidence(entitled: bool, round: nat, sub: Submission)
    | CloseRound(entitled: bool, round: nat)
    | DisputeRound(entitled: bool, round: nat)
    | ResolveDispute(entitled: bool, round: nat, uphold: bool)

  predicate Fresh(subs: seq<Submission>, sub: Submission) {
    forall i :: 0 <= i < |subs| ==> subs[i].validator != sub.validator && subs[i].payload != sub.payload
  }

  predicate Admits(cfg: Config, r: Round, sub: Submission) {
    && sub.score <= MAX_SCORE && sub.samples > 0 && r.result.None?
    && Fresh(r.evidence, sub) && |r.evidence| < cfg.maxSubmissions
  }

  function Put(b: Board, round: nat, r: Round): (b': Board) {
    b.(rounds := b.rounds[round := r])
  }

  function Execute(cfg: Config, b: Board, c: Call): (b': Board) {
    var r := Get(b, c.round);
    if !c.entitled then b
    else match c
      case SubmitEvidence(_, round, sub) => if Admits(cfg, r, sub) then
          Put(b, round, r.(evidence := r.evidence + [sub])) else b
      case CloseRound(_, round) =>
        if r.result.Some? || |r.evidence| < cfg.quorum then b
        else
          var score := Aggregate(r.evidence);
          var result := Result(score, cfg.scale.read(b.score), |r.evidence|, Final);
          Put(b, round, Round([], Some(result), r.evidence, b.source))
            .(score := cfg.scale.store(score), order := b.order + [round], source := Some(round))
      case DisputeRound(_, round) =>
        if r.result.None? || r.result.value.status != Final then b
        else Put(b, round, r.(result := Some(r.result.value.(status := Disputed))))
               .(score := cfg.scale.store(r.result.value.previous), source := r.beneath)
      case ResolveDispute(_, round, uphold) =>
        if r.result.None? || r.result.value.status != Disputed then b
        else if uphold then Put(b, round, r.(result := Some(r.result.value.(status := DisputeUpheld))))
        else Put(b, round, r.(result := Some(r.result.value.(status := DisputeRejected))))
               .(score := cfg.scale.store(r.result.value.score), source := Some(round))
  }

  function Run(cfg: Config, b: Board, calls: seq<Call>): (b': Board)
    decreases |calls|
  {
    if calls == [] then b else Run(cfg, Execute(cfg, b, calls[0]), calls[1..])
  }

  /** Independent, bounded evidence. */
  ghost predicate Independent(cfg: Config, subs: seq<Submission>) {
    && OneEach(subs) && |subs| <= cfg.maxSubmissions
    && (forall i :: 0 <= i < |subs| ==> subs[i].score <= MAX_SCORE && subs[i].samples > 0)
    && (forall i, j :: 0 <= i < j < |subs| ==> subs[i].payload != subs[j].payload)
  }

  /** A closed round has a quorum of independent evidence behind it, its score is their
      aggregate, and no evidence is kept or taken any more. */
  ghost predicate SoundRound(cfg: Config, r: Round) {
    && Independent(cfg, r.evidence) && Independent(cfg, r.closedOn)
    && (r.result.None? ==> r.closedOn == [])
    && (r.result.Some? ==>
        r.evidence == [] && |r.closedOn| == r.result.value.count >= cfg.quorum
        && r.result.value.score == Aggregate(r.closedOn))
  }

  ghost predicate Sound(cfg: Config, b: Board) {
    forall round :: round in b.rounds ==> SoundRound(cfg, b.rounds[round])
  }

  lemma PutKeeps(cfg: Config, b: Board, round: nat, r: Round)
    requires Sound(cfg, b) && SoundRound(cfg, r)
    ensures Sound(cfg, Put(b, round, r))
  {
  }

  lemma AdmitKeeps(cfg: Config, r: Round, sub: Submission)
    requires SoundRound(cfg, r) && Admits(cfg, r, sub)
    ensures SoundRound(cfg, r.(evidence := r.evidence + [sub]))
  {
  }

  lemma ExecuteKeeps(cfg: Config, b: Board, c: Call)
    requires Sound(cfg, b)
    ensures Sound(cfg, Execute(cfg, b, c))
  {
    var r := Get(b, c.round);
    assert SoundRound(cfg, r);
    if c.SubmitEvidence? && Admits(cfg, r, c.sub) { AdmitKeeps(cfg, r, c.sub); }
    var t := Execute(cfg, b, c);
    assert SoundRound(cfg, Get(t, c.round));
    PutKeeps(cfg, b, c.round, Get(t, c.round));
  }

  /** A closed round is closed for good: only its status moves on. */
  lemma ClosedOnce(cfg: Config, b: Board, c: Call, round: nat)
    requires Get(b, round).result.Some?
    ensures var r, r' := Get(b, round), Get(Execute(cfg, b, c), round);
            r'.result.Some? && r'.result.value.(status := r.result.value.status) == r.result.value
                && r'.closedOn == r.closedOn
  {
  }

  lemma {:induction false} RunKeeps(cfg: Config, b: Board, calls: seq<Call>)
    requires Sound(cfg, b)
    ensures Sound(cfg, Run(cfg, b, calls))
    decreases |calls|
  {
    if calls != [] {
      ExecuteKeeps(cfg, b, calls[0]);
      RunKeeps(cfg, Execute(cfg, b, calls[0]), calls[1..]);
    }
  }

  /** In every run, no one validator decides a closed round: its score is within what the others
      on it submitted. */
  lemma NoOneDecides(cfg: Config, b: Board, calls: seq<Call>, round: nat, i: nat, lo: nat, hi: nat, r: Round)
    requires IsConfig(cfg) && Sound(cfg, b) && r == Get(Run(cfg, b, calls), round) && r.result.Some?
    requires i < |r.closedOn| && OthersIn(r.closedOn, i, lo, hi) && hi <= MAX_SCORE
    ensures lo <= r.result.value.score <= hi
  {
    RunKeeps(cfg, b, calls);
    assert SoundRound(cfg, r);
    MulMonotone(MAX_SCORE, |r.closedOn|, cfg.maxSubmissions);
    OutlierIsContained(r.closedOn, i, lo, hi);
  }
}
