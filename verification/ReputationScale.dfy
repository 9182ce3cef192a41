/** The scale on which the reputation pallet keeps the scores that rounds give
    (blockchain/pallets/reputation/src/lib.rs). */
module ReputationScale {
  import opened Base
  import opened Rounds
  import opened Disputes

  /** A score of `max` for 10000 basis points, both ways rounding down. */
  function Reputation(max: nat): (scale: Scale)
    requires max > 0
  {
    Scale(max, bps => bps * max / MAX_SCORE, score => Min(score * MAX_SCORE / max, MAX_SCORE))
  }

  lemma StoreBounded(max: nat, bps: nat)
    requires bps <= MAX_SCORE
    ensures bps * max / MAX_SCORE <= max
  {
    MulMonotone(max, bps, MAX_SCORE);
    DivLess(bps * max, MAX_SCORE, max + 1);
  }

  lemma DivExact(n: nat, d: nat, q: nat)
    requires d > 0 && n == d * q
    ensures n / d == q
  {
    DivAtLeast(n, d, q);
    assert d * (q + 1) == d * q + d;
    DivLess(n, d, q + 1);
  }

  lemma EvenScaleKeeps(max: nat, k: nat, s: nat)
    requires max > 0 && max * k == MAX_SCORE && s <= max
    ensures Reputation(max).store(Reputation(max).read(s)) == s
  {
    assert s * MAX_SCORE == max * (s * k) by { assert s * (max * k) == max * (s * k); }
    DivExact(s * MAX_SCORE, max, s * k);
    MulMonotone(k, s, max);
    assert s * k <= MAX_SCORE;
    assert s * k * max == MAX_SCORE * s by { assert s * k * max == s * (max * k); }
    DivExact(s * k * max, MAX_SCORE, s);
  }

  lemma UnevenScaleLoses(max: nat)
    requires max > 0 && MAX_SCORE % max != 0
    ensures Reputation(max).store(Reputation(max).read(1)) == 0
  {
    var q := MAX_SCORE / max;
    DivisionBounds(MAX_SCORE, max);
    assert q * max < MAX_SCORE by { assert MAX_SCORE == max * q + MAX_SCORE % max; }
    MulMonotone(q, 1, max);
    assert Reputation(max).read(1) == q;
    DivLess(q * max, MAX_SCORE, 1);
  }

  /** Reading a stored score and storing it again is exact for every score exactly when the
      scale divides 10000. */
  lemma ScaleExactIff(max: nat)
    requires max > 0
    ensures Exact(Reputation(max)) <==> MAX_SCORE % max == 0
  {
    var scale := Reputation(max);
    forall bps: nat | bps <= MAX_SCORE ensures scale.store(bps) <= scale.max { StoreBounded(max, bps); }
    if MAX_SCORE % max == 0 {
      var k := MAX_SCORE / max;
      assert max * k == MAX_SCORE;
      forall s: nat | s <= max ensures scale.store(scale.read(s)) == s { EvenScaleKeeps(max, k, s); }
    } else {
      UnevenScaleLoses(max);
    }
  }

  ghost predicate AlwaysInForce(cfg: Config) {
    forall base: nat, calls :: base <= cfg.scale.max ==>
      var b := Run(cfg, New(base), calls); b.score == ScoreFrom(cfg, b, base, b.source)
  }

  /** From a stored score of 1, a round closes and is disputed at once. */
  lemma UnevenScaleDrifts(cfg: Config)
    requires cfg.scale.max >= 1 && cfg.scale.store(cfg.scale.read(1)) == 0 && cfg.quorum <= cfg.maxSubmissions
    ensures !AlwaysInForce(cfg)
  {
    var first, dispute := Submitting(0, cfg.quorum, 0) + [CloseRound(true, 0)], DisputeRound(true, 0);
    var s := Run(cfg, New(1), first);
    QuorumCloses(cfg, New(1), 0, 0);
    RunConcat(cfg, New(1), first, [dispute]);
    RunOne(cfg, s, dispute);
    ContestDoes(cfg, s, dispute);
    var b := Run(cfg, New(1), first + [dispute]);
    assert b.score == 0 && ScoreFrom(cfg, b, 1, b.source) == 1;
  }

  /** On the pallet's scale, the score is that of the round in force in every run, from every
      score it can begin with, exactly when the scale divides 10000. */
  lemma ScoreInForceIff(cfg: Config)
    requires cfg.scale.max > 0 && cfg.scale == Reputation(cfg.scale.max) && cfg.quorum <= cfg.maxSubmissions
    ensures AlwaysInForce(cfg) <==> MAX_SCORE % cfg.scale.max == 0
  {
    ScaleExactIff(cfg.scale.max);
    if MAX_SCORE % cfg.scale.max == 0 {
      forall base: nat, calls | base <= cfg.scale.max
        ensures var b := Run(cfg, New(base), calls); b.score == ScoreFrom(cfg, b, base, b.source)
      {
        ScoreIsInForce(cfg, New(base), base, calls);
      }
    } else {
      UnevenScaleLoses(cfg.scale.max);
      UnevenScaleDrifts(cfg);
    }
  }
}
