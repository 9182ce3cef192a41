/** Scoring one provider for one workload (control-plane/internal/scheduler/rank.go), with
    Go's int64 and uint32 arithmetic written out.  CPU is in millicores and the minimum
    reputation in whole points: the float conversions in front of them are not modelled. */
module Scheduler {
  import opened Base
  import opened Bytes

  type Id = seq<Byte>

  datatype Vector = Vector(compute: nat, storage: nat, network: nat, availability: nat, reliability: nat)

  datatype Weights = Weights(resource: nat, reputation: nat,
                             compute: nat, storage: nat, network: nat, availability: nat, reliability: nat)

  datatype Profile = Unspecified | ComputeIntensive | MemoryIntensive | StorageIntensive | LatencySensitive

  const DEFAULT_WEIGHTS: map<Profile, Weights> := map[
    ComputeIntensive := Weights(6000, 4000, 5000, 500, 500, 3000, 1000),
    MemoryIntensive := Weights(6000, 4000, 2000, 1000, 500, 3500, 3000),
    StorageIntensive := Weights(6000, 4000, 500, 5000, 500, 3000, 1000),
    LatencySensitive := Weights(5000, 5000, 1000, 500, 5000, 2500, 1000)]

  const FALLBACK_WEIGHTS: Weights := Weights(5000, 5000, 2000, 2000, 2000, 2500, 1500)

  datatype Bandwidth = Bandwidth(ingress: int, egress: int)

  datatype Requirements = Requirements(cpu: int, ram: int, storage: int, bandwidth: Option<Bandwidth>)

  datatype Constraints = Constraints(zone: Id, vm: bool, minReputation: nat)

  datatype Candidate = Candidate(id: Id, endpoint: Id, cpu: int, ram: int, storage: int, ingress: int, egress: int,
                                 reputation: Option<Vector>, zone: Id, vm: bool)

  datatype Ranker = Ranker(weights: map<Profile, Weights>, maxScore: nat, defaultScore: nat, overlay: bool)

  datatype Score = Score(id: Id, total: nat, fit: nat, reputation: nat)

  datatype Reason = NoEndpoint | NoRequirements | Cpu | Ram | Storage | Ingress | Egress | ZoneMismatch | VmIncapable
      | LowReputation

  datatype Verdict = Scored(score: Score) | Excluded(reason: Reason)

  // ----- arithmetic -----

  /** Integer division truncating toward zero. */
  function Quotient(a: int, b: int): (q: int)
    requires b > 0
  {
    if a >= 0 then a / b else 0 - (0 - a) / b
  }

  function ToUint32(x: int): (r: nat) {
    if 0 <= x < U32 then x else x % U32
  }

  function FitBps(available: int, required: int): (r: Option<nat>) {
    if required <= 0 then Some(10_000)
    else if available < required then None
    else Some(RatioBps(Wrap64(available * 10_000), required))
  }

  function RatioBps(product: int, required: int): (r: nat)
    requires required > 0
  {
    var ratio := Quotient(product, required);
    if ratio > 10_000 then 10_000 else ToUint32(ratio)
  }

  /** The share of an interface's bandwidth left after WireGuard's 60 of every 1500 bytes. */
  function EffectiveMbps(total: int): (r: int) {
    if total <= 0 then total else Quotient(Wrap64(total * 1440), 1500)
  }

  function WeightedBps(w: Weights, v: Vector, maxScore: nat): (r: nat) {
    if maxScore == 0 then 0
    else
      var sum := w.compute * v.compute + w.storage * v.storage + w.network * v.network
               + w.availability * v.availability + w.reliability * v.reliability;
      Truncate(Truncate(sum, U64) / maxScore, U32)
  }

  function GlobalBps(v: Vector, maxScore: nat): (r: nat) {
    if maxScore == 0 then 0
    else
      var average := (v.compute + v.storage + v.network + v.availability + v.reliability) / 5;
      Truncate(Truncate(average * 10_000, U64) / maxScore, U32)
  }

  // ----- one candidate -----

  predicate AsksBandwidth(req: Requirements) {
    req.bandwidth.Some? && (req.bandwidth.value.ingress > 0 || req.bandwidth.value.egress > 0)
  }

  function Usable(overlay: bool, total: int): (r: int) {
    if overlay then EffectiveMbps(total) else total
  }

  datatype Fit = Fits(bps: nat) | Lacks(reason: Reason)

  function ResourceFit(overlay: bool, req: Requirements, c: Candidate): (r: Fit) {
    var cpu, ram, storage := FitBps(c.cpu, req.cpu), FitBps(c.ram, req.ram), FitBps(c.storage, req.storage);
    if cpu.None? then Lacks(Cpu)
    else if ram.None? then Lacks(Ram)
    else if storage.None? then Lacks(Storage)
    else if !AsksBandwidth(req) then Fits(Truncate(cpu.value + ram.value + storage.value, U32) / 3)
    else
      var ingress := FitBps(Usable(overlay, c.ingress), req.bandwidth.value.ingress);
      var egress := FitBps(Usable(overlay, c.egress), req.bandwidth.value.egress);
      if ingress.None? then Lacks(Ingress)
      else if egress.None? then Lacks(Egress)
      else
        var bandwidth := Truncate(ingress.value + egress.value, U32) / 2;
        Fits(Truncate(cpu.value + ram.value + storage.value + bandwidth, U32) / 4)
  }

  /** A provider without a record counts as average, not as bad. */
  function VectorOf(r: Ranker, c: Candidate): (v: Vector) {
    match c.reputation
    case Some(v) => v
    case None => Vector(r.defaultScore, r.defaultScore, r.defaultScore, r.defaultScore, r.defaultScore)
  }

  predicate BelowMinimum(r: Ranker, minimum: nat, v: Vector)
    requires r.maxScore > 0
  {
    GlobalBps(v, r.maxScore) < Truncate(Truncate(minimum, U32) * 10_000, U32) / r.maxScore
  }

  /** The constraint in the way, if any. */
  function Barred(r: Ranker, k: Constraints, c: Candidate): (reason: Option<Reason>)
    requires Divides(r, Some(k))
  {
    if k.zone != [] && c.zone != k.zone then Some(ZoneMismatch)
    else if k.vm && !c.vm then Some(VmIncapable)
    else if k.minReputation > 0 && BelowMinimum(r, k.minReputation, VectorOf(r, c)) then Some(LowReputation)
    else None
  }

  /** A minimum reputation is divided by the scale's maximum, which must then not be zero. */
  predicate Divides(r: Ranker, cons: Option<Constraints>) {
    cons.Some? && cons.value.minReputation > 0 ==> r.maxScore > 0
  }

  function TotalBps(w: Weights, fit: nat, reputation: nat): (r: nat) {
    Truncate(Truncate(fit * w.resource, U32) + Truncate(reputation * w.reputation, U32), U32) / 10_000
  }

  function ScoreOne(r: Ranker, w: Weights, req: Option<Requirements>, cons: Option<Constraints>, c: Candidate):
    (v: Verdict)
    requires Divides(r, cons)
  {
    if c.endpoint == [] then Excluded(NoEndpoint)
    else if req.None? then Excluded(NoRequirements)
    else
      var fit := ResourceFit(r.overlay, req.value, c);
      if fit.Lacks? then Excluded(fit.reason)
      else
        var reputation := WeightedBps(w, VectorOf(r, c), r.maxScore);
        var barred := if cons.Some? then Barred(r, cons.value, c) else None;
        if barred.Some? then Excluded(barred.value)
        else Scored(Score(c.id, TotalBps(w, fit.bps, reputation), fit.bps, reputation))
  }

  function WeightsFor(r: Ranker, profile: Profile): (w: Weights) {
    if profile in r.weights then r.weights[profile] else FALLBACK_WEIGHTS
  }

  // ----- what a score means -----

  predicate Covers(available: int, required: int) {
    required <= 0 || available >= required
  }

  /** The provider can run the workload, said without any scoring. */
  predicate Eligible(r: Ranker, req: Option<Requirements>, cons: Option<Constraints>, c: Candidate)
    requires Divides(r, cons)
  {
    && c.endpoint != [] && req.Some?
    && Covers(c.cpu, req.value.cpu) && Covers(c.ram, req.value.ram) && Covers(c.storage, req.value.storage)
    && (req.value.bandwidth.Some? ==>
          && Covers(Usable(r.overlay, c.ingress), req.value.bandwidth.value.ingress)
          && Covers(Usable(r.overlay, c.egress), req.value.bandwidth.value.egress))
    && (cons.Some? ==>
          && (cons.value.zone == [] || c.zone == cons.value.zone)
          && (cons.value.vm ==> c.vm)
          && (cons.value.minReputation > 0 ==> Reaches(r.maxScore, cons.value.minReputation, VectorOf(r, c))))
  }

  function Points(v: Vector): (sum: nat) {
    v.compute + v.storage + v.network + v.availability + v.reliability
  }

  /** The average of the five dimensions reaches the minimum, both in basis points of the scale as
      a uint32 holds them. */
  predicate Reaches(maxScore: nat, minimum: nat, v: Vector)
    requires maxScore > 0
  {
    Share(Points(v) / 5, maxScore) >= Threshold(minimum, maxScore)
  }

  /** Basis points of the scale, through uint64 and uint32. */
  function Share(average: nat, maxScore: nat): (bps: nat)
    requires maxScore > 0
  {
    Truncate(Truncate(average * 10_000, U64) / maxScore, U32)
  }

  /** The same of a minimum, in uint32 throughout. */
  function Threshold(minimum: nat, maxScore: nat): (bps: nat)
    requires maxScore > 0
  {
    Truncate(Truncate(minimum, U32) * 10_000, U32) / maxScore
  }

  /** The product the fit of one resource takes stays within int64. */
  predicate Small(available: int, required: int) {
    required > 0 ==> available * 10_000 < INT64_LIMIT
  }

  predicate NoOverflow(req: Requirements, c: Candidate) {
    && Small(c.cpu, req.cpu) && Small(c.ram, req.ram) && Small(c.storage, req.storage)
    && (req.bandwidth.Some? ==>
        Small(c.ingress, req.bandwidth.value.ingress) && Small(c.egress, req.bandwidth.value.egress))
  }

  predicate Scale(w: Weights) {
    && w.resource + w.reputation == 10_000
    && w.compute + w.storage + w.network + w.availability + w.reliability == 10_000
  }

  predicate InScale(v: Vector, maxScore: nat) {
    v.compute <= maxScore && v.storage <= maxScore && v.network <= maxScore && v.availability <= maxScore
        && v.reliability <= maxScore
  }

  lemma DefaultsInScale(profile: Profile)
    ensures profile in DEFAULT_WEIGHTS ==> Scale(DEFAULT_WEIGHTS[profile])
    ensures Scale(FALLBACK_WEIGHTS)
  {
  }

  /** Each profile puts its own dimension first; memory asks for uptime above all, and without
      a profile the three capacities weigh the same. */
  lemma ProfilesFavour()
    ensures var w := DEFAULT_WEIGHTS;
            && w.Keys == {ComputeIntensive, MemoryIntensive, StorageIntensive, LatencySensitive}
            && (forall p :: p in w && p != LatencySensitive ==> w[p].resource == 6000)
            && w[LatencySensitive].resource == 5000
            && w[ComputeIntensive].compute == w[StorageIntensive].storage == w[LatencySensitive].network == 5000
            && w[MemoryIntensive].availability == 3500 && w[MemoryIntensive].reliability == 3000
    ensures var f := FALLBACK_WEIGHTS;
            f.resource == 5000 && f.compute == f.storage == f.network == 2000 && f.availability == 2500
  {
  }

  lemma FitsIff(overlay: bool, req: Requirements, c: Candidate)
    ensures ResourceFit(overlay, req, c).Fits? <==>
              && Covers(c.cpu, req.cpu) && Covers(c.ram, req.ram) && Covers(c.storage, req.storage)
              && (req.bandwidth.Some? ==>
                    && Covers(Usable(overlay, c.ingress), req.bandwidth.value.ingress)
                    && Covers(Usable(overlay, c.egress), req.bandwidth.value.egress))
  {
  }

  /** A provider is scored exactly when it is eligible: no arithmetic can change that. */
  lemma ScoredIffEligible(r: Ranker, w: Weights, req: Option<Requirements>, cons: Option<Constraints>, c: Candidate)
    requires Divides(r, cons)
    ensures ScoreOne(r, w, req, cons, c).Scored? <==> Eligible(r, req, cons, c)
  {
    if req.Some? { FitsIff(r.overlay, req.value, c); }
  }

  /** Why a candidate is left out: the first thing that is missing, in this order. */
  lemma ReasonIs(r: Ranker, w: Weights, req: Option<Requirements>, cons: Option<Constraints>, c: Candidate)
    requires Divides(r, cons)
    ensures var v := ScoreOne(r, w, req, cons, c);
            v.Excluded? ==>
              match v.reason
              case NoEndpoint => c.endpoint == []
              case NoRequirements => c.endpoint != [] && req.None?
              case Cpu => req.Some? && !Covers(c.cpu, req.value.cpu)
              case Ram => req.Some? && Covers(c.cpu, req.value.cpu) && !Covers(c.ram, req.value.ram)
              case Storage =>
                && req.Some? && Covers(c.cpu, req.value.cpu) && Covers(c.ram, req.value.ram)
                && !Covers(c.storage, req.value.storage)
              case Ingress =>
                && Supplies(req, c) && req.value.bandwidth.Some?
                && !Covers(Usable(r.overlay, c.ingress), req.value.bandwidth.value.ingress)
              case Egress =>
                && Supplies(req, c) && req.value.bandwidth.Some?
                && Covers(Usable(r.overlay, c.ingress), req.value.bandwidth.value.ingress)
                && !Covers(Usable(r.overlay, c.egress), req.value.bandwidth.value.egress)
              case ZoneMismatch => Supplies(req, c) && cons.Some? && cons.value.zone != [] && c.zone != cons.value.zone
              case VmIncapable =>
                && Supplies(req, c) && cons.Some? && (cons.value.zone == [] || c.zone == cons.value.zone)
                && cons.value.vm && !c.vm
              case LowReputation =>
                && Supplies(req, c) && cons.Some? && (cons.value.zone == [] || c.zone == cons.value.zone)
                && (cons.value.vm ==> c.vm) && cons.value.minReputation > 0
                && !Reaches(r.maxScore, cons.value.minReputation, VectorOf(r, c))
  {
    if req.Some? { LackIs(r.overlay, req.value, c); }
  }

  lemma LackIs(overlay: bool, req: Requirements, c: Candidate)
    ensures var fit := ResourceFit(overlay, req, c);
            if fit.Fits? then Supplies(Some(req), c)
            else match fit.reason
              case Cpu => !Covers(c.cpu, req.cpu)
              case Ram => Covers(c.cpu, req.cpu) && !Covers(c.ram, req.ram)
              case Storage => Covers(c.cpu, req.cpu) && Covers(c.ram, req.ram) && !Covers(c.storage, req.storage)
              case Ingress =>
                && Supplies(Some(req), c) && req.bandwidth.Some?
                && !Covers(Usable(overlay, c.ingress), req.bandwidth.value.ingress)
              case Egress =>
                && Supplies(Some(req), c) && req.bandwidth.Some?
                && Covers(Usable(overlay, c.ingress), req.bandwidth.value.ingress)
                && !Covers(Usable(overlay, c.egress), req.bandwidth.value.egress)
              case _ => false
  {
  }

  /** It has the processor, the memory and the storage. */
  predicate Supplies(req: Option<Requirements>, c: Candidate) {
    && req.Some?
    && Covers(c.cpu, req.value.cpu) && Covers(c.ram, req.value.ram) && Covers(c.storage, req.value.storage)
  }

  // ----- the minimum reputation -----

  lemma QuotientGap(a: nat, b: nat, d: nat)
    requires d > 0 && a + d <= b
    ensures a / d < b / d
  {
    DivisionBounds(a, d);
    assert d * (a / d + 1) == d * (a / d) + d;
    DivAtLeast(b, d, a / d + 1);
  }

  lemma ShareExact(average: nat, maxScore: nat)
    requires average <= maxScore && 0 < maxScore < U32
    ensures Share(average, maxScore) == average * 10_000 / maxScore <= 10_000
  {
    DivLess(average * 10_000, maxScore, 10_001);
  }

  lemma ShareMonotone(a: nat, b: nat, maxScore: nat)
    requires a <= b <= maxScore && 0 < maxScore < U32
    ensures Share(a, maxScore) <= Share(b, maxScore)
  {
    ShareExact(a, maxScore);
    ShareExact(b, maxScore);
    DivMonotone(a * 10_000, b * 10_000, maxScore);
  }

  lemma AverageInScale(v: Vector, maxScore: nat)
    requires InScale(v, maxScore)
    ensures Points(v) / 5 <= maxScore
  {
  }

  lemma ScaledOrder(maxScore: nat, a: nat, b: nat)
    requires 0 < maxScore <= 10_000
    ensures a * 10_000 / maxScore >= b * 10_000 / maxScore <==> a >= b
  {
    if a >= b { DivMonotone(b * 10_000, a * 10_000, maxScore); }
    else { QuotientGap(a * 10_000, b * 10_000, maxScore); }
  }

  /** Below the wrap, and on a scale no finer than basis points, a record in scale reaches a minimum
      exactly when its five dimensions add up to five times as much. */
  lemma ReachesIs(maxScore: nat, minimum: nat, v: Vector)
    requires 0 < maxScore <= 10_000 && InScale(v, maxScore) && minimum * 10_000 < U32
    ensures Reaches(maxScore, minimum, v) <==> Points(v) >= 5 * minimum
  {
    AverageInScale(v, maxScore);
    ShareReaches(maxScore, minimum, Points(v) / 5);
  }

  lemma ShareReaches(maxScore: nat, minimum: nat, average: nat)
    requires 0 < maxScore <= 10_000 && average <= maxScore && minimum * 10_000 < U32
    ensures Share(average, maxScore) >= Threshold(minimum, maxScore) <==> average >= minimum
  {
    ShareExact(average, maxScore);
    ScaledOrder(maxScore, average, minimum);
  }

  /** The most a record in scale comes to. */
  lemma ReachesAtMost(maxScore: nat, minimum: nat, v: Vector)
    requires 0 < maxScore <= 10_000 && InScale(v, maxScore) && Threshold(minimum, maxScore) > 10_000
    ensures !Reaches(maxScore, minimum, v)
  {
    AverageInScale(v, maxScore);
    ShareExact(Points(v) / 5, maxScore);
  }

  lemma TopReaches(maxScore: nat, minimum: nat)
    requires 0 < maxScore <= 10_000 && Threshold(minimum, maxScore) <= 10_000
    ensures Reaches(maxScore, minimum, Vector(maxScore, maxScore, maxScore, maxScore, maxScore))
  {
    assert Points(Vector(maxScore, maxScore, maxScore, maxScore, maxScore)) / 5 == maxScore;
    ShareExact(maxScore, maxScore);
    DivAtLeast(maxScore * 10_000, maxScore, 10_000);
  }

  /** A minimum is honoured for every record in scale exactly when it does not wrap, or wraps to
      more than the scale holds. */
  lemma MinimumHonouredIff(maxScore: nat, minimum: nat)
    requires 0 < maxScore <= 10_000 && 0 < minimum < U32
    ensures (forall v :: InScale(v, maxScore) ==> (Reaches(maxScore, minimum, v) <==> Points(v) >= 5 * minimum)) <==>
              minimum * 10_000 < U32 || minimum * 10_000 % U32 / maxScore > 10_000
  {
    if minimum * 10_000 < U32 {
      forall v | InScale(v, maxScore) ensures Reaches(maxScore, minimum, v) <==> Points(v) >= 5 * minimum {
        ReachesIs(maxScore, minimum, v);
      }
    } else if minimum * 10_000 % U32 / maxScore > 10_000 {
      forall v | InScale(v, maxScore) ensures Reaches(maxScore, minimum, v) <==> Points(v) >= 5 * minimum {
        ReachesAtMost(maxScore, minimum, v);
      }
    } else {
      var top := Vector(maxScore, maxScore, maxScore, maxScore, maxScore);
      TopReaches(maxScore, minimum);
      assert InScale(top, maxScore) && Points(top) < 5 * minimum;
    }
  }

  /** On the chain's scale of 1000, a minimum of 429497 is one that every perfect record reaches. */
  lemma HugeMinimumReached()
    ensures Reaches(1000, 429_497, Vector(1000, 1000, 1000, 1000, 1000))
  {
    TopReaches(1000, 429_497);
  }

  // ----- resources -----

  /** The overlay leaves 24 parts in 25 of the bandwidth, rounded down. */
  lemma EffectiveIs(total: nat)
    requires total * 1440 < INT64_LIMIT
    ensures 25 * EffectiveMbps(total) <= 24 * total < 25 * EffectiveMbps(total) + 25
  {
    assert total > 0 ==> EffectiveMbps(total) == total * 1440 / 1500;
  }

  lemma QuotientAtLeast(a: int, b: int, n: nat)
    requires b > 0
    requires n > 0
    ensures Quotient(a, b) >= n <==> a >= b * n
  {
    MulMonotone(b, 1, n);
    if a >= b * n { DivAtLeast(a, b, n); }
    else if a >= 0 { DivLess(a, b, n); }
  }

  /** Where the product stays in range, what fits fits fully. */
  lemma FitIsFull(available: int, required: int)
    requires Covers(available, required) && Small(available, required)
    ensures FitBps(available, required) == Some(10_000)
  {
    if required > 0 { QuotientAtLeast(available * 10_000, required, 10_000); }
  }

  /** The fit of what is covered is 10000 exactly when the wrapped product is still large
      enough, or is so negative that its quotient is 10000 below a multiple of 2^32. */
  lemma FitIsFullIff(available: int, required: int)
    requires required > 0 && available >= required
    ensures var product := Wrap64(available * 10_000);
            FitBps(available, required) == Some(10_000) <==>
              product >= 10_000 * required || (product < 0 && (0 - product) / required % U32 == U32 - 10_000)
  {
    var product := Wrap64(available * 10_000);
    if product < 0 { NegativeRatio(product, required); } else { NaturalRatio(product, required); }
  }

  lemma SmallQuotient(n: nat, d: nat)
    requires d > 0 && n < d * 10_001
    ensures n / d % U32 != U32 - 10_000
  {
    DivLess(n, d, 10_001);
  }

  lemma WrappedNotFull(available: int)
    requires 0 < available < INT64_LIMIT <= available * 10_000
    ensures FitBps(available, available) != Some(10_000)
  {
    var product := Wrap64(available * 10_000);
    FitIsFullIff(available, available);
    assert product < available * 10_000;
    if product < 0 { SmallQuotient(0 - product, available); }
  }

  /** Whatever the available amount covers fits fully exactly when its product stays in int64. */
  lemma AlwaysFullIff(available: int)
    requires 0 < available < INT64_LIMIT
    ensures (forall required :: 0 < required <= available ==> FitBps(available, required) == Some(10_000)) <==>
              available * 10_000 < INT64_LIMIT
  {
    if available * 10_000 < INT64_LIMIT {
      forall required | 0 < required <= available ensures FitBps(available, required) == Some(10_000) {
        FitIsFull(available, required);
      }
    } else {
      WrappedNotFull(available);
    }
  }

  lemma NaturalRatio(product: nat, required: int)
    requires required > 0
    ensures RatioBps(product, required) == 10_000 <==> product >= 10_000 * required
  {
    QuotientAtLeast(product, required, 10_000);
  }

  lemma NegativeRatio(product: int, required: int)
    requires product < 0 && required > 0
    ensures RatioBps(product, required) == 10_000 <==> (0 - product) / required % U32 == U32 - 10_000
  {
    var q: nat := (0 - product) / required;
    assert RatioBps(product, required) == ToUint32(0 - q);
    NegativeRemainder(q);
  }

  lemma NegativeRemainder(q: nat)
    ensures ToUint32(0 - q) == 10_000 <==> q % U32 == U32 - 10_000
  {
  }

  /** A provider with 10^15 megabytes for a request of 10^15 gets 2^32 - 8446 instead of 10000:
      the product, 10^19, wraps to a negative one. */
  lemma HugeCapacityMisscored()
    ensures FitBps(1_000_000_000_000_000, 1_000_000_000_000_000) == Some(U32 - 8_446)
  {
    var product := Wrap64(10_000_000_000_000_000_000);
    assert product == 10_000_000_000_000_000_000 - 18_446_744_073_709_551_616;
    assert (0 - product) / 1_000_000_000_000_000 == 8_446;
  }

  lemma EffectiveBelow(total: int)
    ensures EffectiveMbps(total) <= total
  {
  }

  lemma UsableFits(overlay: bool, total: int, required: int)
    requires Covers(Usable(overlay, total), required) && Small(total, required)
    ensures FitBps(Usable(overlay, total), required) == Some(10_000)
  {
    EffectiveBelow(total);
    FitIsFull(Usable(overlay, total), required);
  }

  lemma ResourceFitIsFull(overlay: bool, req: Requirements, c: Candidate)
    requires NoOverflow(req, c) && ResourceFit(overlay, req, c).Fits?
    ensures ResourceFit(overlay, req, c) == Fits(10_000)
  {
    FitsIff(overlay, req, c);
    FitIsFull(c.cpu, req.cpu);
    FitIsFull(c.ram, req.ram);
    FitIsFull(c.storage, req.storage);
    if AsksBandwidth(req) {
      UsableFits(overlay, c.ingress, req.bandwidth.value.ingress);
      UsableFits(overlay, c.egress, req.bandwidth.value.egress);
    }
  }

  function ReputationSum(w: Weights, v: Vector): (r: nat) {
    w.compute * v.compute + w.storage * v.storage + w.network * v.network + w.availability * v.availability +
        w.reliability * v.reliability
  }

  lemma SumInScale(w: Weights, v: Vector, maxScore: nat)
    requires Scale(w) && InScale(v, maxScore)
    ensures ReputationSum(w, v) <= 10_000 * maxScore
  {
    MulMonotone(w.compute, v.compute, maxScore);
    MulMonotone(w.storage, v.storage, maxScore);
    MulMonotone(w.network, v.network, maxScore);
    MulMonotone(w.availability, v.availability, maxScore);
    MulMonotone(w.reliability, v.reliability, maxScore);
    assert w.compute * maxScore + w.storage * maxScore + w.network * maxScore + w.availability * maxScore +
        w.reliability * maxScore
        == (w.compute + w.storage + w.network + w.availability + w.reliability) * maxScore;
  }

  function ExactReputation(r: Ranker, w: Weights, c: Candidate): (bps: nat)
    requires r.maxScore > 0
  {
    ReputationSum(w, VectorOf(r, c)) / r.maxScore
  }

  function ExactTotal(w: Weights, bps: nat): (total: nat) {
    w.resource + bps * w.reputation / 10_000
  }

  /** In scale, the weighted reputation is the exact quotient, at most 10000. */
  lemma WeightedExact(w: Weights, v: Vector, maxScore: nat)
    requires Scale(w) && InScale(v, maxScore) && 0 < maxScore < U32
    ensures WeightedBps(w, v, maxScore) == ReputationSum(w, v) / maxScore <= 10_000
  {
    SumInScale(w, v, maxScore);
    DivLess(ReputationSum(w, v), maxScore, 10_001);
  }

  /** In scale and absent overflow, a score is exact: full fit, the weighted reputation, and a
      total of the resource weight plus the reputation's share, none of them above 10000. */
  lemma ScoreIsExact(r: Ranker, w: Weights, req: Option<Requirements>, cons: Option<Constraints>, c: Candidate)
    requires Divides(r, cons) && Eligible(r, req, cons, c) && NoOverflow(req.value, c)
    requires Scale(w) && 0 < r.maxScore < U32 && InScale(VectorOf(r, c), r.maxScore)
    ensures var bps := ExactReputation(r, w, c);
            && ScoreOne(r, w, req, cons, c) == Scored(Score(c.id, ExactTotal(w, bps), 10_000, bps))
            && bps <= 10_000 && ExactTotal(w, bps) <= 10_000
  {
    ScoredIffEligible(r, w, req, cons, c);
    ScoredIs(r, w, req, cons, c);
    FitsIff(r.overlay, req.value, c);
    ResourceFitIsFull(r.overlay, req.value, c);
    WeightedExact(w, VectorOf(r, c), r.maxScore);
    TotalExact(w, WeightedBps(w, VectorOf(r, c), r.maxScore));
  }

  lemma ScoredIs(r: Ranker, w: Weights, req: Option<Requirements>, cons: Option<Constraints>, c: Candidate)
    requires Divides(r, cons) && ScoreOne(r, w, req, cons, c).Scored?
    ensures req.Some? && ResourceFit(r.overlay, req.value, c).Fits?
    ensures var fit, bps := ResourceFit(r.overlay, req.value, c).bps, WeightedBps(w, VectorOf(r, c), r.maxScore);
            ScoreOne(r, w, req, cons, c) == Scored(Score(c.id, TotalBps(w, fit, bps), fit, bps))
  {
  }

  lemma TotalExact(w: Weights, bps: nat)
    requires Scale(w) && bps <= 10_000
    ensures TotalBps(w, 10_000, bps) == ExactTotal(w, bps) <= 10_000
  {
    MulMonotone(w.reputation, bps, 10_000);
  }

  predicate Raised(v: Vector, v': Vector) {
    && v.compute <= v'.compute && v.storage <= v'.storage && v.network <= v'.network
    && v.availability <= v'.availability && v.reliability <= v'.reliability
  }

  lemma ReputationMonotone(w: Weights, v: Vector, v': Vector, maxScore: nat)
    requires Scale(w) && Raised(v, v') && InScale(v', maxScore) && 0 < maxScore < U32
    ensures WeightedBps(w, v, maxScore) <= WeightedBps(w, v', maxScore)
  {
    MulMonotone(w.compute, v.compute, v'.compute);
    MulMonotone(w.storage, v.storage, v'.storage);
    MulMonotone(w.network, v.network, v'.network);
    MulMonotone(w.availability, v.availability, v'.availability);
    MulMonotone(w.reliability, v.reliability, v'.reliability);
    WeightedExact(w, v, maxScore);
    WeightedExact(w, v', maxScore);
    DivMonotone(ReputationSum(w, v), ReputationSum(w, v'), maxScore);
  }

  lemma TotalMonotone(w: Weights, a: nat, b: nat)
    requires a <= b
    ensures ExactTotal(w, a) <= ExactTotal(w, b)
  {
    MulMonotone(w.reputation, a, b);
    DivMonotone(a * w.reputation, b * w.reputation, 10_000);
  }

  lemma StillEligible(r: Ranker, req: Option<Requirements>, cons: Option<Constraints>, c: Candidate, v': Vector)
    requires Divides(r, cons) && Eligible(r, req, cons, c) && 0 < r.maxScore < U32
    requires c.reputation.Some? && Raised(c.reputation.value, v') && InScale(v', r.maxScore)
    ensures Eligible(r, req, cons, c.(reputation := Some(v')))
  {
    if cons.Some? && cons.value.minReputation > 0 {
      ReachesMonotone(r.maxScore, cons.value.minReputation, c.reputation.value, v');
    }
  }

  lemma ReachesMonotone(maxScore: nat, minimum: nat, v: Vector, v': Vector)
    requires 0 < maxScore < U32 && Raised(v, v') && InScale(v', maxScore) && Reaches(maxScore, minimum, v)
    ensures Reaches(maxScore, minimum, v')
  {
    AverageInScale(v', maxScore);
    ShareMonotone(Points(v) / 5, Points(v') / 5, maxScore);
  }

  lemma ExactReputationRises(r: Ranker, w: Weights, c: Candidate, v': Vector)
    requires Scale(w) && 0 < r.maxScore < U32
    requires c.reputation.Some? && Raised(c.reputation.value, v') && InScale(v', r.maxScore)
    ensures ExactReputation(r, w, c) <= ExactReputation(r, w, c.(reputation := Some(v')))
  {
    ReputationMonotone(w, c.reputation.value, v', r.maxScore);
    WeightedExact(w, c.reputation.value, r.maxScore);
    WeightedExact(w, v', r.maxScore);
  }

  /** A better record keeps a candidate eligible and does not lower its total. */
  lemma BetterRecordHelps(r: Ranker, w: Weights, req: Option<Requirements>, cons: Option<Constraints>, c: Candidate,
                          v': Vector)
    requires Divides(r, cons) && Eligible(r, req, cons, c) && NoOverflow(req.value, c)
    requires Scale(w) && 0 < r.maxScore < U32
    requires c.reputation.Some? && Raised(c.reputation.value, v') && InScale(v', r.maxScore)
    ensures var c' := c.(reputation := Some(v'));
            && ScoreOne(r, w, req, cons, c).Scored? && ScoreOne(r, w, req, cons, c').Scored?
            && ScoreOne(r, w, req, cons, c).score.total <= ScoreOne(r, w, req, cons, c').score.total
  {
    var c' := c.(reputation := Some(v'));
    StillEligible(r, req, cons, c, v');
    ScoreIsExact(r, w, req, cons, c);
    ScoreIsExact(r, w, req, cons, c');
    ExactReputationRises(r, w, c, v');
    TotalMonotone(w, ExactReputation(r, w, c), ExactReputation(r, w, c'));
  }

  /** `r'` and `cons'` ask at least as much as `r` and `cons`: the overlay may be on, and a zone, a VM
      or a minimum may be required, where they were not. */
  predicate Stricter(r: Ranker, cons: Option<Constraints>, r': Ranker, cons': Option<Constraints>) {
    && r' == r.(overlay := r'.overlay) && (r.overlay ==> r'.overlay)
    && (cons.Some? ==>
          && cons'.Some? && (cons.value.vm ==> cons'.value.vm)
          && (cons.value.zone != [] ==> cons'.value.zone == cons.value.zone)
          && (cons.value.minReputation > 0 ==> cons'.value.minReputation == cons.value.minReputation))
  }

  lemma StricterEligible(r: Ranker, req: Option<Requirements>, cons: Option<Constraints>,
                         r': Ranker, cons': Option<Constraints>, c: Candidate)
    requires Divides(r, cons) && Divides(r', cons') && Stricter(r, cons, r', cons')
    requires Eligible(r', req, cons', c) && NoOverflow(req.value, c)
    ensures Eligible(r, req, cons, c)
  {
    EffectiveBelow(c.ingress);
    EffectiveBelow(c.egress);
    assert VectorOf(r, c) == VectorOf(r', c);
  }

  /** Asking more only removes candidates; those that stay keep their scores. */
  lemma StricterKeepsScores(r: Ranker, w: Weights, req: Option<Requirements>, cons: Option<Constraints>,
                            r': Ranker, cons': Option<Constraints>, c: Candidate)
    requires Divides(r, cons) && Divides(r', cons') && Stricter(r, cons, r', cons')
    requires req.Some? ==> NoOverflow(req.value, c)
    requires Eligible(r', req, cons', c)
    ensures Eligible(r, req, cons, c) && ScoreOne(r, w, req, cons, c) == ScoreOne(r', w, req, cons', c)
  {
    StricterEligible(r, req, cons, r', cons', c);
    ScoredIffEligible(r, w, req, cons, c);
    ScoredIffEligible(r', w, req, cons', c);
    ScoredIs(r, w, req, cons, c);
    ScoredIs(r', w, req, cons', c);
    ResourceFitIsFull(r.overlay, req.value, c);
    ResourceFitIsFull(r'.overlay, req.value, c);
    assert VectorOf(r, c) == VectorOf(r', c);
  }
}
