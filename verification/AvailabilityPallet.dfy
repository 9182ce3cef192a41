/** Challenges, responses and availability proofs on chain
    (blockchain/pallets/availability/src/lib.rs).

    All storage is keyed by provider, so one provider's part of it is a Book; the last three
    fields are history the pallet does not keep. */
module AvailabilityPallet {
  import opened Base
  import opened Bytes

  datatype Challenge = Challenge(expected: seq<Byte>, deadline: nat)

  datatype Summary = Summary(sequence: nat, observedAt: nat, successful: nat, total: nat, bps: nat,
      payload: seq<Byte>, signature: seq<Byte>)

  datatype Answer = Answer(id: nat, at: nat, response: seq<Byte>)

  datatype Book = Book(
    heartbeat: Option<nat>, nextId: nat, challenges: map<nat, Challenge>, pending: seq<nat>, lastSequence: nat,
        latest: Option<Summary>,
    issued: seq<Challenge>, validated: seq<Answer>, accepted: seq<nat>)

  const EMPTY: Book := Book(None, 0, map[], [], 0, None, [], [], [])

  datatype Config = Config(maxPending: nat, maxLifetime: nat, maxAge: nat, maxSamples: nat)

  datatype Error =
    | BadOrigin | ProviderNotRegistered | InvalidChallengeLifetime | TooManyPendingChallenges | ChallengeIdOverflow
    | ChallengeDeadlineOverflow | ChallengeNotFound | ChallengeTimeout | InvalidResponse | ProofSequenceReplay |
        ProofTooOld
    | InvalidProofSamples | InvalidProofSignature | ProofSignatureTooLong

  datatype Op =
    | Heartbeat
    | Issue(expected: seq<Byte>, lifetime: nat)
    | Respond(id: nat, response: seq<Byte>)
    | Prove(sequence: nat, observedAt: nat, successful: nat, total: nat, payload: seq<Byte>, signature: seq<Byte>)

  /** `allowed` is the origin check's answer and `registered` the registry's. */
  datatype Call = Call(allowed: bool, registered: bool, op: Op)

  const MAX_SIGNATURE: nat := 96

  // ----- dispatchables -----

  function SwapRemove<T>(s: seq<T>, i: nat): (r: seq<T>)
    requires i < |s|
    ensures |r| == |s| - 1
  {
    var last := |s| - 1;
    if i == last then s[..last] else s[..last][i := s[last]]
  }

  function Position(s: seq<nat>, id: nat): (i: nat)
    ensures i <= |s| && (i < |s| ==> s[i] == id) && (i == |s| ==> id !in s)
  {
    if s == [] then 0 else if s[0] == id then 0 else 1 + Position(s[1..], id)
  }

  function DoIssue(cfg: Config, b: Book, now: nat, expected: seq<Byte>, lifetime: nat): (r: (Book, Option<Error>)) {
    if lifetime == 0 || lifetime > cfg.maxLifetime then (b, Some(InvalidChallengeLifetime))
    else if now + lifetime >= U32 then (b, Some(ChallengeDeadlineOverflow))
    else if b.nextId + 1 >= U64 then (b, Some(ChallengeIdOverflow))
    else if |b.pending| >= cfg.maxPending then (b, Some(TooManyPendingChallenges))
    else
      var c := Challenge(expected, now + lifetime);
      (b.(pending := b.pending + [b.nextId], challenges := b.challenges[b.nextId := c], nextId := b.nextId + 1,
          issued := b.issued + [c]), None)
  }

  function DoRespond(b: Book, now: nat, id: nat, response: seq<Byte>): (r: (Book, Option<Error>)) {
    if id !in b.challenges then (b, Some(ChallengeNotFound))
    else if now > b.challenges[id].deadline then (b, Some(ChallengeTimeout))
    else if response != b.challenges[id].expected then (b, Some(InvalidResponse))
    else
      var i := Position(b.pending, id);
      (b.(challenges := b.challenges - {id}, pending := if i < |b.pending| then SwapRemove(b.pending, i) else b.pending,
          validated := b.validated + [Answer(id, now, response)]), None)
  }

  function Bps(successful: nat, total: nat): (bps: nat)
    requires total > 0
  {
    successful * 10_000 / total
  }

  function DoProve(cfg: Config, b: Book, now: nat, op: Op): (r: (Book, Option<Error>))
    requires op.Prove?
  {
    if op.sequence <= b.lastSequence then (b, Some(ProofSequenceReplay))
    else if op.total == 0 || op.total > cfg.maxSamples || op.successful > op.total then (b, Some(InvalidProofSamples))
    else if op.observedAt > now || now - op.observedAt > cfg.maxAge then (b, Some(ProofTooOld))
    else if |op.signature| > MAX_SIGNATURE then (b, Some(ProofSignatureTooLong))
    else if op.signature == [] then (b, Some(InvalidProofSignature))
    else
      var s := Summary(op.sequence, op.observedAt, op.successful, op.total, Bps(op.successful, op.total), op.payload,
          op.signature);
      (b.(lastSequence := op.sequence, latest := Some(s), heartbeat := Some(op.observedAt),
          accepted := b.accepted + [op.sequence]), None)
  }

  function Execute(cfg: Config, b: Book, now: nat, c: Call): (r: (Book, Option<Error>)) {
    if !c.allowed then (b, Some(BadOrigin))
    else match c.op
      case Respond(id, response) => DoRespond(b, now, id, response)
      case Heartbeat => if !c.registered then (b, Some(ProviderNotRegistered)) else (b.(heartbeat := Some(now)), None)
      case Issue(expected, lifetime) =>
        if !c.registered then (b, Some(ProviderNotRegistered)) else DoIssue(cfg, b, now, expected, lifetime)
      case Prove(_, _, _, _, _, _) => if !c.registered then (b, Some(ProviderNotRegistered))
          else DoProve(cfg, b, now, c.op)
  }

  // ----- what always holds of a provider -----

  /** Pending ids are distinct, bounded, already issued, and exactly the keys of Challenges. */
  ghost predicate PendingInStep(cfg: Config, b: Book) {
    && Distinct(b.pending) && |b.pending| <= cfg.maxPending
    && b.nextId == |b.issued|
    && (forall id :: id in b.pending <==> id in b.challenges)
    && (forall id :: id in b.challenges ==> id < b.nextId && b.challenges[id] == b.issued[id])
  }

  /** Each id is validated once, by its deadline, with the response expected of it, and is no
      longer pending. */
  ghost predicate ValidatedOnce(b: Book) {
    && (forall i :: 0 <= i < |b.validated| ==>
          b.validated[i].id < |b.issued| && b.validated[i].id !in b.challenges
              && b.validated[i].at <= b.issued[b.validated[i].id].deadline
              && b.validated[i].response == b.issued[b.validated[i].id].expected)
    && (forall i, j :: 0 <= i < j < |b.validated| ==> b.validated[i].id != b.validated[j].id)
  }

  predicate ExactBps(s: Summary) {
    && s.total > 0 && s.successful <= s.total && s.bps == Bps(s.successful, s.total)
    && s.bps <= 10_000 && (s.bps == 10_000 <==> s.successful == s.total)
  }

  /** Accepted sequences strictly increase, and the stored ones are the last. */
  ghost predicate ProofsInOrder(b: Book) {
    && (forall i :: 0 < i < |b.accepted| ==> b.accepted[i - 1] < b.accepted[i])
    && b.lastSequence == (if b.accepted == [] then 0 else b.accepted[|b.accepted| - 1])
    && (b.latest.Some? <==> b.accepted != [])
    && (b.latest.Some? ==> b.latest.value.sequence == b.lastSequence && ExactBps(b.latest.value))
  }

  ghost predicate Sound(cfg: Config, b: Book) {
    PendingInStep(cfg, b) && ValidatedOnce(b) && ProofsInOrder(b)
  }

  lemma SwapRemoveIs<T>(s: seq<T>, i: nat)
    requires Distinct(s) && i < |s|
    ensures Distinct(SwapRemove(s, i)) && forall x :: x in SwapRemove(s, i) <==> x in s && x != s[i]
  {
    var r, last := SwapRemove(s, i), |s| - 1;
    assert forall k :: 0 <= k < |r| ==> r[k] == if k == i then s[last] else s[k];
    forall x | x in s && x != s[i] ensures x in r {
      var k :| 0 <= k < |s| && s[k] == x;
      assert r[if k == last then i else k] == x;
    }
  }

  lemma IssueKeeps(cfg: Config, b: Book, now: nat, expected: seq<Byte>, lifetime: nat)
    requires Sound(cfg, b)
    ensures Sound(cfg, DoIssue(cfg, b, now, expected, lifetime).0)
  {
    var b' := DoIssue(cfg, b, now, expected, lifetime).0;
    if b' != b {
      assert b.nextId !in b.challenges;
      assert forall id :: id in b'.pending <==> id in b.pending || id == b.nextId;
    }
  }

  lemma RespondKeeps(cfg: Config, b: Book, now: nat, id: nat, response: seq<Byte>)
    requires Sound(cfg, b)
    ensures Sound(cfg, DoRespond(b, now, id, response).0)
  {
    if DoRespond(b, now, id, response).1.None? {
      RespondFreesSlot(cfg, b, now, id, response);
      RespondOnce(b, now, id, response);
    }
  }

  lemma RespondFreesSlot(cfg: Config, b: Book, now: nat, id: nat, response: seq<Byte>)
    requires PendingInStep(cfg, b) && DoRespond(b, now, id, response).1.None?
    ensures PendingInStep(cfg, DoRespond(b, now, id, response).0)
  {
    var i := Position(b.pending, id);
    assert id in b.pending;
    SwapRemoveIs(b.pending, i);
    var b' := DoRespond(b, now, id, response).0;
    assert b'.pending == SwapRemove(b.pending, i) && b'.challenges == b.challenges - {id};
  }

  lemma RespondOnce(b: Book, now: nat, id: nat, response: seq<Byte>)
    requires ValidatedOnce(b) && DoRespond(b, now, id, response).1.None?
    requires id < |b.issued| && b.challenges[id] == b.issued[id]
    ensures ValidatedOnce(DoRespond(b, now, id, response).0)
  {
    var b' := DoRespond(b, now, id, response).0;
    assert forall i :: 0 <= i < |b.validated| ==> b'.validated[i] == b.validated[i];
    assert b'.issued == b.issued && b'.challenges == b.challenges - {id};
  }

  lemma BpsExact(successful: nat, total: nat)
    requires successful <= total && total > 0
    ensures Bps(successful, total) <= 10_000 && (Bps(successful, total) == 10_000 <==> successful == total)
  {
    if successful < total {
      DivLess(successful * 10_000, total, 10_000);
    } else {
      DivAtLeast(successful * 10_000, total, 10_000);
      DivLess(successful * 10_000, total, 10_001);
    }
  }

  lemma ProveKeeps(cfg: Config, b: Book, now: nat, op: Op)
    requires Sound(cfg, b) && op.Prove?
    ensures Sound(cfg, DoProve(cfg, b, now, op).0)
  {
    if DoProve(cfg, b, now, op).1.None? { BpsExact(op.successful, op.total); }
  }

  lemma ExecuteKeeps(cfg: Config, b: Book, now: nat, c: Call)
    requires Sound(cfg, b)
    ensures Sound(cfg, Execute(cfg, b, now, c).0)
  {
    match c.op
    case Heartbeat =>
    case Issue(expected, lifetime) => IssueKeeps(cfg, b, now, expected, lifetime);
    case Respond(id, response) => RespondKeeps(cfg, b, now, id, response);
    case Prove(_, _, _, _, _, _) => ProveKeeps(cfg, b, now, c.op);
  }

  // ----- exactly when each call succeeds, and what it does -----

  ghost predicate Succeeds(cfg: Config, b: Book, now: nat, c: Call) {
    && c.allowed
    && match c.op
       case Heartbeat => c.registered
       case Issue(_, lifetime) =>
         && c.registered && 1 <= lifetime <= cfg.maxLifetime && now + lifetime <= 0xffff_ffff
         && b.nextId < 0xffff_ffff_ffff_ffff && |b.pending| < cfg.maxPending
       case Respond(id, response) =>
         id in b.challenges && now <= b.challenges[id].deadline && response == b.challenges[id].expected
       case Prove(sequence, observedAt, successful, total, _, signature) =>
         && c.registered && sequence > b.lastSequence && 1 <= total <= cfg.maxSamples && successful <= total
         && observedAt <= now && now <= observedAt + cfg.maxAge && 1 <= |signature| <= 96
  }

  /** The book's storage after a call that succeeds. */
  ghost predicate Done(b: Book, now: nat, op: Op, t: Book) {
    match op
    case Heartbeat => t == b.(heartbeat := Some(now))
    case Issue(expected, lifetime) =>
      && t.pending == b.pending + [b.nextId] && t.nextId == b.nextId + 1
      && t.challenges == b.challenges[b.nextId := Challenge(expected, now + lifetime)]
      && t.issued == b.issued + [Challenge(expected, now + lifetime)]
      && t == b.(pending := t.pending, nextId := t.nextId, challenges := t.challenges, issued := t.issued)
    case Respond(id, response) =>
      && t.challenges == b.challenges - {id} && t.validated == b.validated + [Answer(id, now, response)]
      && t == b.(challenges := t.challenges, pending := t.pending, validated := t.validated)
    case Prove(sequence, observedAt, successful, total, payload, signature) =>
      && t.latest.Some? && ExactBps(t.latest.value)
      && t.latest.value == Summary(sequence, observedAt, successful, total, t.latest.value.bps, payload, signature)
      && t.heartbeat == Some(observedAt) && t.lastSequence == sequence && t.accepted == b.accepted + [sequence]
      && t == b.(latest := t.latest, heartbeat := t.heartbeat, lastSequence := sequence, accepted := t.accepted)
  }

  /** A call fails and changes nothing exactly when one of its tests fails; otherwise it does what
      it says. */
  lemma CallIff(cfg: Config, b: Book, now: nat, c: Call)
    ensures var (t, error) := Execute(cfg, b, now, c);
            && (error.None? <==> Succeeds(cfg, b, now, c))
            && (if error.None? then Done(b, now, c.op, t) else t == b)
  {
    if c.op.Prove? && Succeeds(cfg, b, now, c) { BpsExact(c.op.successful, c.op.total); }
  }

  /** Each error names the first test that fails. */
  lemma ErrorIs(cfg: Config, b: Book, now: nat, c: Call)
    ensures var error := Execute(cfg, b, now, c).1;
            error.Some? ==>
              match error.value
              case BadOrigin => !c.allowed
              case ProviderNotRegistered => c.allowed && !c.registered && !c.op.Respond?
              case InvalidChallengeLifetime => c.op.Issue? && !(1 <= c.op.lifetime <= cfg.maxLifetime)
              case ChallengeDeadlineOverflow =>
                c.op.Issue? && 1 <= c.op.lifetime <= cfg.maxLifetime && now + c.op.lifetime > 0xffff_ffff
              case ChallengeIdOverflow =>
                c.op.Issue? && now + c.op.lifetime <= 0xffff_ffff && b.nextId >= 0xffff_ffff_ffff_ffff
              case TooManyPendingChallenges =>
                c.op.Issue? && b.nextId < 0xffff_ffff_ffff_ffff && |b.pending| >= cfg.maxPending
              case ChallengeNotFound => c.op.Respond? && c.op.id !in b.challenges
              case ChallengeTimeout => c.op.Respond? && c.op.id in b.challenges && now > b.challenges[c.op.id].deadline
              case InvalidResponse =>
                && c.op.Respond? && c.op.id in b.challenges && now <= b.challenges[c.op.id].deadline
                && c.op.response != b.challenges[c.op.id].expected
              case ProofSequenceReplay => c.op.Prove? && c.op.sequence <= b.lastSequence
              case InvalidProofSamples =>
                && c.op.Prove? && c.op.sequence > b.lastSequence
                && !(1 <= c.op.total <= cfg.maxSamples && c.op.successful <= c.op.total)
              case ProofTooOld =>
                && c.op.Prove? && c.op.sequence > b.lastSequence && 1 <= c.op.total <= cfg.maxSamples
                && (c.op.observedAt > now || now > c.op.observedAt + cfg.maxAge)
              case ProofSignatureTooLong => c.op.Prove? && c.op.observedAt <= now && |c.op.signature| > 96
              case InvalidProofSignature => c.op.Prove? && c.op.observedAt <= now && c.op.signature == []
  {
  }

  // ----- every run -----

  type Account = nat

  datatype State = State(books: map<Account, Book>, now: nat)

  datatype Step = Submit(provider: Account, call: Call) | Block(later: nat)

  function Get(s: State, p: Account): (b: Book) {
    if p in s.books then s.books[p] else EMPTY
  }

  function Apply(cfg: Config, s: State, step: Step): (t: State) {
    match step
    case Submit(p, c) => s.(books := s.books[p := Execute(cfg, Get(s, p), s.now, c).0])
    case Block(later) => s.(now := s.now + later)
  }

  function Run(cfg: Config, s: State, steps: seq<Step>): (t: State)
    decreases |steps|
  {
    if steps == [] then s else Run(cfg, Apply(cfg, s, steps[0]), steps[1..])
  }

  lemma RunCons(cfg: Config, s: State, step: Step, rest: seq<Step>)
    ensures Run(cfg, s, [step] + rest) == Run(cfg, Apply(cfg, s, step), rest)
  {
    assert ([step] + rest)[1..] == rest;
  }

  lemma {:induction false} RunKeeps(cfg: Config, s: State, steps: seq<Step>, p: Account)
    requires Sound(cfg, Get(s, p))
    ensures Sound(cfg, Get(Run(cfg, s, steps), p))
    decreases |steps|
  {
    if steps != [] {
      if steps[0].Submit? && steps[0].provider == p { ExecuteKeeps(cfg, Get(s, p), s.now, steps[0].call); }
      RunKeeps(cfg, Apply(cfg, s, steps[0]), steps[1..], p);
    }
  }

  /** In every reachable state, of every provider: the four maps are in step, each challenge is
      validated at most once and in time, and proofs are in order and exactly scored. */
  lemma ReachableIsSound(cfg: Config, now: nat, steps: seq<Step>, p: Account)
    ensures Sound(cfg, Get(Run(cfg, State(map[], now), steps), p))
  {
    RunKeeps(cfg, State(map[], now), steps, p);
  }

  // ----- expired challenges are never cleared -----

  /** No slot is left, and every pending challenge is past its deadline. */
  ghost predicate Jammed(cfg: Config, b: Book, now: nat) {
    Sound(cfg, b) && |b.pending| >= cfg.maxPending && forall id :: id in b.challenges ==>
        b.challenges[id].deadline < now
  }

  lemma JammedStays(cfg: Config, b: Book, now: nat, c: Call)
    requires Jammed(cfg, b, now)
    ensures Jammed(cfg, Execute(cfg, b, now, c).0, now)
    ensures c.op.Issue? ==> Execute(cfg, b, now, c).1.Some?
    ensures Execute(cfg, b, now, c).0.pending == b.pending && Execute(cfg, b, now, c).0.issued == b.issued
  {
    ExecuteKeeps(cfg, b, now, c);
  }

  /** Once a provider's challenges have all expired with no slot left, none can be issued to it
      ever again, whatever happens: only an answer in time frees a slot. */
  lemma {:induction false} JammedForever(cfg: Config, s: State, steps: seq<Step>, p: Account)
    requires Jammed(cfg, Get(s, p), s.now)
    ensures Jammed(cfg, Get(Run(cfg, s, steps), p), Run(cfg, s, steps).now)
    ensures Get(Run(cfg, s, steps), p).issued == Get(s, p).issued
    decreases |steps|
  {
    if steps != [] {
      if steps[0].Submit? && steps[0].provider == p { JammedStays(cfg, Get(s, p), s.now, steps[0].call); }
      JammedForever(cfg, Apply(cfg, s, steps[0]), steps[1..], p);
    }
  }

  /** A valid one-block challenge. */
  predicate OneBlock(c: Call) {
    c.allowed && c.registered && c.op.Issue? && c.op.lifetime == 1
  }

  function Repeat(step: Step, n: nat): (steps: seq<Step>) {
    if n == 0 then [] else [step] + Repeat(step, n - 1)
  }

  function Executing(cfg: Config, now: nat, c: Call): (f: Book -> Book) {
    b => Execute(cfg, b, now, c).0
  }

  function Iterate(f: Book -> Book, b: Book, n: nat): (r: Book)
    decreases n
  {
    if n == 0 then b else Iterate(f, f(b), n - 1)
  }

  lemma {:induction false} RunRepeat(cfg: Config, s: State, p: Account, c: Call, n: nat)
    ensures var t := Run(cfg, s, Repeat(Submit(p, c), n));
            t.now == s.now && Get(t, p) == Iterate(Executing(cfg, s.now, c), Get(s, p), n)
    decreases n
  {
    if n > 0 {
      var t := Apply(cfg, s, Submit(p, c));
      RunRepeat(cfg, t, p, c, n - 1);
      RunCons(cfg, s, Submit(p, c), Repeat(Submit(p, c), n - 1));
    }
  }

  /** `k` challenges are out, all due by the next block. */
  ghost predicate Filled(cfg: Config, b: Book, now: nat, k: nat) {
    && Sound(cfg, b) && |b.pending| == b.nextId == k
    && forall id :: id in b.challenges ==> b.challenges[id].deadline <= now + 1
  }

  lemma {:induction false} IssueFills(cfg: Config, b: Book, now: nat, k: nat, c: Call)
    requires Filled(cfg, b, now, k) && k < cfg.maxPending < U64 - 1 && cfg.maxLifetime >= 1 && now + 1 < U32
    requires OneBlock(c)
    ensures Filled(cfg, Executing(cfg, now, c)(b), now, k + 1)
  {
    ExecuteKeeps(cfg, b, now, c);
    var b' := Execute(cfg, b, now, c).0;
    assert b' == DoIssue(cfg, b, now, c.op.expected, 1).0;
    assert forall id :: id in b'.challenges ==> id == b.nextId || id in b.challenges;
  }

  lemma {:induction false} IterateCounts(f: Book -> Book, inv: (nat, Book) -> bool, b: Book, k: nat, n: nat)
    requires inv(k, b) && forall j: nat, x :: j < k + n && inv(j, x) ==> inv(j + 1, f(x))
    ensures inv(k + n, Iterate(f, b, n))
    decreases n
  {
    if n > 0 { IterateCounts(f, inv, f(b), k + 1, n - 1); }
  }

  lemma {:induction false} Filling(cfg: Config, b: Book, now: nat, c: Call)
    requires Filled(cfg, b, now, 0) && cfg.maxPending < U64 - 1 && cfg.maxLifetime >= 1 && now + 1 < U32
    requires OneBlock(c)
    ensures Filled(cfg, Iterate(Executing(cfg, now, c), b, cfg.maxPending), now, cfg.maxPending)
  {
    ghost var inv := (j: nat, x: Book) => Filled(cfg, x, now, j);
    forall j: nat, x | j < cfg.maxPending && inv(j, x) ensures inv(j + 1, Executing(cfg, now, c)(x)) {
      IssueFills(cfg, x, now, j, c);
    }
    IterateCounts(Executing(cfg, now, c), inv, b, 0, cfg.maxPending);
  }

  lemma {:induction false} FilledThenJammed(cfg: Config, s: State, p: Account)
    requires Filled(cfg, Get(s, p), s.now, cfg.maxPending)
    ensures var u := Apply(cfg, s, Block(2)); Jammed(cfg, Get(u, p), u.now)
  {
    var u := Apply(cfg, s, Block(2));
    assert u.now == s.now + 2 && Get(u, p) == Get(s, p);
  }

  lemma {:induction false} FillsUp(cfg: Config, b: Book, now: nat, c: Call, t: State, p: Account)
    requires Filled(cfg, b, now, 0) && OneBlock(c) && cfg.maxLifetime >= 1 && now + 1 < U32 && cfg.maxPending < U64 - 1
    requires t.now == now && Get(t, p) == Iterate(Executing(cfg, now, c), b, cfg.maxPending)
    ensures var u := Apply(cfg, t, Block(2)); Jammed(cfg, Get(u, p), u.now)
  {
    Filling(cfg, b, now, c);
    FilledThenJammed(cfg, t, p);
  }

  /** A provider that lets `maxPending` challenges expire is jammed: `t` is the state after
      that many one-block challenges, from one in which it had none. */
  lemma {:induction false} JammedIsReachable(cfg: Config, s: State, p: Account, c: Call, t: State)
    requires Filled(cfg, Get(s, p), s.now, 0) && OneBlock(c) && cfg.maxLifetime >= 1 && s.now + 1 < U32
        && cfg.maxPending < U64 - 1
    requires t == Run(cfg, s, Repeat(Submit(p, c), cfg.maxPending))
    ensures var u := Apply(cfg, t, Block(2)); u.now == s.now + 2 && Jammed(cfg, Get(u, p), u.now)
  {
    RunRepeat(cfg, s, p, c, cfg.maxPending);
    FillsUp(cfg, Get(s, p), s.now, c, t, p);
  }

  // ----- exactly when a provider can still be challenged -----

  /** There is an id, a block and a lifetime left for one more challenge. */
  predicate Headroom(cfg: Config, b: Book, now: nat) {
    cfg.maxLifetime >= 1 && now + 1 < U32 && b.nextId + 1 < U64
  }

  lemma NoHeadroomStays(cfg: Config, b: Book, now: nat, c: Call)
    requires Sound(cfg, b) && !Headroom(cfg, b, now)
    ensures var b' := Execute(cfg, b, now, c).0; b'.issued == b.issued && b'.nextId == b.nextId
  {
  }

  ghost predicate OutOfRoom(cfg: Config, s: State, p: Account, issued: seq<Challenge>) {
    Sound(cfg, Get(s, p)) && !Headroom(cfg, Get(s, p), s.now) && Get(s, p).issued == issued
  }

  lemma NoHeadroomStep(cfg: Config, s: State, step: Step, p: Account, issued: seq<Challenge>)
    requires OutOfRoom(cfg, s, p, issued)
    ensures OutOfRoom(cfg, Apply(cfg, s, step), p, issued)
  {
    if step.Submit? && step.provider == p {
      ExecuteKeeps(cfg, Get(s, p), s.now, step.call);
      NoHeadroomStays(cfg, Get(s, p), s.now, step.call);
    }
  }

  lemma {:induction false} NoHeadroomForever(cfg: Config, s: State, steps: seq<Step>, p: Account,
                                             issued: seq<Challenge>)
    requires OutOfRoom(cfg, s, p, issued)
    ensures OutOfRoom(cfg, Run(cfg, s, steps), p, issued)
    decreases |steps|
  {
    if steps != [] {
      NoHeadroomStep(cfg, s, steps[0], p, issued);
      NoHeadroomForever(cfg, Apply(cfg, s, steps[0]), steps[1..], p, issued);
    }
  }

  const CHALLENGE: Call := Call(true, true, Issue([], 1))

  lemma FreeSlotIssues(cfg: Config, b: Book, now: nat)
    requires |b.pending| < cfg.maxPending && Headroom(cfg, b, now)
    ensures |Execute(cfg, b, now, CHALLENGE).0.issued| == |b.issued| + 1
  {
  }

  /** The right answer to a challenge in time. */
  function AnswerTo(b: Book, id: nat): (c: Call)
    requires id in b.challenges
  {
    Call(true, true, Respond(id, b.challenges[id].expected))
  }

  lemma AnswerFreesSlot(cfg: Config, b: Book, now: nat, id: nat)
    requires Sound(cfg, b) && id in b.challenges && now <= b.challenges[id].deadline
    ensures var b' := Execute(cfg, b, now, AnswerTo(b, id)).0;
            |b'.pending| < cfg.maxPending && b'.issued == b.issued && b'.nextId == b.nextId
  {
    assert id in b.pending;
  }

  lemma FreeSlotContinues(cfg: Config, s: State, p: Account)
    requires |Get(s, p).pending| < cfg.maxPending && Headroom(cfg, Get(s, p), s.now)
    ensures |Get(Run(cfg, s, [Submit(p, CHALLENGE)]), p).issued| > |Get(s, p).issued|
  {
    FreeSlotIssues(cfg, Get(s, p), s.now);
    assert [Submit(p, CHALLENGE)] == [Submit(p, CHALLENGE)] + [];
    RunCons(cfg, s, Submit(p, CHALLENGE), []);
  }

  lemma CanContinue(cfg: Config, s: State, p: Account) returns (steps: seq<Step>)
    requires Sound(cfg, Get(s, p)) && !Jammed(cfg, Get(s, p), s.now) && Headroom(cfg, Get(s, p), s.now)
    ensures |Get(Run(cfg, s, steps), p).issued| > |Get(s, p).issued|
  {
    var b := Get(s, p);
    steps := [Submit(p, CHALLENGE)];
    if |b.pending| < cfg.maxPending {
      FreeSlotContinues(cfg, s, p);
    } else {
      var id :| id in b.challenges && b.challenges[id].deadline >= s.now;
      var answer := Submit(p, AnswerTo(b, id));
      AnswerFreesSlot(cfg, b, s.now, id);
      FreeSlotContinues(cfg, Apply(cfg, s, answer), p);
      RunCons(cfg, s, answer, steps);
      steps := [answer] + steps;
    }
  }

  /** From every reachable state, some continuation issues the provider another challenge exactly
      when there is headroom and its book is not jammed. */
  lemma ChallengeableIff(cfg: Config, start: nat, before: seq<Step>, p: Account)
    ensures var s := Run(cfg, State(map[], start), before);
            (exists more :: |Get(Run(cfg, s, more), p).issued| > |Get(s, p).issued|) <==>
              Headroom(cfg, Get(s, p), s.now) && !Jammed(cfg, Get(s, p), s.now)
  {
    var s := Run(cfg, State(map[], start), before);
    ReachableIsSound(cfg, start, before, p);
    if !Headroom(cfg, Get(s, p), s.now) {
      forall more ensures Get(Run(cfg, s, more), p).issued == Get(s, p).issued {
        NoHeadroomForever(cfg, s, more, p, Get(s, p).issued);
      }
    } else if Jammed(cfg, Get(s, p), s.now) {
      forall more ensures Get(Run(cfg, s, more), p).issued == Get(s, p).issued { JammedForever(cfg, s, more, p); }
    } else {
      var more := CanContinue(cfg, s, p);
    }
  }

  // ----- the recorded heartbeat -----

  ghost predicate HeartbeatPast(b: Book, now: nat) {
    b.heartbeat.Some? ==> b.heartbeat.value <= now
  }

  lemma {:induction false} HeartbeatStaysPast(cfg: Config, s: State, steps: seq<Step>, p: Account)
    requires HeartbeatPast(Get(s, p), s.now)
    ensures var t := Run(cfg, s, steps); HeartbeatPast(Get(t, p), t.now)
    decreases |steps|
  {
    if steps != [] { HeartbeatStaysPast(cfg, Apply(cfg, s, steps[0]), steps[1..], p); }
  }

  /** A proof that passes every test, the time of its observation apart. */
  predicate InOrder(cfg: Config, b: Book, c: Call) {
    && c.allowed && c.registered && c.op.Prove? && c.op.sequence > b.lastSequence
    && 0 < c.op.total <= cfg.maxSamples && c.op.successful <= c.op.total && 1 <= |c.op.signature| <= MAX_SIGNATURE
  }

  /** In every reachable state, a call moves the recorded heartbeat back exactly when it is a
      proof in order, observed recently enough but before the heartbeat. */
  lemma HeartbeatRegressesIff(cfg: Config, start: nat, before: seq<Step>, p: Account, c: Call)
    ensures var s := Run(cfg, State(map[], start), before);
            var b, b' := Get(s, p), Get(Apply(cfg, s, Submit(p, c)), p);
            b.heartbeat.Some? ==>
              && b'.heartbeat.Some?
              && (b'.heartbeat.value < b.heartbeat.value <==>
                    InOrder(cfg, b, c) && s.now - cfg.maxAge <= c.op.observedAt < b.heartbeat.value)
  {
    HeartbeatStaysPast(cfg, State(map[], start), before, p);
  }

  /** A heartbeat, and in the same block a proof observed the block before. */
  lemma HeartbeatCanRegress(cfg: Config, start: nat, p: Account, payload: seq<Byte>)
    requires start > 0 && cfg.maxAge >= 1 && cfg.maxSamples >= 1
    ensures var beat, proof := Submit(p, Call(true, true, Heartbeat)),
        Submit(p, Call(true, true, Prove(1, start - 1, 1, 1, payload, [0])));
            && Get(Run(cfg, State(map[], start), [beat]), p).heartbeat == Some(start)
            && Get(Run(cfg, State(map[], start), [beat] + [proof]), p).heartbeat == Some(start - 1)
  {
    var s := State(map[], start);
    var beat, proof := Submit(p, Call(true, true, Heartbeat)),
        Submit(p, Call(true, true, Prove(1, start - 1, 1, 1, payload, [0])));
    var t := Apply(cfg, s, beat);
    RunCons(cfg, s, beat, []);
    RunCons(cfg, s, beat, [proof]);
    RunCons(cfg, t, proof, []);
    assert [beat] + [] == [beat] && [proof] + [] == [proof];
  }
}
