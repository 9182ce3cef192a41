/** The availability pallet's storage maps, mutated in place by its dispatchables
    (blockchain/pallets/availability/src/lib.rs). */
module AvailabilityStorage {
  import opened Base
  import opened Bytes
  import opened AvailabilityPallet

  class Pallet {
    const cfg: Config
    var now: nat
    var lastHeartbeat: map<Account, nat>
    var nextChallengeId: map<Account, nat>
    var challenges: map<(Account, nat), Challenge>
    var pendingChallenges: map<Account, seq<nat>>
    var lastProofSequence: map<Account, nat>
    var latestProof: map<Account, Summary>
    ghost var books: map<Account, Book>

    ghost function Abstract(): (s: State)
      reads this
    {
      State(books, now)
    }

    function NextId(p: Account): (id: nat)
      reads this`nextChallengeId
    {
      if p in nextChallengeId then nextChallengeId[p] else 0
    }

    function Pending(p: Account): (ids: seq<nat>)
      reads this`pendingChallenges
    {
      if p in pendingChallenges then pendingChallenges[p] else []
    }

    function LastSequence(p: Account): (n: nat)
      reads this`lastProofSequence
    {
      if p in lastProofSequence then lastProofSequence[p] else 0
    }

    /** The maps hold `b` for the provider. */
    ghost predicate Stores(p: Account, b: Book)
      reads this`lastHeartbeat, this`nextChallengeId, this`challenges, this`pendingChallenges,
          this`lastProofSequence, this`latestProof
    {
      && (if p in lastHeartbeat then b.heartbeat == Some(lastHeartbeat[p]) else b.heartbeat == None)
      && NextId(p) == b.nextId && Pending(p) == b.pending && LastSequence(p) == b.lastSequence
      && (if p in latestProof then b.latest == Some(latestProof[p]) else b.latest == None)
      && (forall id :: (p, id) in challenges <==> id in b.challenges)
      && (forall id :: id in b.challenges ==> challenges[(p, id)] == b.challenges[id])
    }

    ghost function BookOf(p: Account): (b: Book)
      reads this`books
    {
      if p in books then books[p] else EMPTY
    }

    ghost predicate Valid()
      reads this
    {
      forall p :: Stores(p, BookOf(p))
    }

    constructor (cfg: Config, now: nat)
      ensures Valid() && this.cfg == cfg && Abstract() == State(map[], now)
    {
      this.cfg, this.now := cfg, now;
      lastHeartbeat, nextChallengeId, challenges, pendingChallenges, lastProofSequence, latestProof := map[], map[],
          map[], map[], map[], map[];
      books := map[];
    }

    ghost method Commit(provider: Account, b: Book)
      requires Stores(provider, b) && forall p :: p != provider ==> Stores(p, BookOf(p))
      modifies this`books
      ensures Valid() && books == old(books)[provider := b]
    {
      books := books[provider := b];
      forall p ensures Stores(p, BookOf(p)) { assert p != provider ==> old(Stores(p, BookOf(p))); }
    }

    method SubmitHeartbeat(provider: Account, registered: bool) returns (error: Option<Error>)
      requires Valid()
      modifies this`lastHeartbeat, this`books
      ensures Valid() && Abstract() == Apply(cfg, old(Abstract()), Submit(provider, Call(true, registered, Heartbeat)))
      ensures error == Execute(cfg, Get(old(Abstract()), provider), now, Call(true, registered, Heartbeat)).1
    {
      assert Stores(provider, BookOf(provider));
      error := if registered then None else Some(ProviderNotRegistered);
      if registered { lastHeartbeat := lastHeartbeat[provider := now]; }
      books := books[provider := Execute(cfg, BookOf(provider), now, Call(true, registered, Heartbeat)).0];
      forall p ensures Stores(p, BookOf(p)) { assert old(Stores(p, BookOf(p))); }
    }

    /** The checks of issue_challenge, in order. */
    function CheckIssue(allowed: bool, provider: Account, registered: bool, lifetime: nat): (error: Option<Error>)
      reads this
    {
      if !allowed then Some(BadOrigin)
      else if !registered then Some(ProviderNotRegistered)
      else if lifetime == 0 || lifetime > cfg.maxLifetime then Some(InvalidChallengeLifetime)
      else if now + lifetime >= U32 then Some(ChallengeDeadlineOverflow)
      else if NextId(provider) + 1 >= U64 then Some(ChallengeIdOverflow)
      else if |Pending(provider)| >= cfg.maxPending then Some(TooManyPendingChallenges)
      else None
    }

    method PushChallenge(provider: Account, c: Challenge, ghost b: Book, ghost b': Book)
      requires Stores(provider, b) && b'.heartbeat == b.heartbeat && b'.latest == b.latest
          && b'.lastSequence == b.lastSequence
      requires b'.pending == b.pending + [b.nextId] && b'.nextId == b.nextId + 1
          && b'.challenges == b.challenges[b.nextId := c]
      modifies this`pendingChallenges, this`challenges, this`nextChallengeId
      ensures Stores(provider, b') && forall p, x :: p != provider && old(Stores(p, x)) ==> Stores(p, x)
    {
      var id := NextId(provider);
      pendingChallenges := pendingChallenges[provider := Pending(provider) + [id]];
      challenges := challenges[(provider, id) := c];
      nextChallengeId := nextChallengeId[provider := id + 1];
    }

    method IssueChallenge(allowed: bool, provider: Account, registered: bool, expected: seq<Byte>, lifetime: nat)
      returns (error: Option<Error>)
      requires Valid()
      modifies this`pendingChallenges, this`challenges, this`nextChallengeId, this`books
      ensures Valid()
          && Abstract() ==
          Apply(cfg, old(Abstract()), Submit(provider, Call(allowed, registered, Issue(expected, lifetime))))
      ensures error ==
          Execute(cfg, Get(old(Abstract()), provider), now, Call(allowed, registered, Issue(expected, lifetime))).1
    {
      ghost var b := BookOf(provider);
      assert Stores(provider, b);
      ghost var b' := Execute(cfg, b, now, Call(allowed, registered, Issue(expected, lifetime))).0;
      error := CheckIssue(allowed, provider, registered, lifetime);
      if error.None? { PushChallenge(provider, Challenge(expected, now + lifetime), b, b'); }
      Commit(provider, b');
    }

    function CheckResponse(provider: Account, id: nat, response: seq<Byte>): (error: Option<Error>)
      reads this
    {
      if (provider, id) !in challenges then Some(ChallengeNotFound)
      else if now > challenges[(provider, id)].deadline then Some(ChallengeTimeout)
      else if response != challenges[(provider, id)].expected then Some(InvalidResponse)
      else None
    }

    method DropChallenge(provider: Account, id: nat, ghost b: Book, ghost b': Book)
      requires Stores(provider, b) && b'.heartbeat == b.heartbeat && b'.latest == b.latest
          && b'.lastSequence == b.lastSequence
      requires b'.nextId == b.nextId && b'.challenges == b.challenges - {id}
      requires b'.pending == var i := Position(b.pending, id);
          if i < |b.pending| then SwapRemove(b.pending, i) else b.pending
      modifies this`pendingChallenges, this`challenges
      ensures Stores(provider, b') && forall p, x :: p != provider && old(Stores(p, x)) ==> Stores(p, x)
    {
      challenges := challenges - {(provider, id)};
      var pending := Pending(provider);
      var index := Position(pending, id);
      pendingChallenges :=
          pendingChallenges[provider := if index < |pending| then SwapRemove(pending, index) else pending];
    }

    method SubmitResponse(provider: Account, registered: bool, id: nat, response: seq<Byte>)
      returns (error: Option<Error>)
      requires Valid()
      modifies this`pendingChallenges, this`challenges, this`books
      ensures Valid()
          && Abstract() == Apply(cfg, old(Abstract()), Submit(provider, Call(true, registered, Respond(id, response))))
      ensures error ==
          Execute(cfg, Get(old(Abstract()), provider), now, Call(true, registered, Respond(id, response))).1
    {
      ghost var b := BookOf(provider);
      assert Stores(provider, b);
      ghost var b' := Execute(cfg, b, now, Call(true, registered, Respond(id, response))).0;
      error := CheckResponse(provider, id, response);
      if error.None? { DropChallenge(provider, id, b, b'); }
      Commit(provider, b');
    }

    function CheckProof(allowed: bool, provider: Account, registered: bool, op: Op): (error: Option<Error>)
      requires op.Prove?
      reads this
    {
      if !allowed then Some(BadOrigin)
      else if !registered then Some(ProviderNotRegistered)
      else if op.sequence <= LastSequence(provider) then Some(ProofSequenceReplay)
      else if op.total == 0 || op.total > cfg.maxSamples || op.successful > op.total then Some(InvalidProofSamples)
      else if op.observedAt > now || now - op.observedAt > cfg.maxAge then Some(ProofTooOld)
      else if |op.signature| > MAX_SIGNATURE then Some(ProofSignatureTooLong)
      else if op.signature == [] then Some(InvalidProofSignature)
      else None
    }

    method StoreProof(provider: Account, summary: Summary, ghost b: Book, ghost b': Book)
      requires Stores(provider, b) && b'.nextId == b.nextId && b'.pending == b.pending && b'.challenges == b.challenges
      requires b'.lastSequence == summary.sequence && b'.latest == Some(summary)
          && b'.heartbeat == Some(summary.observedAt)
      modifies this`lastProofSequence, this`latestProof, this`lastHeartbeat
      ensures Stores(provider, b') && forall p, x :: p != provider && old(Stores(p, x)) ==> Stores(p, x)
    {
      lastProofSequence := lastProofSequence[provider := summary.sequence];
      latestProof := latestProof[provider := summary];
      lastHeartbeat := lastHeartbeat[provider := summary.observedAt];
    }

    method SubmitProof(allowed: bool, provider: Account, registered: bool, proof: Op) returns (error: Option<Error>)
      requires Valid() && proof.Prove?
      modifies this`lastProofSequence, this`latestProof, this`lastHeartbeat, this`books
      ensures Valid() && Abstract() == Apply(cfg, old(Abstract()), Submit(provider, Call(allowed, registered, proof)))
      ensures error == Execute(cfg, Get(old(Abstract()), provider), now, Call(allowed, registered, proof)).1
    {
      ghost var b := BookOf(provider);
      assert Stores(provider, b);
      error := CheckProof(allowed, provider, registered, proof);
      ghost var b' := Execute(cfg, b, now, Call(allowed, registered, proof)).0;
      if error.None? {
        var bps := Bps(proof.successful, proof.total);
        var summary :=
            Summary(proof.sequence, proof.observedAt, proof.successful, proof.total, bps, proof.payload,
            proof.signature);
        StoreProof(provider, summary, b, b');
      }
      Commit(provider, b');
    }
  }
}
