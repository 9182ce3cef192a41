/** The chain registrar's tip bumping and the calls that make a provider Active
    (control-plane/internal/blockchainbridge/registrar.go), against the transaction pool's
    priorities (blockchain/runtime/src/lib.rs) and the pallet that executes the calls
    (blockchain/pallets/provider-registry/src/lib.rs).

    The chain answers through inputs: replies to submissions, and successive finalized reads;
    a poll that runs out of reads is a cancelled context. */
module Registrar {
  import opened Base
  import opened Bytes

  // ----- tips -----

  const MAX_TIP: nat := 100
  const MAX_BUMPS: nat := 3

  /** 1014 is PriorityTooLow; every other error is Rejected. */
  datatype Reply = Accepted | PriorityTooLow | Rejected

  function NextTip(tip: nat): (next: nat) {
    if tip == 0 then 1 else if tip > MAX_TIP / 2 then MAX_TIP else tip * 2
  }

  const LADDER: seq<nat> := [0, 1, 2, 4]

  /** A submission at `tips`: at most four, climbing 0, 1, 2, 4, each repeated only because the
      one before was priced out, and giving up only on another error or after the fourth. */
  ghost predicate Submitted(replies: nat -> Reply, tips: seq<nat>, ok: bool) {
    && 1 <= |tips| <= |LADDER| && tips == LADDER[..|tips|]
    && (forall i :: 0 <= i < |tips| - 1 ==> replies(i) == PriorityTooLow)
    && (ok <==> replies(|tips| - 1) == Accepted)
    && (replies(|tips| - 1) == PriorityTooLow ==> |tips| == |LADDER|)
  }

  /** `replies(i)` answers the i-th attempt. */
  method SubmitSigned(replies: nat -> Reply) returns (tips: seq<nat>, ok: bool)
    ensures Submitted(replies, tips, ok)
  {
    tips := [];
    var tip, attempt := 0, 0;
    while true
      invariant 0 <= attempt <= MAX_BUMPS && |tips| == attempt && tip == LADDER[attempt]
      invariant tips == LADDER[..attempt]
      invariant forall i :: 0 <= i < attempt ==> replies(i) == PriorityTooLow
      decreases MAX_BUMPS - attempt
    {
      tips := tips + [tip];
      var reply := replies(attempt);
      if reply == Accepted { return tips, true; }
      if reply != PriorityTooLow || attempt >= MAX_BUMPS { return tips, false; }
      tip := NextTip(tip);
      attempt := attempt + 1;
    }
  }

  /** ChargeTip's priority: the tip plus one, saturating. */
  function Priority(tip: nat): (p: nat) {
    if tip + 1 < U64 then tip + 1 else U64 - 1
  }

  /** A pool that replaces the transaction holding a nonce only for a strictly higher priority. */
  function PoolReply(occupant: Option<nat>, tip: nat): (r: Reply) {
    if occupant.None? || Priority(tip) > Priority(occupant.value) then Accepted else PriorityTooLow
  }

  /** Against that pool a submission gets in exactly when the nonce is free or its holder
      tipped at most 3. */
  lemma DisplacesIff(occupant: Option<nat>, replies: nat -> Reply, tips: seq<nat>, ok: bool)
    requires Submitted(replies, tips, ok)
    requires forall i :: 0 <= i < |LADDER| ==> replies(i) == PoolReply(occupant, LADDER[i])
    ensures ok <==> occupant.None? || occupant.value <= 3
  {
    assert replies(|tips| - 1) == PoolReply(occupant, LADDER[|tips| - 1]);
    if ok && occupant.Some? {
      assert LADDER[|tips| - 1] <= 4;
    }
    if !ok {
      assert |tips| == |LADDER|;
      assert LADDER[3] == 4;
    }
  }

  // ----- making a provider Active -----

  type Key = seq<Byte>

  datatype Status = Registered | Verified | Active | Suspended | Removed

  /** The registry pallet's storage: each provider's status, the owner of each key, bonds. */
  datatype Registry = Registry(status: map<Key, Status>, ownerOf: map<Key, Key>, bonds: map<Key, nat>, minStake: nat)

  /** The bridge registers a provider under its own key. */
  datatype RegistryCall = RegisterFor(provider: Key) | SetStatus(provider: Key, to: Status)

  /** The all-zero key, which the registry refuses. */
  predicate IsZero(k: Key) {
    forall i :: 0 <= i < |k| ==> k[i] == 0
  }

  predicate ValidStatusChange(from: Status, to: Status) {
    || (from == Registered && to == Verified)
    || (from == Verified && to == Active)
    || (from == Active && to == Suspended)
    || (from == Suspended && to == Active)
    || (from != Removed && to == Removed)
  }

  function Bonded(r: Registry, p: Key): (stake: nat) {
    if p in r.bonds then r.bonds[p] else 0
  }

  /** A failing dispatch is in a block all the same and changes nothing. */
  function Dispatch(r: Registry, c: RegistryCall): (r': Registry) {
    match c
    case RegisterFor(p) =>
      if IsZero(p) || p in r.status || p in r.ownerOf then r
      else r.(status := r.status[p := Registered], ownerOf := r.ownerOf[p := p])
    case SetStatus(p, to) =>
      if p !in r.status || !ValidStatusChange(r.status[p], to) then r
      else if r.status[p] == Verified && to == Active && Bonded(r, p) < r.minStake then r
      else r.(status := r.status[p := to])
  }

  /** A registration takes exactly a key that is not all zero and that neither a provider nor a key is
      known by; a status moves exactly along these edges, to Active from Verified only with the stake. */
  lemma DispatchIff(r: Registry, p: Key, to: Status)
    ensures Dispatch(r, RegisterFor(p)) ==
              if (exists i :: 0 <= i < |p| && p[i] != 0) && p !in r.status && p !in r.ownerOf
              then r.(status := r.status[p := Registered], ownerOf := r.ownerOf[p := p]) else r
    ensures Dispatch(r, SetStatus(p, to)) ==
              if && p in r.status
                 && (r.status[p], to) in
                      {(Registered, Verified), (Verified, Active), (Active, Suspended), (Suspended, Active),
                       (Registered, Removed), (Verified, Removed), (Active, Removed), (Suspended, Removed)}
                 && (r.status[p] == Verified && to == Active ==> Bonded(r, p) >= r.minStake)
              then r.(status := r.status[p := to]) else r
  {
  }

  function DispatchAll(r: Registry, calls: seq<RegistryCall>): (r': Registry)
    decreases |calls|
  {
    if calls == [] then r else DispatchAll(Dispatch(r, calls[0]), calls[1..])
  }

  function StatusOf(r: Registry, p: Key): (s: Option<Status>) {
    if p in r.status then Some(r.status[p]) else None
  }

  /** The steps from a finalized status; None when the status is unsupported. */
  function Plan(p: Key, status: Option<Status>): (steps: Option<seq<RegistryCall>>) {
    match status
    case None => Some([RegisterFor(p), SetStatus(p, Verified), SetStatus(p, Active)])
    case Some(Registered) => Some([SetStatus(p, Verified), SetStatus(p, Active)])
    case Some(Verified) => Some([SetStatus(p, Active)])
    case Some(Active) => Some([])
    case Some(_) => None
  }

  /** What the chain must already hold for the plan to work. */
  predicate Admissible(r: Registry, p: Key) {
    || StatusOf(r, p) == Some(Active)
    || (Bonded(r, p) >= r.minStake && (StatusOf(r, p) == None ==> !IsZero(p) && p !in r.ownerOf))
  }

  lemma ActivateVerified(r: Registry, p: Key)
    requires StatusOf(r, p) == Some(Verified)
    ensures var r' := DispatchAll(r, [SetStatus(p, Active)]);
            r'.bonds == r.bonds && (StatusOf(r', p) == Some(Active) <==> Bonded(r, p) >= r.minStake)
  {
  }

  lemma ActivateRegistered(r: Registry, p: Key)
    requires StatusOf(r, p) == Some(Registered)
    ensures StatusOf(DispatchAll(r, [SetStatus(p, Verified), SetStatus(p, Active)]), p) == Some(Active) <==>
        Bonded(r, p) >= r.minStake
  {
    var calls := [SetStatus(p, Verified), SetStatus(p, Active)];
    assert calls[1..] == [SetStatus(p, Active)];
    ActivateVerified(Dispatch(r, calls[0]), p);
  }

  lemma ActivateUnknown(r: Registry, p: Key)
    requires StatusOf(r, p) == None
    ensures var calls := [RegisterFor(p), SetStatus(p, Verified), SetStatus(p, Active)];
            StatusOf(DispatchAll(r, calls), p) == Some(Active) <==> Admissible(r, p)
  {
    var calls := [RegisterFor(p), SetStatus(p, Verified), SetStatus(p, Active)];
    var t := Dispatch(r, calls[0]);
    assert calls[1..] == [SetStatus(p, Verified), SetStatus(p, Active)] && calls[1..][1..] == [SetStatus(p, Active)];
    if StatusOf(t, p) == Some(Registered) {
      ActivateRegistered(t, p);
    } else {
      assert Dispatch(t, calls[1]) == t && Dispatch(t, calls[2]) == t;
      assert DispatchAll(t, calls[1..]) == DispatchAll(t, calls[1..][1..]) == t;
    }
  }

  /** The planned steps, executed in order, make the provider Active exactly when its bond
      covers the minimum stake and, if it is new, its key is usable. */
  lemma PlanWorksIff(r: Registry, p: Key)
    requires Plan(p, StatusOf(r, p)).Some?
    ensures StatusOf(DispatchAll(r, Plan(p, StatusOf(r, p)).value), p) == Some(Active) <==> Admissible(r, p)
  {
    match StatusOf(r, p)
    case None => ActivateUnknown(r, p);
    case Some(Registered) => ActivateRegistered(r, p);
    case Some(Verified) => ActivateVerified(r, p);
    case Some(Active) =>
  }

  /** A finalized read of the provider. */
  datatype StatusRead = ReadError | Read(status: Option<Status>)

  datatype Numbered<T> = Numbered(nonce: nat, call: T)

  /** Steps submitted in order at consecutive nonces until one is refused; `accepts(i)` is
      whether the i-th submission is accepted. */
  ghost predicate Sent<T>(sent: seq<Numbered<T>>, steps: seq<T>, nonce: nat, accepts: nat -> bool) {
    && |sent| <= |steps| && (forall k :: 0 <= k < |sent| ==> sent[k] == Numbered(nonce + k, steps[k]))
    && (forall k :: 0 <= k < |sent| - 1 ==> accepts(k))
    && (|sent| < |steps| ==> sent != [] && !accepts(|sent| - 1))
  }

  ghost predicate AllAccepted(accepts: nat -> bool, n: nat) {
    forall i :: 0 <= i < n ==> accepts(i)
  }

  method SubmitAll<T>(steps: seq<T>, nonce: nat, accepts: nat -> bool) returns (sent: seq<Numbered<T>>, ok: bool)
    ensures Sent(sent, steps, nonce, accepts) && (ok <==> AllAccepted(accepts, |steps|))
  {
    sent := [];
    var n := nonce;
    for i := 0 to |steps|
      invariant n == nonce + i && AllAccepted(accepts, i)
      invariant |sent| == i && forall k :: 0 <= k < i ==> sent[k] == Numbered(nonce + k, steps[k])
    {
      sent := sent + [Numbered(n, steps[i])];
      if !accepts(i) { return sent, false; }
      n := n + 1;
    }
    return sent, true;
  }

  /** Some read from `i` on finds the provider Active, and neither a read before it nor the one
      after it, for the block it was seen in, fails. */
  ghost predicate BecomesActive(tape: seq<StatusRead>, i: nat) {
    exists k :: i <= k && FirstActive(tape, i, k)
  }

  ghost predicate FirstActive(tape: seq<StatusRead>, i: nat, k: nat) {
    && k + 1 < |tape| && tape[k] == Read(Some(Active)) && tape[k + 1].Read?
    && forall j :: i <= j < k ==> tape[j].Read? && tape[j] != Read(Some(Active))
  }

  /** The plan's steps, from the first finalized read. */
  function StepsFor(p: Key, first: StatusRead): (steps: seq<RegistryCall>) {
    if first.Read? && Plan(p, first.status).Some? then Plan(p, first.status).value else []
  }

  /** Succeeds exactly when the provider was already Active, or every planned step was accepted
      and an Active status was then read back; so never without having read one. */
  method EnsureActive(p: Key, nonce: nat, tape: seq<StatusRead>, accepts: nat -> bool)
    returns (ok: bool, sent: seq<Numbered<RegistryCall>>)
    requires tape != []
    ensures Sent(sent, StepsFor(p, tape[0]), nonce, accepts)
    ensures ok <==>
              || tape[0] == Read(Some(Active))
              || (StepsFor(p, tape[0]) != [] && AllAccepted(accepts, |StepsFor(p, tape[0])|) && BecomesActive(tape, 1))
    ensures ok ==> Read(Some(Active)) in tape
  {
    if tape[0].ReadError? { return false, []; }
    if tape[0].status == Some(Active) {
      assert tape[0] == Read(Some(Active));
      return true, [];
    }
    var plan := Plan(p, tape[0].status);
    if plan.None? { return false, []; }
    sent, ok := SubmitAll(plan.value, nonce, accepts);
    if ok { ok := WaitForActive(tape, 1); }
  }

  method WaitForActive(tape: seq<StatusRead>, first: nat) returns (ok: bool)
    requires first <= |tape|
    ensures ok <==> BecomesActive(tape, first)
    ensures ok ==> Read(Some(Active)) in tape
  {
    var i := first;
    while i < |tape|
      invariant first <= i <= |tape|
      invariant forall j :: first <= j < i ==> tape[j].Read? && tape[j] != Read(Some(Active))
    {
      if tape[i].ReadError? { return false; }
      if tape[i].status == Some(Active) {
        assert tape[i] == Read(Some(Active));
        assert FirstActive(tape, first, i) <==> i + 1 < |tape| && tape[i + 1].Read?;
        return i + 1 < |tape| && tape[i + 1].Read?;
      }
      i := i + 1;
    }
    return false;
  }
}
