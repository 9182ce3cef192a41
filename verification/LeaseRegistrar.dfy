/** The calls that make a lease Active or Completed
    (control-plane/internal/blockchainbridge/registrar.go), against the pallet that executes
    them (blockchain/pallets/lease/src/lib.rs). */
module LeaseRegistrar {
  import opened Base
  import opened LeasePallet
  import R = Registrar

  datatype LeaseRead = LeaseError | NoLease | Have(lease: Lease)

  datatype LeaseCall = Create | Activate | Complete

  const MAX_DURATION: nat := 1_000_000

  /** validateLease: the lease stored is the lease asked for. */
  predicate Matches(l: Lease, account: string, provider: string, hash: string, duration: nat) {
    l.provider == provider && l.consumer == account && l.hash == hash && l.end >= l.start && l.end - l.start == duration
  }

  /** What is asked of the chain, as a lease. */
  datatype Wanted = Wanted(account: string, provider: string, hash: string, duration: nat)

  predicate Fits(l: Lease, w: Wanted) {
    Matches(l, w.account, w.provider, w.hash, w.duration)
  }

  /** The first matching Active lease read from `i` on, unless a read fails or shows another. */
  function AwaitActive(w: Wanted, tape: seq<LeaseRead>, i: nat): (r: Option<Lease>)
    ensures r.Some? ==> Have(r.value) in tape && r.value.state == Active && Fits(r.value, w)
    decreases |tape| - i
  {
    if i >= |tape| || tape[i].LeaseError? then None
    else if tape[i].NoLease? then AwaitActive(w, tape, i + 1)
    else if !Fits(tape[i].lease, w) then None
    else if tape[i].lease.state == Active then Some(tape[i].lease)
    else AwaitActive(w, tape, i + 1)
  }

  /** A lease is awaited until it is read Active, whatever was there before it: nothing, or the lease
      asked for in another state. */
  lemma {:induction false} AwaitActiveIff(w: Wanted, tape: seq<LeaseRead>, i: nat, l: Lease)
    ensures AwaitActive(w, tape, i) == Some(l) <==>
              exists k :: i <= k < |tape| && tape[k] == Have(l) && Fits(l, w) && l.state == Active
                          && forall j :: i <= j < k ==>
                               tape[j] == NoLease
                               || (tape[j].Have? && Fits(tape[j].lease, w) && tape[j].lease.state != Active)
    decreases |tape| - i
  {
    if i < |tape| { AwaitActiveIff(w, tape, i + 1, l); }
  }

  /** Creation only when there is no lease; activation of what is new or Created and matches. */
  function LeaseSteps(w: Wanted, first: LeaseRead): (steps: seq<LeaseCall>) {
    match first
    case LeaseError => []
    case NoLease => [Create, Activate]
    case Have(lease) => if Fits(lease, w) && lease.state == Created then [Activate] else []
  }

  /** Returns a lease exactly when one was already Active, or the steps for the first read were
      all accepted and it was then read back Active; always the lease asked for. */
  method EnsureLeaseActive(w: Wanted, nonce: nat, tape: seq<LeaseRead>, accepts: nat -> bool)
    returns (r: Option<Lease>, sent: seq<R.Numbered<LeaseCall>>)
    requires tape != []
    ensures if 1 <= w.duration <= 1_000_000 then R.Sent(sent, LeaseSteps(w, tape[0]), nonce, accepts) else sent == []
    ensures r == if w.duration == 0 || w.duration > 1_000_000 then None
                 else if tape[0].Have? && Fits(tape[0].lease, w)
                     && tape[0].lease.state == Active then Some(tape[0].lease)
                 else if LeaseSteps(w, tape[0]) != []
                     && R.AllAccepted(accepts, |LeaseSteps(w, tape[0])|) then AwaitActive(w, tape, 1)
                 else None
    ensures r.Some? ==> Have(r.value) in tape && r.value.state == Active && Fits(r.value, w)
  {
    if w.duration == 0 || w.duration > MAX_DURATION { return None, []; }
    if tape[0].LeaseError? { return None, []; }
    if tape[0].Have? {
      var lease := tape[0].lease;
      if !Fits(lease, w) { return None, []; }
      if lease.state == Active {
        assert Have(lease) in tape;
        return Some(lease), [];
      }
      if lease.state != Created { return None, []; }
    }
    var ok;
    sent, ok := R.SubmitAll(if tape[0].NoLease? then [Create, Activate] else [Activate], nonce, accepts);
    if !ok { return None, sent; }
    var i := 1;
    while i < |tape|
      invariant 1 <= i <= |tape| && AwaitActive(w, tape, 1) == AwaitActive(w, tape, i)
    {
      if tape[i].LeaseError? { return None, sent; }
      if tape[i].Have? {
        var lease := tape[i].lease;
        if !Fits(lease, w) { return None, sent; }
        if lease.state == Active { return Some(lease), sent; }
      }
      i := i + 1;
    }
    return None, sent;
  }

  /** The same lease but for its state. */
  predicate SameIdentity(a: Lease, b: Lease) {
    a.provider == b.provider && a.consumer == b.consumer && a.hash == b.hash && a.start == b.start && a.end == b.end
  }

  /** The lease, once read Completed from `i` on, with only Active ones before it. */
  function AwaitCompleted(expected: Lease, tape: seq<LeaseRead>, i: nat): (r: Option<Lease>)
    ensures r.Some? ==> Have(r.value) in tape && r.value.state == Completed && SameIdentity(r.value, expected)
    decreases |tape| - i
  {
    if i >= |tape| || !tape[i].Have? || !SameIdentity(tape[i].lease, expected) then None
    else if tape[i].lease.state == Completed then Some(tape[i].lease)
    else if tape[i].lease.state == Active then AwaitCompleted(expected, tape, i + 1)
    else None
  }

  /** A lease is awaited until it is read Completed, having been read Active until then. */
  lemma {:induction false} AwaitCompletedIff(expected: Lease, tape: seq<LeaseRead>, i: nat, l: Lease)
    ensures AwaitCompleted(expected, tape, i) == Some(l) <==>
              exists k :: i <= k < |tape| && tape[k] == Have(l) && SameIdentity(l, expected) && l.state == Completed
                          && forall j :: i <= j < k ==>
                               tape[j].Have? && SameIdentity(tape[j].lease, expected) && tape[j].lease.state == Active
    decreases |tape| - i
  {
    if i < |tape| { AwaitCompletedIff(expected, tape, i + 1, l); }
  }

  /** Returns the lease Completed: at once, submitting nothing, if it already is, else after one
      accepted call, if it is then read back so without any other change. */
  method EnsureLeaseCompleted(account: string, nonce: nat, tape: seq<LeaseRead>, accepts: nat -> bool)
    returns (r: Option<Lease>, sent: seq<R.Numbered<LeaseCall>>)
    requires tape != []
    ensures sent == if tape[0].Have? && tape[0].lease.consumer == account && tape[0].lease.state == Active
                    then [R.Numbered(nonce, Complete)] else []
    ensures r == if !tape[0].Have? || tape[0].lease.consumer != account then None
                 else if tape[0].lease.state == Completed then Some(tape[0].lease)
                 else if tape[0].lease.state == Active && accepts(0) then AwaitCompleted(tape[0].lease, tape, 1)
                 else None
    ensures r.Some? ==> Have(r.value) in tape && r.value.state == Completed && SameIdentity(r.value, tape[0].lease)
  {
    if !tape[0].Have? { return None, []; }
    var expected := tape[0].lease;
    if expected.consumer != account { return None, []; }
    if expected.state == Completed {
      assert Have(expected) in tape;
      return Some(expected), [];
    }
    if expected.state != Active { return None, []; }
    sent := [R.Numbered(nonce, Complete)];
    if !accepts(0) { return None, sent; }
    var i := 1;
    while i < |tape|
      invariant 1 <= i <= |tape| && AwaitCompleted(expected, tape, 1) == AwaitCompleted(expected, tape, i)
    {
      if !tape[i].Have? { return None, sent; }
      var lease := tape[i].lease;
      if !SameIdentity(lease, expected) { return None, sent; }
      if lease.state == Completed { return Some(lease), sent; }
      if lease.state != Active { return None, sent; }
      i := i + 1;
    }
    return None, sent;
  }

  /** What the lease pallet makes of a call for lease `id` at block `now`. */
  function Executed(leases: Leases, c: LeaseCall, id: nat, account: string, provider: string, hash: string,
                    duration: nat, now: nat, eligible: bool, maxDuration: nat): (r: Leases)
  {
    match c
    case Create => CreateLease(leases, id, provider, account, hash, duration, now, eligible, maxDuration)
    case Activate => UpdateLeaseState(leases, id, Active, now)
    case Complete => UpdateLeaseState(leases, id, Completed, now)
  }

  /** Created and activated in blocks `now` and `later`, a new lease ends up Active and the one
      asked for exactly when the provider is eligible and the term fits. */
  lemma NewLeaseWorksIff(leases: Leases, id: nat, account: string, provider: string, hash: string, duration: nat,
                         now: nat, later: nat, eligible: bool, maxDuration: nat)
    requires id !in leases && 0 < duration <= MAX_DURATION
    ensures var t := Executed(leases, Create, id, account, provider, hash, duration, now, eligible, maxDuration);
            var u := Executed(t, Activate, id, account, provider, hash, duration, later, eligible, maxDuration);
            (id in u && u[id].state == Active && Matches(u[id], account, provider, hash, duration)) <==>
              eligible && duration <= maxDuration && now + duration <= MAX_BLOCK
  {
  }

  function ExecutedAll(leases: Leases, calls: seq<LeaseCall>, id: nat, w: Wanted, now: nat, eligible: bool,
                       maxDuration: nat): (r: Leases)
    decreases |calls|
  {
    if calls == [] then leases
    else
      var t := Executed(leases, calls[0], id, w.account, w.provider, w.hash, w.duration, now, eligible, maxDuration);
      ExecutedAll(t, calls[1..], id, w, now, eligible, maxDuration)
  }

  /** The steps for what is stored, executed in one block, leave the lease Active and as asked for
      exactly when it is that already, or it is there as asked for and Created, or it is not there
      and can be created; they touch no lease that is there but is not both Created and as asked
      for. */
  lemma StepsWorkIff(leases: Leases, id: nat, w: Wanted, now: nat, eligible: bool, maxDuration: nat)
    requires 0 < w.duration <= MAX_DURATION
    ensures var steps := LeaseSteps(w, if id in leases then Have(leases[id]) else NoLease);
            var u := ExecutedAll(leases, steps, id, w, now, eligible, maxDuration);
            && (id in u && u[id].state == Active && Fits(u[id], w) <==>
                  if id in leases then Fits(leases[id], w) && leases[id].state in {Created, Active}
                  else eligible && w.duration <= maxDuration && now + w.duration <= MAX_BLOCK)
            && (id in leases && !(Fits(leases[id], w) && leases[id].state == Created) ==> steps == [] && u == leases)
  {
    assert [Create, Activate][1..] == [Activate];
    var t := Executed(leases, Create, id, w.account, w.provider, w.hash, w.duration, now, eligible, maxDuration);
    if id !in leases {
      NewLeaseWorksIff(leases, id, w.account, w.provider, w.hash, w.duration, now, now, eligible, maxDuration);
      assert ExecutedAll(leases, [Create, Activate], id, w, now, eligible, maxDuration)
          == ExecutedAll(t, [Activate], id, w, now, eligible, maxDuration);
    }
  }

  /** A lease read back as Created and matching needs only the activation; an Active one needs
      only completion; either ends in its state with its identity kept. */
  lemma StoredLeaseWorks(leases: Leases, id: nat, account: string, provider: string, hash: string, duration: nat,
                         now: nat)
    requires id in leases && Matches(leases[id], account, provider, hash, duration)
    ensures leases[id].state == Created ==>
              var u := Executed(leases, Activate, id, account, provider, hash, duration, now, true, 0);
              u[id].state == Active && Matches(u[id], account, provider, hash, duration)
    ensures leases[id].state == Active ==>
              var u := Executed(leases, Complete, id, account, provider, hash, duration, now, true, 0);
              u[id].state == Completed && SameIdentity(u[id], leases[id])
  {
  }
}
