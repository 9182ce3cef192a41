/** The provider registry's bonds over whole runs, and what they mean for a provider that joins
    (blockchain/pallets/provider-registry/src/lib.rs). */
module RegistryRuns {
  import opened Base
  import opened Registrar

  /** `allowed` is the origin, escrow, validator, balance and unbonding checks, taken together. */
  datatype Step =
    | Register(owner: Key, key: Key)
    | Transition(provider: Key, to: Status)
    | BondStake(who: Key, amount: nat, allowed: bool)
    | WithdrawUnbonded(who: Key, allowed: bool)
    | SlashBond(provider: Key, amount: nat)

  function New(minStake: nat): (r: Registry) {
    Registry(map[], map[], map[], minStake)
  }

  function Bond(r: Registry, who: Key, amount: nat, allowed: bool): (t: Registry) {
    if !allowed || who !in r.status || (who !in r.bonds && amount < r.minStake) then r
    else r.(bonds := r.bonds[who := Bonded(r, who) + amount])
  }

  /** A slash that leaves too little suspends an Active provider. */
  function Slash(r: Registry, p: Key, amount: nat): (t: Registry) {
    if p !in r.bonds || amount == 0 then r
    else
      var stake := if amount <= r.bonds[p] then r.bonds[p] - amount else 0;
      var suspends := stake < r.minStake && p in r.status && r.status[p] == Active;
      r.(bonds := r.bonds[p := stake], status := if suspends then r.status[p := Suspended] else r.status)
  }

  function Apply(r: Registry, step: Step): (t: Registry) {
    match step
    case Register(owner, key) =>
      if IsZero(key) || owner in r.status || key in r.ownerOf then r
      else r.(status := r.status[owner := Registered], ownerOf := r.ownerOf[key := owner])
    case Transition(p, to) => Dispatch(r, SetStatus(p, to))
    case BondStake(who, amount, allowed) => Bond(r, who, amount, allowed)
    case WithdrawUnbonded(who, allowed) => if allowed && who in r.bonds then r.(bonds := r.bonds - {who}) else r
    case SlashBond(p, amount) => Slash(r, p, amount)
  }

  function Run(r: Registry, steps: seq<Step>): (t: Registry)
    decreases |steps|
  {
    if steps == [] then r else Run(Apply(r, steps[0]), steps[1..])
  }

  /** What each step does, and when: a registration takes a key that is not all zero and not taken,
      for an owner not registered; a first bond is at least the minimum; a withdrawal takes the
      whole bond; a slash takes what there is of its amount, and suspends an Active provider it
      leaves with less than the minimum. */
  lemma StepIs(r: Registry, step: Step)
    ensures var t := Apply(r, step);
            match step
            case Register(owner, key) =>
              if (exists i :: 0 <= i < |key| && key[i] != 0) && owner !in r.status && key !in r.ownerOf
              then t == r.(status := r.status[owner := Registered], ownerOf := r.ownerOf[key := owner]) else t == r
            case Transition(p, to) => t == Dispatch(r, SetStatus(p, to))
            case BondStake(who, amount, allowed) =>
              if allowed && who in r.status && (who in r.bonds || amount >= r.minStake)
              then Bonded(t, who) == Bonded(r, who) + amount && who in t.bonds && t == r.(bonds := t.bonds)
                   && t.bonds - {who} == r.bonds - {who}
              else t == r
            case WithdrawUnbonded(who, allowed) =>
              if allowed then who !in t.bonds && t.bonds == r.bonds - {who} && t == r.(bonds := t.bonds) else t == r
            case SlashBond(p, amount) =>
              && Bonded(t, p) == (if amount <= Bonded(r, p) then Bonded(r, p) - amount else 0)
              && t.bonds.Keys == r.bonds.Keys && t.bonds - {p} == r.bonds - {p}
              && t == r.(bonds := t.bonds, status := t.status) && t.status - {p} == r.status - {p}
              && t.status.Keys == r.status.Keys
              && (p in r.status ==>
                    t.status[p] == if p in r.bonds && amount > 0 && r.status[p] == Active && Bonded(t, p) < r.minStake
                                   then Suspended else r.status[p])
  {
  }

  /** Only registered providers hold bonds, and every key's owner is registered. */
  ghost predicate Rooted(r: Registry) {
    r.bonds.Keys <= r.status.Keys && forall key :: key in r.ownerOf ==> r.ownerOf[key] in r.status
  }

  lemma ApplyKeeps(r: Registry, step: Step)
    requires Rooted(r)
    ensures Rooted(Apply(r, step)) && Apply(r, step).minStake == r.minStake
        && r.status.Keys <= Apply(r, step).status.Keys
  {
  }

  lemma {:induction false} RunKeeps(r: Registry, steps: seq<Step>)
    requires Rooted(r)
    ensures Rooted(Run(r, steps)) && Run(r, steps).minStake == r.minStake
    decreases |steps|
  {
    if steps != [] {
      ApplyKeeps(r, steps[0]);
      RunKeeps(Apply(r, steps[0]), steps[1..]);
    }
  }

  /** In every reachable registry a provider it does not know has no bond and cannot get one, so
      the steps planned for it make it Active exactly when the minimum stake is zero and its key
      is neither all zero nor registered by another. */
  lemma NewProviderWorksIff(minStake: nat, steps: seq<Step>, p: Key)
    requires StatusOf(Run(New(minStake), steps), p) == None
    ensures var r := Run(New(minStake), steps);
            && p !in r.bonds && (forall amount, allowed :: Bond(r, p, amount, allowed) == r)
            && (StatusOf(DispatchAll(r, Plan(p, None).value), p) == Some(Active) <==>
                  minStake == 0 && !IsZero(p) && p !in r.ownerOf)
  {
    var r := Run(New(minStake), steps);
    RunKeeps(New(minStake), steps);
    PlanWorksIff(r, p);
  }

  // ----- whether an Active provider's bond covers the minimum stake -----

  ghost predicate Covered(r: Registry) {
    forall p :: p in r.status && r.status[p] == Active ==> Bonded(r, p) >= r.minStake
  }

  /** An Active provider withdraws its bond, or one whose bond does not cover the minimum is
      reinstated from suspension, which is not gated on it. */
  predicate Uncovers(r: Registry, step: Step) {
    match step
    case WithdrawUnbonded(who, allowed) => allowed && who in r.bonds && StatusOf(r, who) == Some(Active)
        && r.minStake > 0
    case Transition(p, to) => StatusOf(r, p) == Some(Suspended) && to == Active && Bonded(r, p) < r.minStake
    case _ => false
  }

  lemma CoveredStep(r: Registry, step: Step)
    requires Covered(r)
    ensures Covered(Apply(r, step)) <==> !Uncovers(r, step)
  {
    var t := Apply(r, step);
    if Uncovers(r, step) {
      var p := if step.Transition? then step.provider else step.who;
      assert t.status[p] == Active && Bonded(t, p) < t.minStake;
    }
  }

  lemma {:induction false} RunExtend(r: Registry, steps: seq<Step>, k: nat)
    requires k < |steps|
    ensures Run(r, steps[..k + 1]) == Apply(Run(r, steps[..k]), steps[k])
    decreases |steps|
  {
    var rest := steps[1..];
    assert steps[..k + 1][1..] == rest[..k];
    if k > 0 {
      assert steps[..k][1..] == rest[..k - 1];
      RunExtend(Apply(r, steps[0]), rest, k - 1);
    }
  }

  ghost predicate CoveredThroughout(minStake: nat, steps: seq<Step>) {
    forall k: nat :: k <= |steps| ==> Covered(Run(New(minStake), steps[..k]))
  }

  ghost predicate NeverUncovered(minStake: nat, steps: seq<Step>) {
    forall k: nat :: k < |steps| ==> !Uncovers(Run(New(minStake), steps[..k]), steps[k])
  }

  /** In every run, Active providers' bonds cover the minimum stake at all times if and only if no
      step withdraws an Active provider's bond or reinstates one without enough. */
  lemma CoveredIff(minStake: nat, steps: seq<Step>)
    ensures CoveredThroughout(minStake, steps) <==> NeverUncovered(minStake, steps)
  {
    ghost var good := (k: nat) => k <= |steps| && Covered(Run(New(minStake), steps[..k]));
    ghost var bad := (k: nat) => k < |steps| && Uncovers(Run(New(minStake), steps[..k]), steps[k]);
    assert steps[..0] == [] && Run(New(minStake), []) == New(minStake);
    forall k: nat | k < |steps| && good(k) ensures good(k + 1) <==> !bad(k) {
      RunExtend(New(minStake), steps, k);
      CoveredStep(Run(New(minStake), steps[..k]), steps[k]);
    }
    Throughout(good, good, bad, |steps|);
    if CoveredThroughout(minStake, steps) {
      forall k: nat | k <= |steps| ensures good(k) { }
      forall k: nat | k < |steps| ensures !Uncovers(Run(New(minStake), steps[..k]), steps[k]) { assert !bad(k); }
    } else {
      var k: nat :| k <= |steps| && !Covered(Run(New(minStake), steps[..k]));
      assert !good(k);
      var j: nat :| j < |steps| && bad(j);
      assert Uncovers(Run(New(minStake), steps[..j]), steps[j]);
    }
  }

  /** For every positive minimum and usable key: registered, bonded, made Active, and then
      withdrawn, a provider is Active with no bond. */
  lemma ActiveWithoutBond(minStake: nat, p: Key)
    requires minStake > 0 && !IsZero(p)
    ensures var steps := [Register(p, p), Transition(p, Verified), BondStake(p, minStake, true),
                          Transition(p, Active), WithdrawUnbonded(p, true)];
            var r := Run(New(minStake), steps);
            StatusOf(r, p) == Some(Active) && Bonded(r, p) == 0
  {
    var steps := [Register(p, p), Transition(p, Verified), BondStake(p, minStake, true),
                          Transition(p, Active), WithdrawUnbonded(p, true)];
    RunExtend(New(minStake), steps, 0);
    RunExtend(New(minStake), steps, 1);
    RunExtend(New(minStake), steps, 2);
    RunExtend(New(minStake), steps, 3);
    RunExtend(New(minStake), steps, 4);
    assert steps[..0] == [] && steps[..5] == steps;
  }
}
