/** Several reconcilers over one outbox (control-plane/internal/providerjoin/reconciler.go and
    postgres.go): nothing locks a due registration while a replica works on it.

    A reconciler may settle what it has fetched in any order. */
module Reconcilers {
  import opened Base
  import opened Join

  /** Reconciler `who` has fetched `item` and not settled it. */
  datatype Held = Held(who: nat, item: Item)

  datatype Replicas = Replicas(db: Db, held: set<Held>)

  datatype Step =
    | Begins(req: nat, hash: nat, ch: nat, c: Challenge)
    | Completes(q: Request)
    | Activates(provider: nat)
    | Fetches(who: nat, batch: seq<Item>, now: int)
    | Fails(h: Held, now: int, banned: bool, malformed: bool)
    | Drops(h: Held)

  function Init(): (s: Replicas) {
    Replicas(Join.Init().db, {})
  }

  predicate Idle(held: set<Held>, who: nat) {
    forall h :: h in held ==> h.who != who
  }

  function Taken(who: nat, batch: seq<Item>): (held: set<Held>) {
    set i | 0 <= i < |batch| :: Held(who, batch[i])
  }

  lemma TakenOne(who: nat, item: Item)
    ensures Taken(who, [item]) == {Held(who, item)}
  {
    assert [item][0] == item && Held(who, [item][0]) in Taken(who, [item]);
  }

  ghost function Apply(cfg: Config, s: Replicas, step: Step): (t: Replicas) {
    match step
    case Begins(req, hash, ch, c) => s.(db := Begin(s.db, req, hash, ch, c).0)
    case Completes(q) => s.(db := CompleteJoin(s.db, q).0)
    case Activates(pid) => s.(db := ActivateProvider(s.db, pid))
    case Fetches(who, batch, now) =>
      if Idle(s.held, who) && IsBatch(s.db, batch, now) then s.(held := s.held + Taken(who, batch)) else s
    case Fails(h, now, banned, malformed) =>
      if h !in s.held then s else Replicas(Fail(cfg, s.db, h.item, now, banned, malformed), s.held - {h})
    case Drops(h) => s.(held := s.held - {h})
  }

  ghost function Run(cfg: Config, s: Replicas, steps: seq<Step>): (t: Replicas)
    decreases |steps|
  {
    if steps == [] then s else Run(cfg, Apply(cfg, s, steps[0]), steps[1..])
  }

  lemma {:induction false} RunConcat(cfg: Config, s: Replicas, steps: seq<Step>, more: seq<Step>)
    ensures Run(cfg, s, steps + more) == Run(cfg, Run(cfg, s, steps), more)
    decreases |steps|
  {
    if steps == [] {
      assert steps + more == more;
    } else {
      assert (steps + more)[1..] == steps[1..] + more;
      RunConcat(cfg, Apply(cfg, s, steps[0]), steps[1..], more);
    }
  }

  lemma Next(cfg: Config, s: Replicas, steps: seq<Step>, step: Step)
    ensures Run(cfg, s, steps + [step]) == Apply(cfg, Run(cfg, s, steps), step)
  {
    var t := Run(cfg, s, steps);
    RunConcat(cfg, s, steps, [step]);
    assert [step][1..] == [] && Run(cfg, Apply(cfg, t, step), []) == Apply(cfg, t, step);
  }

  // ----- exactly when the attempt budget holds -----

  ghost predicate InBudget(cfg: Config, db: Db) {
    forall pid :: pid in db.outbox ==> WithinBudget(cfg, db.outbox[pid])
  }

  /** Records a failure on a row whose attempts are used up, or its last attempt as one more to
      come, having fetched it with fewer. */
  predicate Overruns(cfg: Config, s: Replicas, step: Step) {
    && step.Fails? && step.h in s.held && step.h.item.provider in s.db.outbox
    && var used := s.db.outbox[step.h.item.provider].attempts;
       || used == cfg.maxAttempts
       || (used + 1 == cfg.maxAttempts && step.h.item.attempts + 1 < cfg.maxAttempts && !step.malformed)
  }

  lemma FailBudget(cfg: Config, db: Db, item: Item, now: int, banned: bool, malformed: bool)
    requires InBudget(cfg, db) && item.provider in db.outbox
    ensures var used := db.outbox[item.provider].attempts;
            InBudget(cfg, Fail(cfg, db, item, now, banned, malformed)) <==>
              !(|| used == cfg.maxAttempts
                || (used + 1 == cfg.maxAttempts && item.attempts + 1 < cfg.maxAttempts && !malformed))
  {
    var t := Fail(cfg, db, item, now, banned, malformed);
    assert WithinBudget(cfg, db.outbox[item.provider]);
    forall pid | pid in t.outbox && pid != item.provider ensures WithinBudget(cfg, t.outbox[pid]) {
      assert t.outbox[pid] == db.outbox[pid];
    }
    if InBudget(cfg, t) { assert WithinBudget(cfg, t.outbox[item.provider]); }
  }

  lemma BudgetStep(cfg: Config, s: Replicas, step: Step)
    requires IsConfig(cfg) && InBudget(cfg, s.db)
    ensures InBudget(cfg, Apply(cfg, s, step).db) <==> !Overruns(cfg, s, step)
  {
    if step.Fails? && step.h in s.held && step.h.item.provider in s.db.outbox {
      FailBudget(cfg, s.db, step.h.item, step.now, step.banned, step.malformed);
    }
  }

  ghost predicate InBudgetThroughout(cfg: Config, steps: seq<Step>) {
    forall k: nat :: k <= |steps| ==> InBudget(cfg, Run(cfg, Init(), steps[..k]).db)
  }

  ghost predicate NeverOverrun(cfg: Config, steps: seq<Step>) {
    forall k: nat :: k < |steps| ==> !Overruns(cfg, Run(cfg, Init(), steps[..k]), steps[k])
  }

  /** In every run of any number of reconcilers, attempts stay within the budget at all times if
      and only if no failure is recorded on a row whose attempts are used up, nor a last attempt
      recorded as one more to come. */
  lemma BudgetIff(cfg: Config, steps: seq<Step>)
    requires IsConfig(cfg)
    ensures InBudgetThroughout(cfg, steps) <==> NeverOverrun(cfg, steps)
  {
    ghost var good := (k: nat) => k <= |steps| && InBudget(cfg, Run(cfg, Init(), steps[..k]).db);
    ghost var bad := (k: nat) => k < |steps| && Overruns(cfg, Run(cfg, Init(), steps[..k]), steps[k]);
    assert steps[..0] == [] && Run(cfg, Init(), []) == Init();
    forall k: nat | k < |steps| && good(k) ensures good(k + 1) <==> !bad(k) {
      assert steps[..k + 1] == steps[..k] + [steps[k]];
      Next(cfg, Init(), steps[..k], steps[k]);
      BudgetStep(cfg, Run(cfg, Init(), steps[..k]), steps[k]);
    }
    Throughout(good, good, bad, |steps|);
    if InBudgetThroughout(cfg, steps) {
      forall k: nat | k <= |steps| ensures good(k) { }
      forall k: nat | k < |steps| ensures !Overruns(cfg, Run(cfg, Init(), steps[..k]), steps[k]) { assert !bad(k); }
    } else {
      var k: nat :| k <= |steps| && !InBudget(cfg, Run(cfg, Init(), steps[..k]).db);
      assert !good(k);
      var j: nat :| j < |steps| && bad(j);
      assert Overruns(cfg, Run(cfg, Init(), steps[..j]), steps[j]);
    }
  }

  // ----- no registration held twice -----

  ghost predicate Current(cfg: Config, outbox: map<nat, Row>, item: Item) {
    item.provider in outbox && item.attempts == outbox[item.provider].attempts < cfg.maxAttempts
  }

  /** Each registration is held once, as it is. */
  ghost predicate HeldOnce(cfg: Config, s: Replicas) {
    && (forall h :: h in s.held ==> Current(cfg, s.db.outbox, h.item))
    && (forall h, g :: h in s.held && g in s.held && h.item.provider == g.item.provider ==> h == g)
  }

  /** Nothing in the batch is held already. */
  ghost predicate Exclusive(s: Replicas, step: Step) {
    step.Fetches? && Idle(s.held, step.who) ==>
      forall i, h :: 0 <= i < |step.batch| && h in s.held ==> step.batch[i].provider != h.item.provider
  }

  lemma FetchHolds(cfg: Config, s: Replicas, who: nat, batch: seq<Item>, now: int)
    requires InBudget(cfg, s.db) && HeldOnce(cfg, s) && IsBatch(s.db, batch, now)
    requires Idle(s.held, who) && Exclusive(s, Fetches(who, batch, now))
    ensures HeldOnce(cfg, s.(held := s.held + Taken(who, batch)))
  {
    forall h | h in Taken(who, batch) ensures Current(cfg, s.db.outbox, h.item) {
      assert WithinBudget(cfg, s.db.outbox[h.item.provider]);
    }
  }

  lemma HeldStep(cfg: Config, s: Replicas, step: Step)
    requires IsConfig(cfg) && InBudget(cfg, s.db) && HeldOnce(cfg, s) && Exclusive(s, step)
    ensures !Overruns(cfg, s, step) && HeldOnce(cfg, Apply(cfg, s, step))
  {
    if step.Fetches? && Idle(s.held, step.who) && IsBatch(s.db, step.batch, step.now) {
      FetchHolds(cfg, s, step.who, step.batch, step.now);
    }
  }

  /** If no registration is fetched while it is still held, by another replica or the same one,
      attempts stay within the budget. */
  lemma {:induction false} ExclusiveStaysInBudget(cfg: Config, s: Replicas, steps: seq<Step>)
    requires IsConfig(cfg) && InBudget(cfg, s.db) && HeldOnce(cfg, s)
    requires forall k: nat :: k < |steps| ==> Exclusive(Run(cfg, s, steps[..k]), steps[k])
    ensures InBudget(cfg, Run(cfg, s, steps).db)
    decreases |steps|
  {
    if steps != [] {
      var t := Apply(cfg, s, steps[0]);
      assert Exclusive(Run(cfg, s, steps[..0]), steps[0]) && steps[..0] == [];
      HeldStep(cfg, s, steps[0]);
      BudgetStep(cfg, s, steps[0]);
      forall k: nat | k < |steps[1..]| ensures Exclusive(Run(cfg, t, steps[1..][..k]), steps[1..][k]) {
        assert Exclusive(Run(cfg, s, steps[..k + 1]), steps[k + 1]);
        assert steps[..k + 1][1..] == steps[1..][..k] && steps[..k + 1][0] == steps[0];
      }
      ExclusiveStaysInBudget(cfg, t, steps[1..]);
    }
  }

  /** So with a single replica they always do. */
  lemma {:induction false} OneReplicaStaysInBudget(cfg: Config, s: Replicas, steps: seq<Step>, me: nat)
    requires IsConfig(cfg) && InBudget(cfg, s.db) && HeldOnce(cfg, s) && forall h :: h in s.held ==> h.who == me
    requires forall k :: 0 <= k < |steps| && steps[k].Fetches? ==> steps[k].who == me
    ensures InBudget(cfg, Run(cfg, s, steps).db)
    decreases |steps|
  {
    if steps != [] {
      assert Exclusive(s, steps[0]);
      HeldStep(cfg, s, steps[0]);
      BudgetStep(cfg, s, steps[0]);
      OneReplicaStaysInBudget(cfg, Apply(cfg, s, steps[0]), steps[1..], me);
    }
  }

  // ----- two replicas -----

  /** `pid` has failed `k` times, more are to come, and only replica 2 holds it, from the start. */
  ghost predicate Waiting(s: Replicas, pid: nat, k: nat) {
    && pid in s.db.outbox && s.db.outbox[pid].attempts == k && s.db.outbox[pid].state in {Ready, Retry}
    && s.held == {Held(2, Item(pid, 0))}
  }

  function DueTime(r: Row): (now: int) {
    if r.next.Some? then r.next.value else 0
  }

  /** Replica 1 fetches the registration and fails. */
  lemma FailsOnce(cfg: Config, s: Replicas, pid: nat, k: nat) returns (fetch: Step, fail: Step)
    requires Waiting(s, pid, k)
    ensures var t := Apply(cfg, Apply(cfg, s, fetch), fail);
            && pid in t.db.outbox && t.db.outbox[pid].attempts == k + 1 && t.held == s.held
            && t.db.outbox[pid].state == (if k + 1 >= cfg.maxAttempts then Failed else Retry)
  {
    var item := Item(pid, k);
    fetch := Fetches(1, [item], DueTime(s.db.outbox[pid]));
    fail := Fails(Held(1, item), 0, false, false);
    TakenOne(1, item);
    var u := Apply(cfg, s, fetch);
    assert u == s.(held := s.held + {Held(1, item)});
  }

  lemma {:induction false} FailsUp(cfg: Config, init: Replicas, before: seq<Step>, pid: nat, k: nat)
    returns (steps: seq<Step>)
    requires k < cfg.maxAttempts && Waiting(Run(cfg, init, before), pid, k)
    ensures var t := Run(cfg, init, steps);
            && pid in t.db.outbox && t.db.outbox[pid].attempts == cfg.maxAttempts && t.db.outbox[pid].state == Failed
            && t.held == {Held(2, Item(pid, 0))}
    decreases cfg.maxAttempts - k
  {
    var fetch, fail := FailsOnce(cfg, Run(cfg, init, before), pid, k);
    Next(cfg, init, before, fetch);
    Next(cfg, init, before + [fetch], fail);
    steps := before + [fetch] + [fail];
    if k + 1 < cfg.maxAttempts { steps := FailsUp(cfg, init, steps, pid, k + 1); }
  }

  /** For every configuration: replica 2 holds a new registration while replica 1 fails it until
      it is FAILED with every attempt used up, and then fails too.  One attempt more than
      allowed is counted, and unless only one is allowed the row is back in RETRY. */
  lemma TwoReplicasOverrun(cfg: Config, pid: nat) returns (steps: seq<Step>, last: Step)
    requires IsConfig(cfg)
    ensures var s, t := Run(cfg, Init(), steps), Run(cfg, Init(), steps + [last]);
            && pid in s.db.outbox && s.db.outbox[pid].state == Failed && s.db.outbox[pid].attempts == cfg.maxAttempts
            && pid in t.db.outbox && t.db.outbox[pid].attempts == cfg.maxAttempts + 1
            && t.db.outbox[pid].state == (if cfg.maxAttempts == 1 then Failed else Retry)
            && !InBudget(cfg, t.db)
  {
    var begin, complete := Begins(0, 0, 0, Challenge(0, 0, 1, None)), Completes(Request(0, 0, 0, 0, 0, pid, 0));
    var fetch := Fetches(2, [Item(pid, 0)], 0);
    steps := [];
    Next(cfg, Init(), steps, begin);
    steps := steps + [begin];
    Next(cfg, Init(), steps, complete);
    steps := steps + [complete];
    TakenOne(2, Item(pid, 0));
    Next(cfg, Init(), steps, fetch);
    steps := steps + [fetch];
    steps := FailsUp(cfg, Init(), steps, pid, 0);
    last := Fails(Held(2, Item(pid, 0)), 0, false, false);
    Next(cfg, Init(), steps, last);
    var t := Run(cfg, Init(), steps + [last]);
    assert t.db.outbox[pid].attempts == cfg.maxAttempts + 1 && !WithinBudget(cfg, t.db.outbox[pid]);
  }
}
