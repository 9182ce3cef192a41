/** The reconciler as the object it is: two maps it mutates across passes
    (control-plane/internal/resourcemarket/reconciler.go). */
module MarketReconciler {
  import opened Market

  class Reconciler {
    const limit: nat
    var offering: map<Id, Key>
    var withdrawAttempts: map<Id, nat>

    ghost function Abstract(): (s: State)
      reads this
    {
      State(offering, withdrawAttempts)
    }

    ghost predicate Valid()
      reads this
    {
      Counted(limit, Abstract())
    }

    constructor (limit: nat)
      ensures Valid() && this.limit == limit && Abstract() == State(map[], map[])
    {
      this.limit, offering, withdrawAttempts := limit, map[], map[];
    }

    /** The first loop: announce, and track what is offered. */
    method AnnounceAll(w: World) returns (seen: set<Id>, calls: seq<Advert>)
      modifies this`offering
      ensures Abstract() == AfterAnnouncing(w, old(Abstract()))
      ensures seen == Seen(w.providers) && calls == Announced(w, w.providers)
    {
      seen, calls := {}, [];
      for i := 0 to |w.providers|
        invariant offering == Offering(w, w.providers[..i], old(offering))
        invariant seen == Seen(w.providers[..i]) && calls == Announced(w, w.providers[..i])
      {
        var a := w.providers[i];
        assert w.providers[..i + 1][..i] == w.providers[..i];
        SeenNext(w.providers, i);
        if Usable(a) {
          seen := seen + {a.id};
          if w.readOk(a.id) {
            if Published(w.offers, a) {
              offering := offering[a.id := a.key.value];
            } else {
              calls := calls + [a];
              if w.submitOk(a.id) { offering := offering[a.id := a.key.value]; }
            }
          }
        }
      }
      assert w.providers[..|w.providers|] == w.providers;
    }

    /** One tracked provider's turn in the second loop. */
    method VisitOne(w: World, seen: set<Id>, id: Id) returns (submitted: bool)
      requires id in offering && (id in withdrawAttempts ==> withdrawAttempts[id] >= 1)
      modifies this
      ensures var v := VisitOf(w, seen, limit, id, old(offering)[id], Tries(old(withdrawAttempts), id));
              && submitted == v.submitted
              && offering == (if v.keep then old(offering) else old(offering) - {id})
              && withdrawAttempts ==
                  (if v.tries > 0 then old(withdrawAttempts)[id := v.tries] else old(withdrawAttempts) - {id})
    {
      submitted := false;
      var tries := Tries(withdrawAttempts, id);
      if id in seen {
        withdrawAttempts := withdrawAttempts - {id};
        return;
      }
      if !w.readOk(id) { return; }
      if offering[id] !in w.offers {
        offering := offering - {id};
        withdrawAttempts := withdrawAttempts - {id};
        return;
      }
      if tries >= limit { return; }
      submitted := true;
      if !w.submitOk(id) {
        withdrawAttempts := withdrawAttempts[id := tries + 1];
        return;
      }
      offering := offering - {id};
      withdrawAttempts := withdrawAttempts - {id};
    }

    /** The second loop, over the tracked providers in any order, deleting as it goes. */
    method WithdrawAll(w: World, seen: set<Id>) returns (withdrawn: set<Id>)
      requires Valid() && seen == Seen(w.providers)
      modifies this
      ensures Abstract() == Visited(w, limit, old(Abstract())) && withdrawn == Withdrawn(w, limit, old(Abstract()))
    {
      ghost var s := Abstract();
      ghost var visits := map id | id in s.offering :: VisitAt(w, limit, s, id);
      withdrawn := {};
      var todo := offering.Keys;
      while todo != {}
        invariant Progress(s, visits, Abstract(), todo, withdrawn)
        decreases |todo|
      {
        var id :| id in todo;
        assert Untouched(s, Abstract(), id);
        ghost var u, before := Abstract(), withdrawn;
        var submitted := VisitOne(w, seen, id);
        if submitted { withdrawn := withdrawn + {id}; }
        VisitTouchesOne(s, visits, u, Abstract(), id, todo, before);
        todo := todo - {id};
      }
      AllVisited(w, limit, s, visits, Abstract(), withdrawn);
    }

    /** A pass whose list and head reads succeeded. */
    method ReconcileOnce(w: World) returns (announced: seq<Advert>, withdrawn: set<Id>)
      requires Valid()
      modifies this
      ensures Valid() && Abstract() == Apply(limit, old(Abstract()), Against(w))
      ensures announced == Announced(w, w.providers)
      ensures withdrawn == Withdrawn(w, limit, AfterAnnouncing(w, old(Abstract()))) && withdrawn !! Seen(w.providers)
    {
      PassKeeps(limit, Abstract(), Against(w));
      OfferingKeeps(w, w.providers, offering);
      var seen;
      seen, announced := AnnounceAll(w);
      withdrawn := WithdrawAll(w, seen);
    }
  }

  /** `t` says of `id` what its visit left. */
  ghost predicate Says(s: State, v: Visit, t: State, id: Id)
    requires id in s.offering
  {
    && (id in t.offering <==> v.keep) && (v.keep ==> t.offering[id] == s.offering[id])
    && (id in t.attempts <==> v.tries > 0) && (v.tries > 0 ==> t.attempts[id] == v.tries)
  }

  ghost predicate Untouched(s: State, t: State, id: Id) {
    && id in s.offering && id in t.offering && t.offering[id] == s.offering[id]
    && (id in t.attempts <==> id in s.attempts) && (id in s.attempts ==> t.attempts[id] == s.attempts[id])
  }

  /** Those in `todo` are as they were, and the others as their visits left them. */
  ghost predicate Progress(s: State, visits: map<Id, Visit>, t: State, todo: set<Id>, withdrawn: set<Id>) {
    && visits.Keys == s.offering.Keys && todo <= s.offering.Keys && t.offering.Keys <= s.offering.Keys
        && t.attempts.Keys <= s.offering.Keys
    && (forall id :: id in todo ==> Untouched(s, t, id))
    && (forall id :: id in s.offering && id !in todo ==> Says(s, visits[id], t, id))
    && (forall id :: id in withdrawn <==> id in s.offering && id !in todo && visits[id].submitted)
  }

  lemma VisitTouchesOne(s: State, visits: map<Id, Visit>, u: State, t: State, id: Id, todo: set<Id>, withdrawn: set<Id>)
    requires Progress(s, visits, u, todo, withdrawn) && id in todo
    requires t.offering == if visits[id].keep then u.offering else u.offering - {id}
    requires t.attempts == if visits[id].tries > 0 then u.attempts[id := visits[id].tries] else u.attempts - {id}
    ensures Progress(s, visits, t, todo - {id}, if visits[id].submitted then withdrawn + {id} else withdrawn)
  {
    forall x | x in todo - {id} ensures Untouched(s, t, x) { assert Untouched(s, u, x); }
    forall x | x in s.offering && x !in todo - {id} ensures Says(s, visits[x], t, x) {
      if x != id { assert Says(s, visits[x], u, x); } else { assert Untouched(s, u, x); }
    }
  }

  lemma OfferingVisited(w: World, limit: nat, s: State, visits: map<Id, Visit>, t: State, withdrawn: set<Id>)
    requires Progress(s, visits, t, {}, withdrawn)
    requires forall id :: id in s.offering ==> visits[id] == VisitAt(w, limit, s, id)
    ensures t.offering == Visited(w, limit, s).offering
  {
    forall id | id in s.offering
      ensures (id in t.offering <==> visits[id].keep) && (id in t.offering ==> t.offering[id] == s.offering[id])
    {
      assert Says(s, visits[id], t, id);
    }
  }

  lemma AttemptsVisited(w: World, limit: nat, s: State, visits: map<Id, Visit>, t: State, withdrawn: set<Id>)
    requires Progress(s, visits, t, {}, withdrawn)
    requires forall id :: id in s.offering ==> visits[id] == VisitAt(w, limit, s, id)
    ensures t.attempts == Visited(w, limit, s).attempts
  {
    forall id | id in s.offering
      ensures (id in t.attempts <==> visits[id].tries > 0) && (id in t.attempts ==> t.attempts[id] == visits[id].tries)
    {
      assert Says(s, visits[id], t, id);
    }
  }

  lemma AllVisited(w: World, limit: nat, s: State, visits: map<Id, Visit>, t: State, withdrawn: set<Id>)
    requires Progress(s, visits, t, {}, withdrawn)
    requires forall id :: id in s.offering ==> visits[id] == VisitAt(w, limit, s, id)
    ensures t == Visited(w, limit, s) && withdrawn == Withdrawn(w, limit, s)
  {
    OfferingVisited(w, limit, s, visits, t, withdrawn);
    AttemptsVisited(w, limit, s, visits, t, withdrawn);
  }

  lemma SeenNext(providers: seq<Advert>, i: nat)
    requires i < |providers|
    ensures Seen(providers[..i + 1]) == Seen(providers[..i]) + if Usable(providers[i]) then {providers[i].id} else {}
  {
    forall x | x in Seen(providers[..i + 1]) ensures x in Seen(providers[..i])
        || (Usable(providers[i]) && x == providers[i].id) {
      var k :| 0 <= k < i + 1 && Usable(providers[..i + 1][k]) && x == providers[..i + 1][k].id;
      if k < i { assert providers[..i][k] == providers[k]; }
    }
    forall x | x in Seen(providers[..i]) ensures x in Seen(providers[..i + 1]) {
      var k :| 0 <= k < i && Usable(providers[..i][k]) && x == providers[..i][k].id;
      assert providers[..i + 1][k] == providers[k];
    }
    if Usable(providers[i]) { assert providers[..i + 1][i] == providers[i]; }
  }
}
