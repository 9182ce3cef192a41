/** The resource-market reconciler (control-plane/internal/resourcemarket/reconciler.go): one
    pass announces what schedulable providers offer and withdraws what has gone, against the
    pallet that executes the calls (blockchain/pallets/resource-market/src/lib.rs). */
module Market {
  import opened Base
  import opened Bytes

  datatype Id = Id(name: seq<Byte>)
  datatype Key = Key(bytes: seq<Byte>)

  datatype Offer = Offer(cpu: nat, ram: nat, storage: nat)

  /** Totals as the agent reports them; CPU already in millicores. */
  datatype Totals = Totals(cpu: int, ram: int, storage: int)

  /** `key` is None unless it has 32 bytes. */
  datatype Advert = Advert(id: Id, key: Option<Key>, totals: Option<Totals>)

  /** What a pass reads and meets: the providers, the offers at the finalized head, and for each
      provider whether its read and its submission succeed. */
  datatype World = World(providers: seq<Advert>, offers: map<Key, Offer>, readOk: Id -> bool, submitOk: Id -> bool)

  /** A list or head error ends a pass before it starts. */
  datatype Pass = Aborted | Against(world: World)

  /** The reconciler's memory: what it is offering, and failed withdrawals. */
  datatype State = State(offering: map<Id, Key>, attempts: map<Id, nat>)

  // ----- announcing -----

  function ClampToUint32(value: int): (r: nat)
    ensures r < U32
  {
    if value < 0 then 0 else if value >= U32 then U32 - 1 else value
  }

  /** An int64 converted to uint64. */
  function ToUint64(value: int): (r: nat) {
    if value >= 0 then value else value % U64
  }

  function Desired(t: Totals): (o: Offer) {
    Offer(ClampToUint32(t.cpu), ToUint64(t.ram), ToUint64(t.storage))
  }

  predicate Usable(a: Advert) {
    a.key.Some? && a.totals.Some?
  }

  predicate Published(offers: map<Key, Offer>, a: Advert)
    requires Usable(a)
  {
    a.key.value in offers && offers[a.key.value] == Desired(a.totals.value)
  }

  /** Its read succeeds and shows something else. */
  predicate Announces(w: World, a: Advert) {
    Usable(a) && w.readOk(a.id) && !Published(w.offers, a)
  }

  predicate Tracked(w: World, a: Advert) {
    Usable(a) && w.readOk(a.id) && (Published(w.offers, a) || w.submitOk(a.id))
  }

  function Seen(providers: seq<Advert>): (ids: set<Id>) {
    set i | 0 <= i < |providers| && Usable(providers[i]) :: providers[i].id
  }

  function Offering(w: World, providers: seq<Advert>, offering: map<Id, Key>): (r: map<Id, Key>) {
    if providers == [] then offering
    else
      var rest, a := Offering(w, providers[..|providers| - 1], offering), providers[|providers| - 1];
      if Tracked(w, a) then rest[a.id := a.key.value] else rest
  }

  /** The calls submitted to announce, successful or not. */
  function Announced(w: World, providers: seq<Advert>): (calls: seq<Advert>) {
    if providers == [] then []
    else
      var rest, a := Announced(w, providers[..|providers| - 1]), providers[|providers| - 1];
      if Announces(w, a) then rest + [a] else rest
  }

  // ----- withdrawing -----

  /** What becomes of one tracked provider: kept or not, its failed withdrawals (0 when it has
      no counter), and whether a withdrawal was submitted. */
  datatype Visit = Visit(keep: bool, tries: nat, submitted: bool)

  function VisitOf(w: World, seen: set<Id>, limit: nat, id: Id, key: Key, tries: nat): (v: Visit) {
    if id in seen then Visit(true, 0, false)
    else if !w.readOk(id) then Visit(true, tries, false)
    else if key !in w.offers then Visit(false, 0, false)
    else if tries >= limit then Visit(true, tries, false)
    else if w.submitOk(id) then Visit(false, 0, true)
    else Visit(true, tries + 1, true)
  }

  function Tries(attempts: map<Id, nat>, id: Id): (n: nat) {
    if id in attempts then attempts[id] else 0
  }

  function VisitAt(w: World, limit: nat, s: State, id: Id): (v: Visit)
    requires id in s.offering
  {
    VisitOf(w, Seen(w.providers), limit, id, s.offering[id], Tries(s.attempts, id))
  }

  /** After every tracked provider's visit, in whatever order. */
  function Visited(w: World, limit: nat, s: State): (t: State) {
    State(map id | id in s.offering && VisitAt(w, limit, s, id).keep :: s.offering[id],
          map id | id in s.offering && VisitAt(w, limit, s, id).tries > 0 :: VisitAt(w, limit, s, id).tries)
  }

  function Withdrawn(w: World, limit: nat, s: State): (ids: set<Id>) {
    set id | id in s.offering && VisitAt(w, limit, s, id).submitted
  }

  function AfterAnnouncing(w: World, s: State): (t: State) {
    s.(offering := Offering(w, w.providers, s.offering))
  }

  function Apply(limit: nat, s: State, p: Pass): (t: State) {
    match p
    case Aborted => s
    case Against(w) => Visited(w, limit, AfterAnnouncing(w, s))
  }

  function Run(limit: nat, s: State, passes: seq<Pass>): (t: State)
    decreases |passes|
  {
    if passes == [] then s else Run(limit, Apply(limit, s, passes[0]), passes[1..])
  }

  // ----- what always holds -----

  /** Counters only for tracked providers, between one and the limit. */
  ghost predicate Counted(limit: nat, s: State) {
    forall id :: id in s.attempts ==> id in s.offering && 1 <= s.attempts[id] <= limit
  }

  lemma {:induction false} OfferingKeeps(w: World, providers: seq<Advert>, offering: map<Id, Key>)
    ensures forall id :: id in offering ==> id in Offering(w, providers, offering)
    decreases |providers|
  {
    if providers != [] { OfferingKeeps(w, providers[..|providers| - 1], offering); }
  }

  lemma VisitCounts(w: World, seen: set<Id>, limit: nat, id: Id, key: Key, tries: nat)
    requires tries <= limit
    ensures var v := VisitOf(w, seen, limit, id, key, tries);
        v.tries <= limit && (v.tries > 0 ==> v.keep) && (v.submitted ==> tries < limit)
  {
  }

  lemma PassKeeps(limit: nat, s: State, p: Pass)
    requires Counted(limit, s)
    ensures Counted(limit, Apply(limit, s, p))
  {
    if p.Against? {
      var w := p.world;
      var u := AfterAnnouncing(w, s);
      OfferingKeeps(w, w.providers, s.offering);
      forall id | id in u.offering
        ensures VisitAt(w, limit, u, id).tries <= limit
            && (VisitAt(w, limit, u, id).tries > 0 ==> VisitAt(w, limit, u, id).keep)
      {
        VisitCounts(w, Seen(w.providers), limit, id, u.offering[id], Tries(u.attempts, id));
      }
    }
  }

  lemma {:induction false} OfferingIs(w: World, providers: seq<Advert>, offering: map<Id, Key>, id: Id)
    ensures id in Offering(w, providers, offering) <==>
              id in offering || exists i :: 0 <= i < |providers| && providers[i].id == id && Tracked(w, providers[i])
    decreases |providers|
  {
    if providers != [] {
      var rest := providers[..|providers| - 1];
      OfferingIs(w, rest, offering, id);
      assert forall i :: 0 <= i < |rest| ==> rest[i] == providers[i];
    }
  }

  /** A provider is tracked after a pass exactly when it was announced in it, found announced
      already, or was tracked and is listed still, or its offer could not be read, or is there and
      was not withdrawn: for want of tries or because that failed. */
  lemma TrackedIff(limit: nat, s: State, w: World, id: Id)
    ensures id in Apply(limit, s, Against(w)).offering <==>
              || (exists i :: 0 <= i < |w.providers| && w.providers[i].id == id && Usable(w.providers[i])
                              && (id in s.offering
                                  || (w.readOk(id) && (w.submitOk(id) || Published(w.offers, w.providers[i])))))
              || (id in s.offering
                  && (!w.readOk(id)
                      || (s.offering[id] in w.offers && (Tries(s.attempts, id) >= limit || !w.submitOk(id)))))
  {
    OfferingIs(w, w.providers, s.offering, id);
    if id !in Seen(w.providers) { OfferingUnseen(w, w.providers, s.offering, id); }
  }

  /** A withdrawal is submitted exactly for a tracked provider that is listed no more, whose offer is
      read and there, and that has tries left; failing costs one.  Unread or used up, the tries
      stay as they are; otherwise they begin anew. */
  lemma WithdrawsIff(limit: nat, s: State, w: World, id: Id)
    requires Counted(limit, s)
    ensures var tries := Tries(s.attempts, id);
            var gone := id in s.offering && forall i :: 0 <= i < |w.providers| && w.providers[i].id == id ==>
                            !Usable(w.providers[i]);
            var due := gone && w.readOk(id) && s.offering[id] in w.offers && tries < limit;
            && (id in Withdrawn(w, limit, AfterAnnouncing(w, s)) <==> due)
            && Tries(Apply(limit, s, Against(w)).attempts, id) ==
                 if due && !w.submitOk(id) then tries + 1
                 else if gone && (!w.readOk(id) || (s.offering[id] in w.offers && tries == limit)) then tries
                 else 0
  {
    OfferingIs(w, w.providers, s.offering, id);
    if id !in Seen(w.providers) { OfferingUnseen(w, w.providers, s.offering, id); }
  }

  /** Over every run of passes. */
  lemma {:induction false} CountersBounded(limit: nat, s: State, passes: seq<Pass>)
    requires Counted(limit, s)
    ensures Counted(limit, Run(limit, s, passes))
    decreases |passes|
  {
    if passes != [] {
      PassKeeps(limit, s, passes[0]);
      CountersBounded(limit, Apply(limit, s, passes[0]), passes[1..]);
    }
  }

  // ----- withdrawals are bounded -----

  /** Withdrawals submitted for `id` over a run. */
  function Submissions(limit: nat, s: State, passes: seq<Pass>, id: Id): (n: nat)
    decreases |passes|
  {
    if passes == [] then 0
    else
      var p := passes[0];
      (if p.Against? && id in Withdrawn(p.world, limit, AfterAnnouncing(p.world, s)) then 1 else 0)
      + Submissions(limit, Apply(limit, s, p), passes[1..], id)
  }

  ghost predicate Unseen(passes: seq<Pass>, id: Id) {
    forall i :: 0 <= i < |passes| && passes[i].Against? ==> id !in Seen(passes[i].world.providers)
  }

  lemma {:induction false} OfferingUnseen(w: World, providers: seq<Advert>, offering: map<Id, Key>, id: Id)
    requires id !in Seen(providers)
    ensures id in Offering(w, providers, offering) <==> id in offering
    ensures id in offering ==> Offering(w, providers, offering)[id] == offering[id]
    decreases |providers|
  {
    if providers != [] {
      var n := |providers| - 1;
      assert Usable(providers[n]) ==> providers[n].id in Seen(providers);
      forall i | 0 <= i < n && Usable(providers[..n][i]) ensures providers[..n][i].id in Seen(providers) {
        assert providers[..n][i] == providers[i];
      }
      OfferingUnseen(w, providers[..n], offering, id);
    }
  }

  /** While a provider stays away it is withdrawn at most as often as the limit leaves, and not
      at all once it is no longer tracked. */
  lemma {:induction false} WithdrawalsBounded(limit: nat, s: State, passes: seq<Pass>, id: Id)
    requires Counted(limit, s) && Unseen(passes, id)
    ensures Submissions(limit, s, passes, id) <= if id in s.offering then limit - Tries(s.attempts, id) else 0
    decreases |passes|
  {
    if passes != [] {
      var p := passes[0];
      var t := Apply(limit, s, p);
      assert forall i :: 0 <= i < |passes[1..]| ==> passes[1..][i] == passes[i + 1];
      PassKeeps(limit, s, p);
      WithdrawalsBounded(limit, t, passes[1..], id);
      if p.Against? { OneWithdrawal(limit, s, p.world, id); }
    }
  }

  lemma OneWithdrawal(limit: nat, s: State, w: World, id: Id)
    requires Counted(limit, s) && id !in Seen(w.providers)
    ensures var u := AfterAnnouncing(w, s);
            var t := Visited(w, limit, u);
            var submitted := id in Withdrawn(w, limit, u);
            && (submitted ==> id in s.offering && Tries(s.attempts, id) < limit)
            && (id in t.offering ==>
                id in s.offering && Tries(t.attempts, id) == Tries(s.attempts, id) + if submitted then 1 else 0)
  {
    OfferingUnseen(w, w.providers, s.offering, id);
  }

  // ----- convergence -----

  /** The pallet takes an announcement of an active provider with something of everything. */
  predicate Takes(active: Key -> bool, a: Advert)
    requires Usable(a)
  {
    var o := Desired(a.totals.value);
    active(a.key.value) && o.cpu > 0 && o.ram > 0 && o.storage > 0
  }

  /** The offers after the announcements are executed. */
  function Announce(active: Key -> bool, offers: map<Key, Offer>, calls: seq<Advert>): (r: map<Key, Offer>)
    requires forall i :: 0 <= i < |calls| ==> Usable(calls[i])
  {
    if calls == [] then offers
    else
      var rest, a := Announce(active, offers, calls[..|calls| - 1]), calls[|calls| - 1];
      if Takes(active, a) then rest[a.key.value := Desired(a.totals.value)] else rest
  }

  /** Withdrawals of offers there are always succeed. */
  function Withdraw(offers: map<Key, Offer>, keys: set<Key>): (r: map<Key, Offer>) {
    offers - keys
  }

  /** No two ids share a key, among the providers listed and those tracked. */
  ghost predicate OneKeyEach(providers: seq<Advert>, offering: map<Id, Key>) {
    && (forall i, j :: 0 <= i < j < |providers| && Usable(providers[i]) && Usable(providers[j]) ==>
          providers[i].id != providers[j].id && providers[i].key != providers[j].key)
    && (forall i, id :: 0 <= i < |providers| && Usable(providers[i]) && id in offering && id != providers[i].id ==>
          offering[id] != providers[i].key.value)
  }

  lemma {:induction false} AnnouncedAre(w: World, providers: seq<Advert>)
    ensures forall a :: a in Announced(w, providers) <==> a in providers && Announces(w, a)
    ensures forall i :: 0 <= i < |Announced(w, providers)| ==> Usable(Announced(w, providers)[i])
    decreases |providers|
  {
    if providers != [] {
      var n := |providers| - 1;
      AnnouncedAre(w, providers[..n]);
      assert forall a :: a in providers <==> a in providers[..n] || a == providers[n];
    }
  }

  ghost predicate KeysDistinct(calls: seq<Advert>) {
    forall i, j :: 0 <= i < j < |calls| ==> calls[i].key != calls[j].key
  }

  /** Among announcements of distinct keys, each key ends with its own. */
  lemma {:induction false} AnnounceAt(active: Key -> bool, offers: map<Key, Offer>, calls: seq<Advert>, key: Key)
    requires forall i :: 0 <= i < |calls| ==> Usable(calls[i])
    requires KeysDistinct(calls)
    ensures var r := Announce(active, offers, calls);
            && (forall i :: 0 <= i < |calls| && calls[i].key == Some(key) && Takes(active, calls[i]) ==>
                  key in r && r[key] == Desired(calls[i].totals.value))
            && ((forall i :: 0 <= i < |calls| && calls[i].key == Some(key) ==> !Takes(active, calls[i])) ==>
                  (key in r <==> key in offers) && (key in r ==> r[key] == offers[key]))
    decreases |calls|
  {
    if calls != [] {
      var n := |calls| - 1;
      AnnounceAt(active, offers, calls[..n], key);
      assert forall i :: 0 <= i < n ==> calls[..n][i] == calls[i];
    }
  }

  lemma {:induction false} AnnouncedDistinct(w: World, providers: seq<Advert>)
    requires forall i, j :: 0 <= i < j < |providers| && Usable(providers[i]) && Usable(providers[j]) ==>
        providers[i].key != providers[j].key
    ensures KeysDistinct(Announced(w, providers))
    decreases |providers|
  {
    if providers != [] {
      var n := |providers| - 1;
      var rest := Announced(w, providers[..n]);
      AnnouncedDistinct(w, providers[..n]);
      AnnouncedAre(w, providers[..n]);
      if Announces(w, providers[n]) {
        forall i | 0 <= i < |rest| ensures rest[i].key != providers[n].key {
          assert rest[i] in providers[..n];
          var k :| 0 <= k < n && providers[..n][k] == rest[i];
          assert providers[k] == rest[i] && Usable(providers[k]);
        }
        assert Announced(w, providers) == rest + [providers[n]];
      } else {
        assert Announced(w, providers) == rest;
      }
    }
  }

  /** Reads and submissions succeed, and no absent provider has used up its withdrawals. */
  ghost predicate Smooth(w: World, limit: nat, s: State) {
    && (forall id :: w.readOk(id) && w.submitOk(id))
    && (forall id :: id in s.offering && id !in Seen(w.providers) ==> Tries(s.attempts, id) < limit)
  }

  /** The keys whose offers a pass withdraws. */
  function WithdrawnKeys(w: World, limit: nat, s: State): (keys: set<Key>) {
    set id | id in Withdrawn(w, limit, s) :: s.offering[id]
  }

  /** The chain's offers once a pass's calls are executed. */
  function Executed(active: Key -> bool, w: World, limit: nat, s: State): (offers: map<Key, Offer>)
    requires forall i :: 0 <= i < |Announced(w, w.providers)| ==> Usable(Announced(w, w.providers)[i])
  {
    Withdraw(Announce(active, w.offers, Announced(w, w.providers)), WithdrawnKeys(w, limit, AfterAnnouncing(w, s)))
  }

  /** Withdrawals leave a listed provider's key alone. */
  lemma KeyNotWithdrawn(w: World, limit: nat, s: State, i: nat)
    requires OneKeyEach(w.providers, s.offering) && i < |w.providers| && Usable(w.providers[i])
    ensures w.providers[i].key.value !in WithdrawnKeys(w, limit, AfterAnnouncing(w, s))
  {
    var u := AfterAnnouncing(w, s);
    forall id | id in Withdrawn(w, limit, u) ensures u.offering[id] != w.providers[i].key.value {
      assert w.providers[i].id in Seen(w.providers);
      OfferingUnseen(w, w.providers, s.offering, id);
    }
  }

  /** After a smooth pass, a listed provider's offer is the desired one exactly when it was
      before or the pallet takes it. */
  lemma PublishedIff(active: Key -> bool, w: World, limit: nat, s: State, i: nat)
    requires Smooth(w, limit, s) && OneKeyEach(w.providers, s.offering) && i < |w.providers| && Usable(w.providers[i])
    requires forall i :: 0 <= i < |Announced(w, w.providers)| ==> Usable(Announced(w, w.providers)[i])
    ensures var a := w.providers[i];
            Published(Executed(active, w, limit, s), a) <==> Published(w.offers, a) || Takes(active, a)
  {
    var a, calls := w.providers[i], Announced(w, w.providers);
    AnnouncedAre(w, w.providers);
    AnnouncedDistinct(w, w.providers);
    AnnounceAt(active, w.offers, calls, a.key.value);
    KeyNotWithdrawn(w, limit, s, i);
    assert a in w.providers;
    if Announces(w, a) {
      var k :| 0 <= k < |calls| && calls[k] == a;
      assert forall j :: 0 <= j < |calls| && calls[j].key == a.key ==> j == k;
    } else {
      forall j | 0 <= j < |calls| ensures calls[j].key != a.key {
        assert calls[j] in w.providers && Announces(w, calls[j]);
        var m :| 0 <= m < |w.providers| && w.providers[m] == calls[j];
        assert m != i;
      }
    }
  }

  /** The pallet takes what an active provider with some of every resource reports; a negative
      amount counts as some of it, but for the processor. */
  lemma TakenIff(active: Key -> bool, a: Advert)
    requires Usable(a)
    ensures var t := a.totals.value;
            InInt64(t) ==> (Takes(active, a) <==> active(a.key.value) && t.cpu > 0 && t.ram != 0 && t.storage != 0)
  {
  }

  /** The amounts an agent can report. */
  predicate InInt64(t: Totals) {
    && -INT64_LIMIT <= t.cpu < INT64_LIMIT && -INT64_LIMIT <= t.ram < INT64_LIMIT
    && -INT64_LIMIT <= t.storage < INT64_LIMIT
  }

  /** After a smooth pass whose calls are executed, a listed provider that the pallet takes has its
      own reported amounts on chain: memory and storage as they are, negative ones as 2^64 less
      their size, and the processor as it is up to 2^32 - 1. */
  lemma OfferIsReported(active: Key -> bool, w: World, limit: nat, s: State, i: nat)
    requires Smooth(w, limit, s) && OneKeyEach(w.providers, s.offering) && i < |w.providers| && Usable(w.providers[i])
    requires InInt64(w.providers[i].totals.value) && Takes(active, w.providers[i])
    ensures forall j :: 0 <= j < |Announced(w, w.providers)| ==> Usable(Announced(w, w.providers)[j])
    ensures var key, t := w.providers[i].key.value, w.providers[i].totals.value;
            var offers := Executed(active, w, limit, s);
            && key in offers
            && offers[key].cpu == (if t.cpu > 0xffff_ffff then 0xffff_ffff else t.cpu)
            && offers[key].ram == (if t.ram >= 0 then t.ram else t.ram + 0x1_0000_0000_0000_0000)
            && offers[key].storage == (if t.storage >= 0 then t.storage else t.storage + 0x1_0000_0000_0000_0000)
  {
    AnnouncedAre(w, w.providers);
    PublishedIff(active, w, limit, s, i);
  }

  /** A smooth pass leaves only seen providers tracked, so the next one withdraws nothing. */
  lemma NothingToWithdraw(w: World, w': World, limit: nat, s: State)
    requires Smooth(w, limit, s) && w'.providers == w.providers
    ensures var t := Apply(limit, s, Against(w)); Withdrawn(w', limit, AfterAnnouncing(w', t)) == {}
  {
    var u := AfterAnnouncing(w, s);
    var t := Visited(w, limit, u);
    forall id | id in AfterAnnouncing(w', t).offering ensures id in Seen(w.providers) {
      if id !in Seen(w.providers) {
        OfferingUnseen(w', w'.providers, t.offering, id);
        OfferingUnseen(w, w.providers, s.offering, id);
        assert false;
      }
    }
  }

  /** After a smooth pass whose calls are executed, no offer is left of a tracked provider that was
      not seen. */
  lemma AbsentIsWithdrawn(active: Key -> bool, w: World, limit: nat, s: State, id: Id)
    requires Smooth(w, limit, s) && OneKeyEach(w.providers, s.offering)
    requires id in s.offering && id !in Seen(w.providers)
    ensures forall j :: 0 <= j < |Announced(w, w.providers)| ==> Usable(Announced(w, w.providers)[j])
    ensures s.offering[id] !in Executed(active, w, limit, s)
  {
    var u, calls, key := AfterAnnouncing(w, s), Announced(w, w.providers), s.offering[id];
    AnnouncedAre(w, w.providers);
    AnnouncedDistinct(w, w.providers);
    AnnounceAt(active, w.offers, calls, key);
    OfferingUnseen(w, w.providers, s.offering, id);
    forall j | 0 <= j < |calls| ensures calls[j].key != Some(key) {
      assert calls[j] in w.providers;
      var m :| 0 <= m < |w.providers| && w.providers[m] == calls[j];
      assert w.providers[m].id in Seen(w.providers);
    }
    if key in w.offers { assert id in Withdrawn(w, limit, u) && key in WithdrawnKeys(w, limit, u); }
  }

  lemma AnnouncesNothingIff(w: World)
    requires forall id :: w.readOk(id)
    ensures Announced(w, w.providers) == [] <==> forall i :: 0 <= i < |w.providers| && Usable(w.providers[i]) ==>
        Published(w.offers, w.providers[i])
  {
    AnnouncedAre(w, w.providers);
    if Announced(w, w.providers) != [] {
      var a := Announced(w, w.providers)[0];
      assert a in Announced(w, w.providers);
      var i :| 0 <= i < |w.providers| && w.providers[i] == a;
      assert Usable(w.providers[i]) && !Published(w.offers, w.providers[i]);
    } else {
      forall i | 0 <= i < |w.providers| && Usable(w.providers[i]) ensures Published(w.offers, w.providers[i]) {
        assert w.providers[i] in w.providers;
      }
    }
  }

  /** After one smooth pass whose calls the pallet executes, the same pass again submits nothing,
      and every listed provider's offer is the desired one, exactly when each was published
      already or is active with some of every resource. */
  lemma ConvergesIff(active: Key -> bool, w: World, limit: nat, s: State)
    requires Smooth(w, limit, s) && OneKeyEach(w.providers, s.offering)
    ensures forall i :: 0 <= i < |Announced(w, w.providers)| ==> Usable(Announced(w, w.providers)[i])
    ensures var w' := w.(offers := Executed(active, w, limit, s));
            var t := Apply(limit, s, Against(w));
            && Withdrawn(w', limit, AfterAnnouncing(w', t)) == {}
            && (Announced(w', w'.providers) == [] <==>
                  forall i :: 0 <= i < |w.providers| && Usable(w.providers[i]) ==>
                    Published(w.offers, w.providers[i]) || Takes(active, w.providers[i]))
  {
    AnnouncedAre(w, w.providers);
    var w' := w.(offers := Executed(active, w, limit, s));
    NothingToWithdraw(w, w', limit, s);
    AnnouncesNothingIff(w');
    forall i | 0 <= i < |w.providers| && Usable(w.providers[i])
      ensures Published(w'.offers, w.providers[i]) <==>
          Published(w.offers, w.providers[i]) || Takes(active, w.providers[i])
    {
      PublishedIff(active, w, limit, s, i);
    }
  }

  // ----- offers the pallet refuses -----

  /** What the chain may hold after a pass: each offer was there before or is one the pallet
      took from the pass, whichever of its calls got through and were executed. */
  ghost predicate Follows(active: Key -> bool, w: World, offers: map<Key, Offer>) {
    forall key :: key in offers ==>
      || (key in w.offers && offers[key] == w.offers[key])
      || exists a :: a in w.providers && Usable(a) && a.key.value == key && Takes(active, a)
          && offers[key] == Desired(a.totals.value)
  }

  lemma {:induction false} AnnounceFollows(active: Key -> bool, w: World, calls: seq<Advert>)
    requires forall i :: 0 <= i < |calls| ==> Usable(calls[i]) && calls[i] in w.providers
    ensures Follows(active, w, Announce(active, w.offers, calls))
    decreases |calls|
  {
    if calls != [] { AnnounceFollows(active, w, calls[..|calls| - 1]); }
  }

  lemma ExecutedFollows(active: Key -> bool, w: World, limit: nat, s: State)
    ensures forall i :: 0 <= i < |Announced(w, w.providers)| ==> Usable(Announced(w, w.providers)[i])
    ensures Follows(active, w, Executed(active, w, limit, s))
  {
    AnnouncedAre(w, w.providers);
    AnnounceFollows(active, w, Announced(w, w.providers));
  }

  /** Listed, and the only one listed under its key. */
  ghost predicate ListedAlone(providers: seq<Advert>, a: Advert) {
    a in providers && forall b :: b in providers && Usable(b) && b.key == a.key ==> b == a
  }

  /** Passes one after the other, each against what the chain made of the one before. */
  ghost predicate IsHistory(actives: nat -> Key -> bool, ws: seq<World>) {
    forall k :: 0 <= k < |ws| - 1 ==> Follows(actives(k), ws[k], ws[k + 1].offers)
  }

  lemma {:induction false} StaysUnpublished(actives: nat -> Key -> bool, ws: seq<World>, a: Advert, k: nat)
    requires IsHistory(actives, ws) && Usable(a) && k < |ws| && !Published(ws[0].offers, a)
    requires forall i :: 0 <= i < k ==> ListedAlone(ws[i].providers, a) && !Takes(actives(i), a)
    ensures !Published(ws[k].offers, a)
  {
    if k > 0 {
      StaysUnpublished(actives, ws, a, k - 1);
      assert Follows(actives(k - 1), ws[k - 1], ws[k].offers);
    }
  }

  /** While the pallet does not take what a listed provider offers, for want of some resource or
      of an active registration, its offer is never published, and each pass that can read the
      chain announces it again: however many passes, whatever else they list and whichever of
      their calls get through. */
  lemma NeverConverges(actives: nat -> Key -> bool, ws: seq<World>, a: Advert)
    requires IsHistory(actives, ws) && Usable(a) && |ws| > 0 && !Published(ws[0].offers, a)
    requires forall k :: 0 <= k < |ws| ==> ListedAlone(ws[k].providers, a) && !Takes(actives(k), a)
    ensures forall k :: 0 <= k < |ws| ==>
        !Published(ws[k].offers, a) && (ws[k].readOk(a.id) ==> a in Announced(ws[k], ws[k].providers))
  {
    forall k | 0 <= k < |ws| ensures !Published(ws[k].offers, a)
        && (ws[k].readOk(a.id) ==> a in Announced(ws[k], ws[k].providers)) {
      StaysUnpublished(actives, ws, a, k);
      AnnouncedAre(ws[k], ws[k].providers);
    }
  }

  // ----- tracked keys -----

  /** The keys that providers joined with.  They never change, and no two ids share one. */
  ghost predicate Directory(keys: map<Id, Key>) {
    forall a, b :: a in keys && b in keys && keys[a] == keys[b] ==> a == b
  }

  /** A listing made from the directory: distinct ids, each under its own key. */
  ghost predicate Listing(keys: map<Id, Key>, providers: seq<Advert>) {
    && (forall i :: 0 <= i < |providers| && Usable(providers[i]) ==>
          providers[i].id in keys && keys[providers[i].id] == providers[i].key.value)
    && (forall i, j :: 0 <= i < j < |providers| ==> providers[i].id != providers[j].id)
  }

  ghost predicate TrueKeys(keys: map<Id, Key>, offering: map<Id, Key>) {
    forall id :: id in offering ==> id in keys && keys[id] == offering[id]
  }

  ghost predicate Listings(keys: map<Id, Key>, passes: seq<Pass>) {
    forall i :: 0 <= i < |passes| && passes[i].Against? ==> Listing(keys, passes[i].world.providers)
  }

  lemma {:induction false} OfferingTrue(keys: map<Id, Key>, w: World, providers: seq<Advert>, offering: map<Id, Key>)
    requires TrueKeys(keys, offering) && Listing(keys, providers)
    ensures TrueKeys(keys, Offering(w, providers, offering))
    decreases |providers|
  {
    if providers != [] { OfferingTrue(keys, w, providers[..|providers| - 1], offering); }
  }

  lemma {:induction false} TrackedKeysAreTrue(keys: map<Id, Key>, limit: nat, s: State, passes: seq<Pass>)
    requires TrueKeys(keys, s.offering) && Listings(keys, passes)
    ensures TrueKeys(keys, Run(limit, s, passes).offering)
    decreases |passes|
  {
    if passes != [] {
      if passes[0].Against? { OfferingTrue(keys, passes[0].world, passes[0].world.providers, s.offering); }
      assert forall i :: 0 <= i < |passes[1..]| ==> passes[1..][i] == passes[i + 1];
      TrackedKeysAreTrue(keys, limit, Apply(limit, s, passes[0]), passes[1..]);
    }
  }

  /** After any run of passes over the directory's listings, whatever the next one lists: an id
      tracked is tracked under the key it is listed with, and no two ids share a key. */
  lemma KeysNeverStale(keys: map<Id, Key>, limit: nat, passes: seq<Pass>, providers: seq<Advert>)
    requires Directory(keys) && Listings(keys, passes) && Listing(keys, providers)
    ensures var s := Run(limit, State(map[], map[]), passes);
            && OneKeyEach(providers, s.offering)
            && forall i :: 0 <= i < |providers| && Usable(providers[i]) && providers[i].id in s.offering ==>
                 s.offering[providers[i].id] == providers[i].key.value
  {
    TrackedKeysAreTrue(keys, limit, State(map[], map[]), passes);
  }
}
