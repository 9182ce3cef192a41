/** The validator process: the three maps it mutates every tick
    (control-plane/internal/networkvalidator/run.go). */
module ValidatorDaemon {
  import opened Committee
  import opened ValidatorLoop

  class Daemon {
    const cfg: Config
    var done: set<Key>
    var pending: map<Key, Close>
    var lastUnscored: map<Key, int>
    /** The wall clock when last read. */
    var clock: int
    ghost var recs: map<Key, Rec>

    ghost function Abstract(): (s: State)
      reads this
    {
      State(recs, clock)
    }

    /** The maps hold exactly what the records say of each key. */
    ghost predicate Agrees(k: Key)
      reads this`done, this`pending, this`lastUnscored, this`recs
    {
      var r := if k in recs then recs[k] else BLANK;
      && (k in done <==> r.done)
      && (k in pending <==> r.pending.Some?) && (k in pending ==> pending[k] == r.pending.value)
      && (k in lastUnscored <==> r.unscored.Some?) && (k in lastUnscored ==> lastUnscored[k] == r.unscored.value)
    }

    ghost predicate Valid()
      reads this`done, this`pending, this`lastUnscored, this`recs
    {
      forall k :: Agrees(k)
    }

    constructor (cfg: Config, now: int)
      ensures Valid() && this.cfg == cfg && Abstract() == State(map[], now)
    {
      this.cfg, done, pending, lastUnscored, recs, clock := cfg, {}, map[], map[], map[], now;
    }

    method ChallengeAndSubmit(key: Key, ghost active: seq<Account>, start: int, result: Result, end: int)
      requires Valid()
      modifies this
      ensures Valid() && clock == end
      ensures recs == old(recs)[key := Challenge(cfg, Get(old(Abstract()), key), active, start, result, end)]
    {
      assert Agrees(key);
      recs := recs[key := Challenge(cfg, Get(Abstract(), key), active, start, result, end)];
      clock := end;
      var backingOff := key in lastUnscored && start - lastUnscored[key] < cfg.unscoredRetry;
      if !backingOff {
        if result == Unscored { lastUnscored := lastUnscored[key := end]; }
        if result == Scored(true) {
          done := done + {key};
          pending := pending[key := Close(end, 0, 0)];
        }
      }
      forall k ensures Agrees(k) { assert old(Agrees(k)); }
    }

    /** One key's turn in the loop over pending. */
    method AttemptClose(key: Key, now: int)
      requires Valid() && key in pending
      modifies this`pending, this`recs
      ensures Valid() && key in old(recs) && recs == old(recs)[key := TryClose(cfg, old(recs[key]), now)]
      ensures forall k :: k != key ==> (k in pending <==> k in old(pending))
    {
      assert Agrees(key);
      ghost var r := recs[key];
      var state := pending[key];
      recs := recs[key := TryClose(cfg, r, now)];
      var waiting := now - state.evidencedAt < cfg.closeDelay
          || (state.attempts > 0 && now - state.lastAttempt < cfg.closeRetry);
      if !waiting {
        state := state.(lastAttempt := now, attempts := state.attempts + 1);
        pending := if state.attempts >= cfg.maxCloseAttempts then pending - {key} else pending[key := state];
      }
      forall k ensures Agrees(k) { assert old(Agrees(k)); }
    }

    /** Go visits map entries in no particular order, and this one deletes as it goes. */
    method AttemptPendingCloses(now: int)
      requires Valid()
      modifies this`pending, this`recs, this`clock
      ensures Valid() && Abstract() == CloseAll(MovesOf(cfg), old(Abstract()), now)
    {
      ghost var was := recs;
      var todo := pending.Keys;
      forall k | k in pending ensures k in was { assert Agrees(k); }
      forall k | k in was && k !in todo ensures TryClose(cfg, was[k], now) == was[k] { assert Agrees(k); }
      while todo != {}
        invariant Valid() && todo <= pending.Keys && recs.Keys == was.Keys
        invariant forall k :: k in todo ==> k in was && recs[k] == was[k]
        invariant forall k :: k in was && k !in todo ==> recs[k] == TryClose(cfg, was[k], now)
        decreases |todo|
      {
        var key :| key in todo;
        todo := todo - {key};
        AttemptClose(key, now);
      }
      clock := now;
    }

    method ChallengeAssigned(assignments: seq<Key>, ghost active: seq<Account>, outcomes: Key -> Outcome)
      requires Valid()
      modifies this
      ensures Valid() && Abstract() == ChallengeAll(MovesOf(cfg), old(Abstract()), assignments, active, outcomes)
    {
      for i := 0 to |assignments|
        invariant Valid()
            && Abstract() == ChallengeAll(MovesOf(cfg), old(Abstract()), assignments[..i], active, outcomes)
      {
        assert assignments[..i + 1][..i] == assignments[..i];
        var o := outcomes(assignments[i]);
        var start := clock + o.wait;
        ChallengeAndSubmit(assignments[i], active, start, o.result, start + o.took);
      }
      assert assignments[..|assignments|] == assignments;
    }

    /** A tick whose reads succeeded. */
    method TickOnce(blake: Hash, round: nat, active: seq<Account>, providers: seq<Account>, outcomes: Key -> Outcome,
                    closeWait: nat)
      requires Valid()
      modifies this
      ensures Valid()
      ensures Abstract() ==
          Apply(MovesOf(cfg), MemberOf(cfg, blake), old(Abstract()),
          Reads(round, active, providers, outcomes, closeWait))
    {
      ghost var s := Abstract();
      DoneAgrees();
      var assignments := AssignedWork(cfg, blake, providers, round, active, done);
      ChallengeAssigned(assignments, active, outcomes);
      ghost var c := Abstract();
      AttemptPendingCloses(clock + closeWait);
      TickIs(MovesOf(cfg), MemberOf(cfg, blake), s, c, round, active, providers, outcomes, closeWait);
    }

    lemma DoneAgrees()
      requires Valid()
      ensures done == Done(Abstract())
    {
      forall k ensures k in done <==> k in Done(Abstract()) { assert Agrees(k); }
    }
  }

  lemma TickIs(m: Moves, member: Member, s: State, c: State, round: nat, active: seq<Account>, providers: seq<Account>,
               outcomes: Key -> Outcome, closeWait: nat)
    requires c == ChallengeAll(m, s, Assigned(m.self, member, providers, round, active, Done(s)), active, outcomes)
    ensures CloseAll(m, c, c.clock + closeWait) ==
        Apply(m, member, s, Reads(round, active, providers, outcomes, closeWait))
  {
  }
}
