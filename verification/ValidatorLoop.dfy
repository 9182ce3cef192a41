/** The validator's polling loop: what it is assigned, challenges, evidences and closes
    (control-plane/internal/networkvalidator/assignment.go and run.go).

    Times are integers.  A tick's reads, challenge results and delays are inputs; each key also
    carries a history the program does not keep. */
module ValidatorLoop {
  import opened Base
  import opened Committee

  datatype Dimension = Compute | Storage | Network | Availability | Reliability

  const DIMENSIONS: seq<Dimension> := [Compute, Storage, Network, Availability, Reliability]

  datatype Key = Key(provider: Account, round: nat, dimension: Dimension)

  datatype Config = Config(self: Account, target: nat, closeDelay: int, closeRetry: int, maxCloseAttempts: int,
      unscoredRetry: int)

  /** Whether the validator is on a provider's committee in a round, given the active set. */
  type Member = (Account, nat, seq<Account>) -> bool

  function MemberOf(cfg: Config, blake: Hash): (member: Member) {
    (provider: Account, round: nat, active: seq<Account>) =>
        cfg.self in CommitteeOf(Draws(blake, provider, round), provider, active, cfg.target)
  }

  // ----- assignment -----

  function Open(provider: Account, round: nat, dimensions: seq<Dimension>, done: set<Key>): (keys: seq<Key>) {
    if dimensions == [] then []
    else
      var rest, key := Open(provider, round, dimensions[..|dimensions| - 1], done),
          Key(provider, round, dimensions[|dimensions| - 1]);
      if key in done then rest else rest + [key]
  }

  function Assigned(self: Account, member: Member, providers: seq<Account>, round: nat, active: seq<Account>,
                    done: set<Key>): (keys: seq<Key>) {
    if providers == [] then []
    else
      var rest, p := Assigned(self, member, providers[..|providers| - 1], round, active, done),
          providers[|providers| - 1];
      if p == self || !member(p, round, active) then rest
      else rest + Open(p, round, DIMENSIONS, done)
  }

  method AssignedWork(cfg: Config, blake: Hash, providers: seq<Account>, round: nat, active: seq<Account>,
                      done: set<Key>)
    returns (assignments: seq<Key>)
    ensures assignments == Assigned(cfg.self, MemberOf(cfg, blake), providers, round, active, done)
  {
    assignments := [];
    for i := 0 to |providers|
      invariant assignments == Assigned(cfg.self, MemberOf(cfg, blake), providers[..i], round, active, done)
    {
      assert providers[..i + 1][..i] == providers[..i];
      var p := providers[i];
      if p != cfg.self {
        var member := IsAssigned(blake, cfg.self, p, round, active, cfg.target);
        if member {
          var before := assignments;
          for d := 0 to |DIMENSIONS|
            invariant assignments == before + Open(p, round, DIMENSIONS[..d], done)
          {
            assert DIMENSIONS[..d + 1][..d] == DIMENSIONS[..d];
            var key := Key(p, round, DIMENSIONS[d]);
            if key !in done { assignments := assignments + [key]; }
          }
          assert DIMENSIONS[..|DIMENSIONS|] == DIMENSIONS;
        }
      }
    }
    assert providers[..|providers|] == providers;
  }

  lemma {:induction false} OpenAre(provider: Account, round: nat, dimensions: seq<Dimension>, done: set<Key>)
    requires Distinct(dimensions)
    ensures var keys := Open(provider, round, dimensions, done);
            && Distinct(keys)
            && forall k :: k in keys <==>
                k.provider == provider && k.round == round && k.dimension in dimensions && k !in done
    decreases |dimensions|
  {
    if dimensions != [] { OpenAre(provider, round, dimensions[..|dimensions| - 1], done); }
  }

  lemma EveryDimension(d: Dimension)
    ensures d in DIMENSIONS && Distinct(DIMENSIONS)
  {
    match d
    case Compute => assert DIMENSIONS[0] == d;
    case Storage => assert DIMENSIONS[1] == d;
    case Network => assert DIMENSIONS[2] == d;
    case Availability => assert DIMENSIONS[3] == d;
    case Reliability => assert DIMENSIONS[4] == d;
  }

  /** Work is assigned exactly for registered providers other than the validator itself whose
      committee it is on, in every dimension not done; and each key once. */
  lemma {:induction false} AssignedAre(self: Account, member: Member, providers: seq<Account>, round: nat,
                                       active: seq<Account>, done: set<Key>)
    requires Distinct(providers)
    ensures var keys := Assigned(self, member, providers, round, active, done);
            && Distinct(keys)
            && forall k :: k in keys <==>
                 && k.provider in providers && k.provider != self && k.round == round && k !in done
                 && member(k.provider, round, active)
    decreases |providers|
  {
    if providers != [] {
      var n := |providers| - 1;
      var rest, p := providers[..n], providers[n];
      AssignedAre(self, member, rest, round, active, done);
      EveryDimension(Compute);
      OpenAre(p, round, DIMENSIONS, done);
      forall k: Key ensures k.dimension in DIMENSIONS { EveryDimension(k.dimension); }
      assert forall a :: a in providers <==> a in rest || a == p;
      var head, tail := Assigned(self, member, rest, round, active, done), Open(p, round, DIMENSIONS, done);
      assert p !in rest;
      assert forall k :: k in head ==> k.provider in rest;
      assert forall k :: k in tail ==> k.provider == p;
    }
  }

  /** The validator's work is each once exactly the keys of the round, in every dimension not done, of
      listed providers other than itself that draw it onto their committee. */
  lemma WorkIs(cfg: Config, blake: Hash, providers: seq<Account>, round: nat, active: seq<Account>, done: set<Key>)
    requires Distinct(providers)
    ensures var keys := Assigned(cfg.self, MemberOf(cfg, blake), providers, round, active, done);
            && Distinct(keys)
            && forall k :: k in keys <==>
                 && k.provider in providers && k.provider != cfg.self && k.round == round && k !in done
                 && cfg.self in CommitteeOf(Draws(blake, k.provider, round), k.provider, active, cfg.target)
  {
    AssignedAre(cfg.self, MemberOf(cfg, blake), providers, round, active, done);
  }

  // ----- what is known of one key -----

  datatype Close = Close(evidencedAt: int, lastAttempt: int, attempts: nat)

  /** A successful submission: when, and the active set it was assigned under. */
  datatype Proof = Proof(at: int, active: seq<Account>)

  /** A challenge that was run. */
  datatype Probe = Probe(start: int, end: int, unscored: bool)

  /** The program's entries for a key in done, pending and lastUnscored; and its history. */
  datatype Rec = Rec(done: bool, pending: Option<Close>, unscored: Option<int>, evidence: seq<Proof>,
      closes: seq<int>, probes: seq<Probe>)

  const BLANK: Rec := Rec(false, None, None, [], [], [])

  /** `accepted` is whether the submission's RPC call succeeded. */
  datatype Result = Unreachable | Unscored | Scored(accepted: bool)

  function Challenge(cfg: Config, r: Rec, active: seq<Account>, start: int, result: Result, end: int): (r': Rec) {
    if r.unscored.Some? && start - r.unscored.value < cfg.unscoredRetry then r
    else
      var probed := r.(probes := r.probes + [Probe(start, end, result.Unscored?)]);
      match result
      case Unreachable => probed
      case Unscored => probed.(unscored := Some(end))
      case Scored(accepted) =>
        if !accepted then probed
        else probed.(done := true, pending := Some(Close(end, 0, 0)), evidence := r.evidence + [Proof(end, active)])
  }

  predicate Due(cfg: Config, p: Close, now: int) {
    now - p.evidencedAt >= cfg.closeDelay && (p.attempts > 0 ==> now - p.lastAttempt >= cfg.closeRetry)
  }

  function TryClose(cfg: Config, r: Rec, now: int): (r': Rec) {
    if r.pending.None? || !Due(cfg, r.pending.value, now) then r
    else
      var p := r.pending.value.(lastAttempt := now, attempts := r.pending.value.attempts + 1);
      r.(pending := if p.attempts >= cfg.maxCloseAttempts then None else Some(p), closes := r.closes + [now])
  }

  /** A key is challenged unless its last unscored challenge is too recent.  An unscored one is only
      remembered, a scored one whose submission is accepted is done, evidenced and pending from
      then on, and any other leaves the key to the next tick. */
  lemma ChallengeIs(cfg: Config, r: Rec, active: seq<Account>, start: int, result: Result, end: int)
    ensures var t := Challenge(cfg, r, active, start, result, end);
            if r.unscored.Some? && r.unscored.value > start - cfg.unscoredRetry then t == r
            else
              && t.probes == r.probes + [Probe(start, end, result == Unscored)] && t.closes == r.closes
              && t.unscored == (if result == Unscored then Some(end) else r.unscored)
              && (if result == Scored(true)
                  then && t.done && t.evidence == r.evidence + [Proof(end, active)]
                       && t.pending.Some? && t.pending.value.evidencedAt == end && t.pending.value.attempts == 0
                  else t.done == r.done && t.evidence == r.evidence && t.pending == r.pending)
  {
  }

  /** A pending round is tried exactly when the delay since its evidence, and the interval since its
      last attempt, have passed; it is given up with the attempt that reaches the limit. */
  lemma TryCloseIs(cfg: Config, r: Rec, now: int)
    ensures var t := TryClose(cfg, r, now);
            && t.done == r.done && t.evidence == r.evidence && t.probes == r.probes && t.unscored == r.unscored
            && if && r.pending.Some? && now >= r.pending.value.evidencedAt + cfg.closeDelay
                  && (r.pending.value.attempts == 0 || now >= r.pending.value.lastAttempt + cfg.closeRetry)
               then && t.closes == r.closes + [now]
                    && (t.pending.None? <==> r.pending.value.attempts + 1 >= cfg.maxCloseAttempts)
                    && (t.pending.Some? ==>
                          t.pending.value == Close(r.pending.value.evidencedAt, now, r.pending.value.attempts + 1))
               else t == r
  {
  }

  // ----- what always holds of one key -----

  /** A non-positive limit still allows the first attempt. */
  function CloseLimit(cfg: Config): (n: nat)
    ensures n >= 1
  {
    if cfg.maxCloseAttempts < 1 then 1 else cfg.maxCloseAttempts
  }

  ghost predicate CloseSpacing(cfg: Config, r: Rec) {
    && (r.closes != [] ==> r.evidence != [] && r.closes[0] - r.evidence[0].at >= cfg.closeDelay)
    && forall i :: 0 < i < |r.closes| ==> r.closes[i] - r.closes[i - 1] >= cfg.closeRetry
  }

  ghost predicate ProbeSpacing(cfg: Config, r: Rec) {
    forall i, j :: 0 <= i < j < |r.probes| && r.probes[i].unscored ==>
        r.probes[j].start - r.probes[i].end >= cfg.unscoredRetry
  }

  ghost predicate Past(r: Rec, clock: int) {
    && (forall i :: 0 <= i < |r.evidence| ==> r.evidence[i].at <= clock)
    && (forall i :: 0 <= i < |r.probes| ==> r.probes[i].end <= clock)
  }

  /** The unscored time remembered is the last one. */
  ghost predicate Remembers(r: Rec) {
    forall i :: 0 <= i < |r.probes| && r.probes[i].unscored ==> r.unscored.Some? && r.probes[i].end <= r.unscored.value
  }

  ghost predicate Counted(cfg: Config, r: Rec) {
    && |r.evidence| == (if r.done then 1 else 0)
    && (if r.pending.Some? then
          && r.done && r.pending.value.evidencedAt == r.evidence[0].at
          && r.pending.value.attempts == |r.closes| < CloseLimit(cfg)
          && (r.closes != [] ==> r.pending.value.lastAttempt == r.closes[|r.closes| - 1])
        else |r.closes| == if r.done then CloseLimit(cfg) else 0)
  }

  /** Evidence was given only while on the committee. */
  ghost predicate Entitled(cfg: Config, member: Member, k: Key, r: Rec) {
    forall i :: 0 <= i < |r.evidence| ==> k.provider != cfg.self && member(k.provider, k.round, r.evidence[i].active)
  }

  ghost predicate Good(cfg: Config, member: Member, k: Key, r: Rec, clock: int) {
    && Counted(cfg, r) && CloseSpacing(cfg, r) && ProbeSpacing(cfg, r) && Remembers(r) && Past(r, clock)
        && Entitled(cfg, member, k, r)
  }

  lemma ChallengeKeepsGood(cfg: Config, member: Member, k: Key, r: Rec, clock: int, active: seq<Account>, start: int,
                           result: Result, end: int)
    requires Good(cfg, member, k, r, clock) && !r.done && clock <= start <= end
    requires k.provider != cfg.self && member(k.provider, k.round, active)
    ensures Good(cfg, member, k, Challenge(cfg, r, active, start, result, end), end)
  {
    var r' := Challenge(cfg, r, active, start, result, end);
    assert forall i :: 0 <= i < |r.probes| ==> r'.probes[i] == r.probes[i];
  }

  lemma TryCloseKeepsGood(cfg: Config, member: Member, k: Key, r: Rec, clock: int, now: int)
    requires Good(cfg, member, k, r, clock) && clock <= now
    ensures Good(cfg, member, k, TryClose(cfg, r, now), now)
  {
    var r' := TryClose(cfg, r, now);
    if r.pending.Some? && Due(cfg, r.pending.value, now) {
      forall i | 0 < i < |r'.closes| ensures r'.closes[i] - r'.closes[i - 1] >= cfg.closeRetry {
        if i < |r.closes| { assert r'.closes[i] == r.closes[i] && r'.closes[i - 1] == r.closes[i - 1]; }
      }
    }
  }

  // ----- ticks -----

  /** What a challenge and a closing attempt do to one key's record. */
  datatype Moves = Moves(self: Account, challenge: (Rec, seq<Account>, int, Result, int) -> Rec,
      close: (Rec, int) -> Rec)

  function MovesOf(cfg: Config): (m: Moves) {
    Moves(cfg.self,
          (r, active, start, result, end) => Challenge(cfg, r, active, start, result, end),
          (r, now) => TryClose(cfg, r, now))
  }

  /** Records of all keys ever challenged; the others are blank. */
  datatype State = State(recs: map<Key, Rec>, clock: int)

  function Get(s: State, k: Key): (r: Rec) {
    if k in s.recs then s.recs[k] else BLANK
  }

  function Done(s: State): (done: set<Key>) {
    set k | k in s.recs && s.recs[k].done
  }

  /** How one challenge went: waited before it, its result, and how long it took. */
  datatype Outcome = Outcome(wait: nat, result: Result, took: nat)

  /** What a tick reads and meets.  `Failed` is a read error: nothing else happens. */
  datatype Tick = Failed
      | Reads(round: nat, active: seq<Account>, providers: seq<Account>, outcomes: Key -> Outcome, closeWait: nat)

  function ChallengeOne(m: Moves, s: State, k: Key, active: seq<Account>, o: Outcome): (s': State) {
    var start := s.clock + o.wait;
    State(s.recs[k := m.challenge(Get(s, k), active, start, o.result, start + o.took)], start + o.took)
  }

  function ChallengeAll(m: Moves, s: State, keys: seq<Key>, active: seq<Account>, outcomes: Key -> Outcome): (s': State)
    ensures s'.clock >= s.clock
  {
    if keys == [] then s
    else
      var rest := ChallengeAll(m, s, keys[..|keys| - 1], active, outcomes);
      ChallengeOne(m, rest, keys[|keys| - 1], active, outcomes(keys[|keys| - 1]))
  }

  function CloseAll(m: Moves, s: State, now: int): (s': State) {
    State(map k | k in s.recs :: m.close(s.recs[k], now), now)
  }

  function Apply(m: Moves, member: Member, s: State, t: Tick): (s': State) {
    match t
    case Failed => s
    case Reads(round, active, providers, outcomes, wait) =>
      var challenged :=
          ChallengeAll(m, s, Assigned(m.self, member, providers, round, active, Done(s)), active, outcomes);
      CloseAll(m, challenged, challenged.clock + wait)
  }

  function Run(m: Moves, member: Member, s: State, ticks: seq<Tick>): (s': State)
    decreases |ticks|
  {
    if ticks == [] then s else Run(m, member, Apply(m, member, s, ticks[0]), ticks[1..])
  }

  /** Each registered provider is read once: the paged scan's guarantee. */
  ghost predicate ScanOnce(ticks: seq<Tick>) {
    forall i :: 0 <= i < |ticks| && ticks[i].Reads? ==> Distinct(ticks[i].providers)
  }

  // ----- every run -----

  type Invariant = (Key, Rec, int) -> bool

  ghost predicate Persists(good: Invariant) {
    && (forall k, clock :: good(k, BLANK, clock))
    && (forall k, r, clock, later :: good(k, r, clock) && clock <= later ==> good(k, r, later))
  }

  ghost predicate ChallengeKeeps(m: Moves, member: Member, good: Invariant) {
    forall k, r, clock, active, start, result,
        end {:trigger good(k, r, clock), m.challenge(r, active, start, result, end)} ::
      good(k, r, clock) && !r.done && clock <= start <= end && k.provider != m.self
          && member(k.provider, k.round, active) ==>
        good(k, m.challenge(r, active, start, result, end), end)
  }

  ghost predicate CloseKeeps(m: Moves, good: Invariant) {
    forall k, r, clock, now {:trigger good(k, r, clock), m.close(r, now)} :: good(k, r, clock) && clock <= now ==>
        good(k, m.close(r, now), now)
  }

  ghost predicate Holds(good: Invariant, s: State) {
    forall k :: k in s.recs ==> good(k, s.recs[k], s.clock)
  }

  lemma ChallengeOneKeeps(m: Moves, member: Member, good: Invariant, s: State, k: Key, active: seq<Account>, o: Outcome)
    requires Persists(good) && ChallengeKeeps(m, member, good) && Holds(good, s)
    requires !Get(s, k).done && k.provider != m.self && member(k.provider, k.round, active)
    ensures Holds(good, ChallengeOne(m, s, k, active, o))
  {
    var s' := ChallengeOne(m, s, k, active, o);
    assert good(k, Get(s, k), s.clock);
    forall j | j in s.recs && j != k ensures good(j, s.recs[j], s'.clock) {
      assert good(j, s.recs[j], s.clock);
    }
  }

  ghost predicate Ready(self: Account, member: Member, s: State, keys: seq<Key>, active: seq<Account>) {
    forall i :: 0 <= i < |keys| ==>
      !Get(s, keys[i]).done && keys[i].provider != self && member(keys[i].provider, keys[i].round, active)
  }

  lemma AssignedReady(self: Account, member: Member, s: State, providers: seq<Account>, round: nat,
                      active: seq<Account>)
    requires Distinct(providers)
    ensures var keys := Assigned(self, member, providers, round, active, Done(s));
        Distinct(keys) && Ready(self, member, s, keys, active)
  {
    var keys := Assigned(self, member, providers, round, active, Done(s));
    AssignedAre(self, member, providers, round, active, Done(s));
    forall i | 0 <= i < |keys|
      ensures !Get(s, keys[i]).done && keys[i].provider != self && member(keys[i].provider, keys[i].round, active)
    {
      assert keys[i] in keys;
    }
  }

  lemma {:induction false} ChallengeAllKeeps(m: Moves, member: Member, good: Invariant, s: State, keys: seq<Key>,
                                             active: seq<Account>, outcomes: Key -> Outcome)
    requires Persists(good) && ChallengeKeeps(m, member, good) && Holds(good, s)
    requires Distinct(keys) && Ready(m.self, member, s, keys, active)
    ensures Holds(good, ChallengeAll(m, s, keys, active, outcomes))
    ensures forall k :: k !in keys ==> Get(ChallengeAll(m, s, keys, active, outcomes), k) == Get(s, k)
    decreases |keys|
  {
    if keys != [] {
      var n := |keys| - 1;
      ChallengeAllKeeps(m, member, good, s, keys[..n], active, outcomes);
      var rest := ChallengeAll(m, s, keys[..n], active, outcomes);
      assert keys[n] !in keys[..n];
      ChallengeOneKeeps(m, member, good, rest, keys[n], active, outcomes(keys[n]));
      forall k | k !in keys ensures Get(ChallengeAll(m, s, keys, active, outcomes), k) == Get(s, k) {
        assert k !in keys[..n] && k != keys[n];
      }
    }
  }

  lemma CloseAllKeeps(m: Moves, good: Invariant, s: State, now: int)
    requires CloseKeeps(m, good) && Holds(good, s) && s.clock <= now
    ensures Holds(good, CloseAll(m, s, now))
  {
    forall k | k in s.recs ensures good(k, m.close(s.recs[k], now), now) {
      assert good(k, s.recs[k], s.clock);
    }
  }

  lemma TickKeeps(m: Moves, member: Member, good: Invariant, s: State, t: Tick)
    requires Persists(good) && ChallengeKeeps(m, member, good) && CloseKeeps(m, good)
    requires Holds(good, s) && (t.Reads? ==> Distinct(t.providers))
    ensures Holds(good, Apply(m, member, s, t))
  {
    if t.Reads? {
      var keys := Assigned(m.self, member, t.providers, t.round, t.active, Done(s));
      AssignedReady(m.self, member, s, t.providers, t.round, t.active);
      ChallengeAllKeeps(m, member, good, s, keys, t.active, t.outcomes);
      var c := ChallengeAll(m, s, keys, t.active, t.outcomes);
      CloseAllKeeps(m, good, c, c.clock + t.closeWait);
    }
  }

  lemma {:induction false} RunKeeps(m: Moves, member: Member, good: Invariant, s: State, ticks: seq<Tick>)
    requires Persists(good) && ChallengeKeeps(m, member, good) && CloseKeeps(m, good)
    requires Holds(good, s) && ScanOnce(ticks)
    ensures Holds(good, Run(m, member, s, ticks))
    decreases |ticks|
  {
    if ticks != [] {
      TickKeeps(m, member, good, s, ticks[0]);
      assert forall i :: 0 <= i < |ticks[1..]| ==> ticks[1..][i] == ticks[i + 1];
      RunKeeps(m, member, good, Apply(m, member, s, ticks[0]), ticks[1..]);
    }
  }

  ghost function GoodFor(cfg: Config, member: Member): (good: Invariant) {
    (k, r, clock) => Good(cfg, member, k, r, clock)
  }

  lemma GoodIsKept(cfg: Config, member: Member)
    ensures Persists(GoodFor(cfg, member)) && ChallengeKeeps(MovesOf(cfg), member, GoodFor(cfg, member))
        && CloseKeeps(MovesOf(cfg), GoodFor(cfg, member))
  {
    var m, good := MovesOf(cfg), GoodFor(cfg, member);
    forall k, r, clock, active, start, result,
        end {:trigger good(k, r, clock), m.challenge(r, active, start, result, end)} |
      good(k, r, clock) && !r.done && clock <= start <= end && k.provider != m.self
          && member(k.provider, k.round, active)
      ensures good(k, m.challenge(r, active, start, result, end), end)
    {
      ChallengeKeepsGood(cfg, member, k, r, clock, active, start, result, end);
    }
    forall k, r, clock, now {:trigger good(k, r, clock), m.close(r, now)} | good(k, r, clock) && clock <= now
        ensures good(k, m.close(r, now), now) {
      TryCloseKeepsGood(cfg, member, k, r, clock, now);
    }
  }

  /** In every run of ticks, for every key: evidence at most once, and only while on the
      provider's committee; pending only if done; closing attempted first `closeDelay` after the
      evidence, then `closeRetry` apart, at most `CloseLimit` times, and exactly that often once
      given up; and no challenge within `unscoredRetry` of an unscored one. */
  lemma EvidenceOnce(cfg: Config, member: Member, clock: int, ticks: seq<Tick>, k: Key)
    requires ScanOnce(ticks)
    ensures var r := Get(Run(MovesOf(cfg), member, State(map[], clock), ticks), k);
            && |r.evidence| <= 1 && (r.done <==> r.evidence != []) && (r.pending.Some? ==> r.done)
            && Entitled(cfg, member, k, r)
            && |r.closes| <= CloseLimit(cfg) && (r.done && r.pending.None? <==> |r.closes| == CloseLimit(cfg))
            && CloseSpacing(cfg, r) && ProbeSpacing(cfg, r)
  {
    var s := Run(MovesOf(cfg), member, State(map[], clock), ticks);
    GoodIsKept(cfg, member);
    RunKeeps(MovesOf(cfg), member, GoodFor(cfg, member), State(map[], clock), ticks);
    assert GoodFor(cfg, member)(k, Get(s, k), s.clock);
  }
}
