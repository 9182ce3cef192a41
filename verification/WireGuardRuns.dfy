/** What every sequence of Allocate, Revoke and Rotate keeps. */
module WireGuardRuns {
  import opened Base
  import opened WireGuard

  // ----- the reservation is the first free port in cyclic order -----

  predicate InRange(r: Range, port: int) {
    r.first <= port <= r.last
  }

  /** The port `k` places after `from`, cyclically. */
  function Ahead(r: Range, from: nat, k: nat): (p: nat)
    requires ValidRange(r) && InRange(r, from) && k <= Span(r)
    ensures InRange(r, p)
  {
    if from + k <= r.last then from + k else from + k - Span(r)
  }

  /** Which port the search returns, and how far it went: `k` is its distance. */
  lemma {:induction false} ScanFindsFirst(r: Range, used: set<nat>, port: nat, count: nat) returns (k: nat)
    requires ValidRange(r) && InRange(r, port) && count <= Span(r)
    ensures k <= count
    ensures forall j :: 0 <= j < k ==> Ahead(r, port, j) in used
    ensures var found := Scan(r, used, port, count);
            if k == count then found == (None, Ahead(r, port, k))
            else found == (Some(Ahead(r, port, k)), Ahead(r, port, k + 1)) && Ahead(r, port, k) !in used
    decreases count
  {
    if count == 0 || port !in used {
      k := 0;
    } else {
      var next := Successor(r, port);
      var rest := ScanFindsFirst(r, used, next, count - 1);
      k := rest + 1;
      forall j | 0 <= j < k ensures Ahead(r, port, j) in used {
        if j > 0 { assert Ahead(r, next, j - 1) == Ahead(r, port, j); }
      }
    }
  }

  /** Every port of the range is less than a full turn ahead of the cursor. */
  lemma EveryPortAhead(r: Range, from: nat, port: nat) returns (k: nat)
    requires ValidRange(r) && InRange(r, from) && InRange(r, port)
    ensures k < Span(r) && Ahead(r, from, k) == port
  {
    k := if port >= from then port - from else port - from + Span(r);
  }

  /** Reservation returns the first free port in cyclic order from the cursor and leaves the
      cursor just past it; it fails exactly when every port of the range is in use, and
      then the cursor is back where it was. */
  lemma ReserveFirstFree(r: Range, s: State) returns (k: nat)
    requires ValidRange(r) && InRange(r, s.nextPort)
    ensures var (port, next) := Reserve(r, s);
            && (port.None? <==> forall p :: InRange(r, p) ==> p in UsedPorts(s.peers))
            && (port.None? ==> next == s.nextPort)
            && (port.Some? ==>
                  && k < Span(r) && port.value == Ahead(r, s.nextPort, k) && port.value !in UsedPorts(s.peers)
                  && InRange(r, port.value) && next == Successor(r, port.value)
                  && forall j :: 0 <= j < k ==> Ahead(r, s.nextPort, j) in UsedPorts(s.peers))
  {
    k := ScanFindsFirst(r, UsedPorts(s.peers), s.nextPort, Span(r));
    if k == Span(r) {
      forall p | InRange(r, p) ensures p in UsedPorts(s.peers) {
        var j := EveryPortAhead(r, s.nextPort, p);
      }
    }
  }

  // ----- invariants -----

  ghost predicate PeerOk(r: Range, s: State, w: string)
    requires w in s.peers
  {
    var p := s.peers[w];
    p.workload == w && InRange(r, p.port) && p.key < s.nextKey && p.key in s.configured
  }

  ghost predicate Valid(r: Range, s: State) {
    && InRange(r, s.nextPort)
    && (forall w :: w in s.peers ==> PeerOk(r, s, w))
    && (forall v, w :: v in s.peers && w in s.peers && v != w ==>
          s.peers[v].port != s.peers[w].port && s.peers[v].key != s.peers[w].key)
    && (forall k :: k in s.configured ==> k < s.nextKey)
    && (forall k :: k in s.attached ==> k < s.nextKey)
  }

  function Keys(peers: map<string, Peer>): (r: set<nat>) {
    set w | w in peers :: peers[w].key
  }

  lemma AllocateKeeps(r: Range, s: State, q: Request, b: Backend)
    requires ValidRange(r) && Valid(r, s)
    ensures Valid(r, Allocate(r, s, q, b).0)
  {
    var t := Allocate(r, s, q, b).0;
    var k := ReserveFirstFree(r, s);
    var (port, next) := Reserve(r, s);
    if Admit(s, q, b).None? && port.Some? {
      forall w | w in t.peers ensures PeerOk(r, t, w) {
        if w in s.peers { assert PeerOk(r, s, w); }
      }
      forall w | w in s.peers ensures s.peers[w].port != port.value && s.peers[w].key < s.nextKey {
        assert PeerOk(r, s, w);
        assert s.peers[w].port in UsedPorts(s.peers);
      }
    }
  }

  lemma RevokeKeeps(r: Range, s: State, workload: string, detached: bool, removed: bool)
    requires ValidRange(r) && Valid(r, s)
    ensures Valid(r, Revoke(s, workload, detached, removed).0)
  {
    var t := Revoke(s, workload, detached, removed).0;
    forall w | w in t.peers ensures PeerOk(r, t, w) { assert PeerOk(r, s, w); }
  }

  // ----- runs -----

  datatype Op =
    | DoAllocate(q: Request, b: Backend)
    | DoRevoke(workload: string, detached: bool, removed: bool)
    | DoRotate(q: Request, detached: bool, removed: bool, b: Backend)

  function Init(r: Range): (s: State) {
    State(map[], r.first, 0, {}, {})
  }

  function Apply(r: Range, s: State, op: Op): (t: State)
    requires ValidRange(r)
  {
    match op
    case DoAllocate(q, b) => Allocate(r, s, q, b).0
    case DoRevoke(w, detached, removed) => Revoke(s, w, detached, removed).0
    case DoRotate(q, detached, removed, b) => Rotate(r, s, q, detached, removed, b).0
  }

  function Run(r: Range, s: State, ops: seq<Op>): (t: State)
    requires ValidRange(r)
    decreases |ops|
  {
    if ops == [] then s else Run(r, Apply(r, s, ops[0]), ops[1..])
  }

  lemma ApplyKeeps(r: Range, s: State, op: Op)
    requires ValidRange(r) && Valid(r, s)
    ensures Valid(r, Apply(r, s, op))
  {
    match op
    case DoAllocate(q, b) => AllocateKeeps(r, s, q, b);
    case DoRevoke(w, detached, removed) => RevokeKeeps(r, s, w, detached, removed);
    case DoRotate(q, detached, removed, b) =>
      RevokeKeeps(r, s, q.workload, detached, removed);
      AllocateKeeps(r, Revoke(s, q.workload, detached, removed).0, q, b);
  }

  lemma {:induction false} RunKeeps(r: Range, s: State, ops: seq<Op>)
    requires ValidRange(r) && Valid(r, s)
    ensures Valid(r, Run(r, s, ops))
    decreases |ops|
  {
    if ops != [] {
      ApplyKeeps(r, s, ops[0]);
      RunKeeps(r, Apply(r, s, ops[0]), ops[1..]);
    }
  }

  /** After any sequence of operations, live peers hold pairwise distinct ports of the
      range, and every managed peer is configured in the backend. */
  lemma LivePeersDistinct(r: Range, ops: seq<Op>)
    requires ValidRange(r)
    ensures var s := Run(r, Init(r), ops);
            && (forall w :: w in s.peers ==> InRange(r, s.peers[w].port) && s.peers[w].key in s.configured)
            && (forall v, w :: v in s.peers && w in s.peers && v != w ==> s.peers[v].port != s.peers[w].port)
  {
    RunKeeps(r, Init(r), ops);
    var s := Run(r, Init(r), ops);
    forall w | w in s.peers ensures InRange(r, s.peers[w].port) && s.peers[w].key in s.configured {
      assert PeerOk(r, s, w);
    }
  }

  /** Allocate either succeeds or leaves the managed peers exactly as they were; a success
      returns the peer it manages under the request's workload and lease. */
  lemma AllocateAllOrNothing(r: Range, s: State, q: Request, b: Backend)
    requires ValidRange(r) && Valid(r, s)
    ensures var (t, a) := Allocate(r, s, q, b);
            if a.Allocated? then
              && q.workload in t.peers && t.peers[q.workload] == a.peer && a.peer.lease == q.lease
                  && a.peer.workload == q.workload
              && t.peers == s.peers[q.workload := a.peer]
              && (q.workload in s.peers ==> t == s)
            else t.peers == s.peers
    ensures Allocate(r, s, q, b).1 == PortExhausted <==>
            (Admit(s, q, b).None? && forall p :: InRange(r, p) ==> p in UsedPorts(s.peers))
  {
    var k := ReserveFirstFree(r, s);
    if q.workload in s.peers {
      assert PeerOk(r, s, q.workload);
      assert s.peers == s.peers[q.workload := s.peers[q.workload]];
    }
  }

  /** The request names a workload, a lease and a container, and its lease has not run out. */
  ghost predicate InOrder(q: Request, now: int) {
    |q.workload| > 0 && |q.lease| > 0 && |q.container| > 0 && q.expiresAt != 0 && q.expiresAt > now
  }

  ghost predicate PortFree(r: Range, s: State) {
    exists p :: InRange(r, p) && p !in UsedPorts(s.peers)
  }

  /** Who gets a peer, and which: exactly a request in order whose workload has one under the same
      lease, or has none while a port is free and the backend does its part.  A new peer is for
      the request's workload, lease, container and expiry, with a key of its own, the first free
      port, and the addresses asked for or else that port's own. */
  lemma AllocateIff(r: Range, s: State, q: Request, b: Backend)
    requires ValidRange(r) && Valid(r, s)
    ensures var (t, a) := Allocate(r, s, q, b);
            && (a.Allocated? <==>
                  && InOrder(q, b.now)
                  && if q.workload in s.peers then s.peers[q.workload].lease == q.lease
                     else PortFree(r, s) && b.keyMade && b.configured && b.attached)
            && (a.Allocated? && q.workload in s.peers ==> a.peer == s.peers[q.workload] && t == s)
            && (a.Allocated? && q.workload !in s.peers ==>
                  && a.peer.workload == q.workload && a.peer.lease == q.lease && a.peer.container == q.container
                  && a.peer.expiresAt == q.expiresAt && a.peer.key == s.nextKey && Some(a.peer.port) == Reserve(r, s).0
                  && a.peer.allowedIPs == (if q.allowedIPs == [] then [OverlayAddress(a.peer.port)] else q.allowedIPs))
  {
    var k := ReserveFirstFree(r, s);
  }

  /** Why a request gets none: the first thing that is wrong. */
  lemma RefusalIs(r: Range, s: State, q: Request, b: Backend)
    requires ValidRange(r) && Valid(r, s)
    ensures match Allocate(r, s, q, b).1
            case Allocated(_) => true
            case LeaseRequired => q.workload == "" || q.lease == "" || q.container == "" || q.expiresAt == 0
            case LeaseExpired => q.expiresAt != 0 && q.expiresAt <= b.now
            case DifferentLease => InOrder(q, b.now) && q.workload in s.peers && s.peers[q.workload].lease != q.lease
            case PortExhausted => InOrder(q, b.now) && q.workload !in s.peers && !PortFree(r, s)
            case KeyFailed => InOrder(q, b.now) && PortFree(r, s) && !b.keyMade
            case ConfigureFailed => InOrder(q, b.now) && PortFree(r, s) && b.keyMade && !b.configured
            case AttachFailed => InOrder(q, b.now) && PortFree(r, s) && b.keyMade && b.configured && !b.attached
            case RevokeFailed => false
  {
    var k := ReserveFirstFree(r, s);
  }

  /** A revoke answers success exactly when there is no such peer or both backend calls succeed. */
  lemma RevokeIff(s: State, w: string, detached: bool, removed: bool)
    ensures var (t, ok) := Revoke(s, w, detached, removed);
            && (ok <==> w !in s.peers || (detached && removed))
            && t.peers == (if ok then s.peers - {w} else s.peers) && t.nextPort == s.nextPort && t.nextKey == s.nextKey
  {
  }

  // ----- the backend -----

  /** The key an Allocate leaves behind: it was configured, failed to attach, and its rollback
      failed too. */
  function Stray(r: Range, s: State, q: Request, b: Backend): (keys: set<nat>)
    requires ValidRange(r)
  {
    if Admit(s, q, b).None? && Reserve(r, s).0.Some? && b.keyMade && b.configured && !b.attached && !b.rolledBack
    then {s.nextKey} else {}
  }

  function StrayStep(r: Range, s: State, op: Op): (keys: set<nat>)
    requires ValidRange(r)
  {
    match op
    case DoAllocate(q, b) => Stray(r, s, q, b)
    case DoRevoke(_, _, _) => {}
    case DoRotate(q, detached, removed, b) =>
      var (t, ok) := Revoke(s, q.workload, detached, removed);
      if ok then Stray(r, t, q, b) else {}
  }

  /** All keys so left behind over a run. */
  function Strays(r: Range, s: State, ops: seq<Op>): (keys: set<nat>)
    requires ValidRange(r)
    decreases |ops|
  {
    if ops == [] then {} else StrayStep(r, s, ops[0]) + Strays(r, Apply(r, s, ops[0]), ops[1..])
  }

  lemma KeysAfterRevoke(r: Range, s: State, w: string)
    requires Valid(r, s) && w in s.peers
    ensures Keys(s.peers - {w}) == Keys(s.peers) - {s.peers[w].key}
  {
    forall k | k in Keys(s.peers) - {s.peers[w].key} ensures k in Keys(s.peers - {w}) {
      var v :| v in s.peers && s.peers[v].key == k;
      assert v in s.peers - {w};
    }
  }

  lemma KeysAfterAllocate(peers: map<string, Peer>, w: string, p: Peer)
    requires w !in peers
    ensures Keys(peers[w := p]) == Keys(peers) + {p.key}
  {
    var after := peers[w := p];
    forall k | k in Keys(peers) + {p.key} ensures k in Keys(after) {
      if k == p.key { assert after[w].key == k; } else {
        var v :| v in peers && peers[v].key == k;
        assert after[v].key == k;
      }
    }
  }

  ghost predicate Configured(s: State, strays: set<nat>) {
    s.configured == Keys(s.peers) + strays && strays !! Keys(s.peers) && forall k :: k in strays ==> k < s.nextKey
  }

  lemma AllocateConfigures(r: Range, s: State, strays: set<nat>, q: Request, b: Backend)
    requires ValidRange(r) && Valid(r, s) && Configured(s, strays)
    ensures Configured(Allocate(r, s, q, b).0, strays + Stray(r, s, q, b))
  {
    var (port, next) := Reserve(r, s);
    forall k | k in Keys(s.peers) ensures k < s.nextKey {
      var w :| w in s.peers && s.peers[w].key == k;
      assert PeerOk(r, s, w);
    }
    if Admit(s, q, b).None? && port.Some? {
      KeysAfterAllocate(s.peers, q.workload, NewPeer(s.(nextPort := next), q, port.value));
    }
  }

  lemma RevokeConfigures(r: Range, s: State, strays: set<nat>, w: string, detached: bool, removed: bool)
    requires Valid(r, s) && Configured(s, strays)
    ensures Configured(Revoke(s, w, detached, removed).0, strays)
  {
    if w in s.peers {
      KeysAfterRevoke(r, s, w);
      assert s.peers[w].key in Keys(s.peers);
    }
  }

  lemma ApplyConfigures(r: Range, s: State, strays: set<nat>, op: Op)
    requires ValidRange(r) && Valid(r, s) && Configured(s, strays)
    ensures Configured(Apply(r, s, op), strays + StrayStep(r, s, op))
  {
    match op
    case DoAllocate(q, b) => AllocateConfigures(r, s, strays, q, b);
    case DoRevoke(w, detached, removed) => RevokeConfigures(r, s, strays, w, detached, removed);
    case DoRotate(q, detached, removed, b) =>
      RevokeKeeps(r, s, q.workload, detached, removed);
      RevokeConfigures(r, s, strays, q.workload, detached, removed);
      AllocateConfigures(r, Revoke(s, q.workload, detached, removed).0, strays, q, b);
  }

  lemma {:induction false} RunConfigures(r: Range, s: State, strays: set<nat>, ops: seq<Op>)
    requires ValidRange(r) && Valid(r, s) && Configured(s, strays)
    ensures Configured(Run(r, s, ops), strays + Strays(r, s, ops))
    decreases |ops|
  {
    if ops != [] {
      ApplyKeeps(r, s, ops[0]);
      ApplyConfigures(r, s, strays, ops[0]);
      RunConfigures(r, Apply(r, s, ops[0]), strays + StrayStep(r, s, ops[0]), ops[1..]);
      assert strays + StrayStep(r, s, ops[0]) + Strays(r, Apply(r, s, ops[0]), ops[1..]) == strays + Strays(r, s, ops);
    } else {
      assert strays + Strays(r, s, ops) == strays;
    }
  }

  /** After any operations the backend holds the managed peers and the keys left behind by failed
      rollbacks, so exactly the managed peers if and only if no rollback of a failed attach failed. */
  lemma BackendMatchesIff(r: Range, ops: seq<Op>)
    requires ValidRange(r)
    ensures var s := Run(r, Init(r), ops);
            && s.configured == Keys(s.peers) + Strays(r, Init(r), ops)
            && (s.configured == Keys(s.peers) <==> Strays(r, Init(r), ops) == {})
  {
    RunConfigures(r, Init(r), {}, ops);
    assert {} + Strays(r, Init(r), ops) == Strays(r, Init(r), ops);
  }

  /** One Allocate whose attach and rollback both fail leaves a key behind. */
  lemma StrayHappens(r: Range)
    requires ValidRange(r)
    ensures var s := Run(r, Init(r), [DoAllocate(Ask("a"), Backend(0, true, true, false, false))]);
            s.peers == map[] && s.configured == {0}
  {
    var ops := [DoAllocate(Ask("a"), Backend(0, true, true, false, false))];
    assert Reserve(r, Init(r)) == (Some(r.first), Successor(r, r.first));
    assert ops[1..] == [];
    assert Run(r, Init(r), ops) == Run(r, Apply(r, Init(r), ops[0]), []);
  }

  // ----- overlay addresses -----

  ghost predicate AddressesDistinct(s: State) {
    forall v, w :: v in s.peers && w in s.peers && v != w ==>
      OverlayAddress(s.peers[v].port) != OverlayAddress(s.peers[w].port)
  }

  lemma NarrowRangeDistinct(r: Range, s: State)
    requires ValidRange(r) && Valid(r, s) && Span(r) <= 62500
    ensures AddressesDistinct(s)
  {
    forall v, w | v in s.peers && w in s.peers && v != w
      ensures OverlayAddress(s.peers[v].port) != OverlayAddress(s.peers[w].port)
    {
      assert PeerOk(r, s, v) && PeerOk(r, s, w);
      AddressCollision(s.peers[v].port, s.peers[w].port);
      NearPortsDiffer(s.peers[v].port, s.peers[w].port);
    }
  }

  lemma NearPortsDiffer(p: nat, q: nat)
    requires p != q && p < q + 62500 && q < p + 62500
    ensures p % 62500 != q % 62500
  {
  }

  const Fine := Backend(0, true, true, true, true)

  function Ask(w: string): (q: Request) {
    Request(w, "l", "c", 1, [])
  }

  lemma Two(r: Range, s: State, a: Op, b: Op)
    requires ValidRange(r)
    ensures Run(r, s, [a, b]) == Apply(r, Apply(r, s, a), b)
  {
    assert [a, b][1..] == [b] && [b][1..] == [];
    assert Run(r, Apply(r, s, a), [b]) == Run(r, Apply(r, Apply(r, s, a), b), []);
  }

  /** Allocate and revoke a passing workload: only the cursor (and the key count) moves. */
  lemma PassBy(r: Range, s: State)
    requires ValidRange(r) && Valid(r, s) && "x" !in s.peers && s.nextPort !in UsedPorts(s.peers)
    ensures var t := Run(r, s, [DoAllocate(Ask("x"), Fine), DoRevoke("x", true, true)]);
            t.peers == s.peers && t.nextPort == Successor(r, s.nextPort)
  {
    var ops := [DoAllocate(Ask("x"), Fine), DoRevoke("x", true, true)];
    var a := Apply(r, s, ops[0]);
    assert Reserve(r, s) == (Some(s.nextPort), Successor(r, s.nextPort));
    assert a.peers == s.peers["x" := a.peers["x"]];
    assert a.peers - {"x"} == s.peers;
    Two(r, s, ops[0], ops[1]);
  }

  lemma {:induction false} RunThen(r: Range, s: State, a: seq<Op>, b: seq<Op>)
    requires ValidRange(r)
    ensures Run(r, s, a + b) == Run(r, Run(r, s, a), b)
    decreases |a|
  {
    if a == [] { assert a + b == b; } else {
      assert (a + b)[1..] == a[1..] + b;
      RunThen(r, Apply(r, s, a[0]), a[1..], b);
    }
  }

  /** With "first" on the range's first port, bring the cursor `n` ports past the second. */
  lemma {:induction false} MoveCursor(r: Range, n: nat) returns (ops: seq<Op>)
    requires ValidRange(r) && r.first + 1 + n <= r.last
    ensures var s := Run(r, Init(r), ops);
            s.nextPort == r.first + 1 + n && s.peers.Keys == {"first"} && s.peers["first"].port == r.first
    decreases n
  {
    if n == 0 {
      ops := [DoAllocate(Ask("first"), Fine)];
      assert Reserve(r, Init(r)) == (Some(r.first), Successor(r, r.first));
      assert ops[1..] == [];
      assert Run(r, Init(r), ops) == Apply(r, Init(r), ops[0]);
    } else {
      ops := MoveCursor(r, n - 1);
      var s := Run(r, Init(r), ops);
      RunKeeps(r, Init(r), ops);
      assert s.nextPort !in UsedPorts(s.peers);
      PassBy(r, s);
      var more := [DoAllocate(Ask("x"), Fine), DoRevoke("x", true, true)];
      RunThen(r, Init(r), ops, more);
      ops := ops + more;
    }
  }

  lemma TakesCursorPort(r: Range, s: State, w: string)
    requires ValidRange(r) && w !in s.peers && w != "" && s.nextPort !in UsedPorts(s.peers)
    ensures var t := Run(r, s, [DoAllocate(Ask(w), Fine)]);
            t.peers.Keys == s.peers.Keys + {w} && t.peers[w].port == s.nextPort
            && forall v :: v in s.peers ==> t.peers[v] == s.peers[v]
  {
    var ops := [DoAllocate(Ask(w), Fine)];
    assert Reserve(r, s) == (Some(s.nextPort), Successor(r, s.nextPort));
    assert ops[1..] == [];
    assert Run(r, s, ops) == Run(r, Apply(r, s, ops[0]), []);
  }

  lemma SameResidue(p: nat)
    ensures (p + 62500) % 62500 == p % 62500
  {
  }

  lemma FarPortsCollide(s: State, v: string, w: string)
    requires v in s.peers && w in s.peers && v != w && s.peers[w].port == s.peers[v].port + 62500
    ensures !AddressesDistinct(s)
  {
    AddressCollision(s.peers[v].port, s.peers[w].port);
    SameResidue(s.peers[v].port);
  }

  lemma WideRangeCollides(r: Range) returns (ops: seq<Op>)
    requires ValidRange(r) && Span(r) > 62500
    ensures !AddressesDistinct(Run(r, Init(r), ops))
  {
    ops := MoveCursor(r, 62499);
    var s := Run(r, Init(r), ops);
    assert "last" != "first" by { assert "last"[0] == 'l' && "first"[0] == 'f'; }
    TakesCursorPort(r, s, "last");
    var last := [DoAllocate(Ask("last"), Fine)];
    RunThen(r, Init(r), ops, last);
    ops := ops + last;
    FarPortsCollide(Run(r, Init(r), ops), "first", "last");
  }

  /** Live overlay addresses are pairwise distinct in every run if and only if the range
      spans at most 62500 ports. */
  lemma AddressesDistinctIff(r: Range)
    requires ValidRange(r)
    ensures (forall ops: seq<Op> :: AddressesDistinct(Run(r, Init(r), ops))) <==> Span(r) <= 62500
  {
    if Span(r) <= 62500 {
      forall ops: seq<Op> ensures AddressesDistinct(Run(r, Init(r), ops)) {
        RunKeeps(r, Init(r), ops);
        NarrowRangeDistinct(r, Run(r, Init(r), ops));
      }
    } else {
      var ops := WideRangeCollides(r);
      assert !AddressesDistinct(Run(r, Init(r), ops));
    }
  }

  // ----- addresses the worker's attach programs -----

  /** What Attach asks for: with no fixed address, the overlay address of port 0. */
  function AttachRequest(workload: string, lease: string, container: string, expiresAt: int, fixed: seq<string>):
    (q: Request) {
    Request(workload, lease, container, expiresAt, if fixed == [] then [OverlayAddress(0)] else fixed)
  }

  /** An attach with no fixed address, or a revoke. */
  ghost predicate PlainUse(op: Op) {
    match op
    case DoAllocate(q, _) => q == AttachRequest(q.workload, q.lease, q.container, q.expiresAt, [])
    case DoRevoke(_, _, _) => true
    case DoRotate(_, _, _, _) => false
  }

  ghost predicate AllowedDistinct(s: State) {
    forall v, w :: v in s.peers && w in s.peers && v != w ==> s.peers[v].allowedIPs != s.peers[w].allowedIPs
  }

  lemma OnePortOnePeer(r: Range, s: State)
    requires ValidRange(r) && Valid(r, s) && Span(r) == 1
    ensures AllowedDistinct(s)
  {
    forall w | w in s.peers ensures s.peers[w].port == r.first { assert PeerOk(r, s, w); }
  }

  lemma AttachAdds(r: Range, s: State, w: string)
    requires ValidRange(r) && Valid(r, s) && w !in s.peers && w != "" && s.nextPort !in UsedPorts(s.peers)
    ensures var q := AttachRequest(w, "l", "c", 1, []);
            var t := Apply(r, s, DoAllocate(q, Fine));
            && t.peers.Keys == s.peers.Keys + {w} && t.peers[w].allowedIPs == [OverlayAddress(0)]
                && t.peers[w].port == s.nextPort
            && t.nextPort == Successor(r, s.nextPort) && forall v :: v in s.peers ==> t.peers[v] == s.peers[v]
  {
    assert Reserve(r, s) == (Some(s.nextPort), Successor(r, s.nextPort));
  }

  lemma TwoShareAddress(r: Range) returns (ops: seq<Op>)
    requires ValidRange(r) && Span(r) > 1
    ensures (forall i :: 0 <= i < |ops| ==> PlainUse(ops[i])) && !AllowedDistinct(Run(r, Init(r), ops))
  {
    var a, b := DoAllocate(AttachRequest("a", "l", "c", 1, []), Fine),
        DoAllocate(AttachRequest("b", "l", "c", 1, []), Fine);
    AttachAdds(r, Init(r), "a");
    var s := Apply(r, Init(r), a);
    ApplyKeeps(r, Init(r), a);
    assert UsedPorts(s.peers) == {r.first} && s.nextPort == r.first + 1;
    AttachAdds(r, s, "b");
    Two(r, Init(r), a, b);
    var t := Apply(r, s, b);
    assert "a" in t.peers && "b" in t.peers && t.peers["a"].allowedIPs == t.peers["b"].allowedIPs;
    ops := [a, b];
  }

  /** Attached without fixed addresses, live peers are programmed with different addresses in
      every run if and only if the range has a single port, that is, no two are ever live. */
  lemma AttachedAddressesDistinctIff(r: Range)
    requires ValidRange(r)
    ensures (forall ops: seq<Op> :: (forall i :: 0 <= i < |ops| ==> PlainUse(ops[i])) ==>
        AllowedDistinct(Run(r, Init(r), ops)))
              <==> Span(r) == 1
  {
    if Span(r) == 1 {
      forall ops: seq<Op> ensures AllowedDistinct(Run(r, Init(r), ops)) {
        RunKeeps(r, Init(r), ops);
        OnePortOnePeer(r, Run(r, Init(r), ops));
      }
    } else {
      var ops := TwoShareAddress(r);
      assert !AllowedDistinct(Run(r, Init(r), ops));
    }
  }

  // ----- namespace attachment -----

  /** What a revoke with these backend outcomes leaves half revoked: a live peer detached and
      then not removed becomes so, and one that is removed no longer is. */
  function HalfRevoke(s: State, half: set<string>, workload: string, detached: bool, removed: bool): (r: set<string>) {
    if workload !in s.peers || !detached then half
    else if removed then half - {workload}
    else half + {workload}
  }

  function HalfStep(s: State, half: set<string>, op: Op): (r: set<string>) {
    match op
    case DoAllocate(_, _) => half
    case DoRevoke(w, detached, removed) => HalfRevoke(s, half, w, detached, removed)
    case DoRotate(q, detached, removed, _) => HalfRevoke(s, half, q.workload, detached, removed)
  }

  /** The workloads half revoked after the operations, told from their outcomes alone. */
  function HalfRevoked(r: Range, s: State, half: set<string>, ops: seq<Op>): (w: set<string>)
    requires ValidRange(r)
    decreases |ops|
  {
    if ops == [] then half else HalfRevoked(r, Apply(r, s, ops[0]), HalfStep(s, half, ops[0]), ops[1..])
  }

  /** The backend's attachments are those of the live peers that are not half revoked. */
  ghost predicate AttachedUnlessHalf(s: State, half: set<string>) {
    && half <= s.peers.Keys && s.attached <= Keys(s.peers)
    && forall w :: w in s.peers ==> (s.peers[w].key in s.attached <==> w !in half)
  }

  lemma AllocateAttaches(r: Range, s: State, half: set<string>, q: Request, b: Backend)
    requires ValidRange(r) && Valid(r, s) && AttachedUnlessHalf(s, half)
    ensures AttachedUnlessHalf(Allocate(r, s, q, b).0, half)
  {
    forall w | w in s.peers ensures s.peers[w].key < s.nextKey { assert PeerOk(r, s, w); }
    var (port, next) := Reserve(r, s);
    if Admit(s, q, b).None? && port.Some? {
      KeysAfterAllocate(s.peers, q.workload, NewPeer(s.(nextPort := next), q, port.value));
    }
  }

  lemma RevokeDetaches(r: Range, s: State, half: set<string>, w: string, detached: bool, removed: bool)
    requires Valid(r, s) && AttachedUnlessHalf(s, half)
    ensures AttachedUnlessHalf(Revoke(s, w, detached, removed).0, HalfRevoke(s, half, w, detached, removed))
  {
    if w in s.peers { KeysAfterRevoke(r, s, w); }
  }

  lemma ApplyAttaches(r: Range, s: State, half: set<string>, op: Op)
    requires ValidRange(r) && Valid(r, s) && AttachedUnlessHalf(s, half)
    ensures AttachedUnlessHalf(Apply(r, s, op), HalfStep(s, half, op))
  {
    match op
    case DoAllocate(q, b) => AllocateAttaches(r, s, half, q, b);
    case DoRevoke(w, detached, removed) => RevokeDetaches(r, s, half, w, detached, removed);
    case DoRotate(q, detached, removed, b) =>
      var t := Revoke(s, q.workload, detached, removed).0;
      RevokeDetaches(r, s, half, q.workload, detached, removed);
      RevokeKeeps(r, s, q.workload, detached, removed);
      AllocateAttaches(r, t, HalfRevoke(s, half, q.workload, detached, removed), q, b);
  }

  lemma {:induction false} RunAttaches(r: Range, s: State, half: set<string>, ops: seq<Op>)
    requires ValidRange(r) && Valid(r, s) && AttachedUnlessHalf(s, half)
    ensures AttachedUnlessHalf(Run(r, s, ops), HalfRevoked(r, s, half, ops))
    decreases |ops|
  {
    if ops != [] {
      ApplyKeeps(r, s, ops[0]);
      ApplyAttaches(r, s, half, ops[0]);
      RunAttaches(r, Apply(r, s, ops[0]), HalfStep(s, half, ops[0]), ops[1..]);
    }
  }

  /** After any operations, a live peer is attached to its namespace exactly when its workload is
      not half revoked, and what Allocate hands out next is attached exactly then too. */
  lemma AllocationIsAttachedIff(r: Range, ops: seq<Op>, q: Request, b: Backend)
    requires ValidRange(r)
    ensures var s, half := Run(r, Init(r), ops), HalfRevoked(r, Init(r), {}, ops);
            && s.attached <= Keys(s.peers)
            && (forall w :: w in s.peers ==> (s.peers[w].key in s.attached <==> w !in half))
            && var (t, a) := Allocate(r, s, q, b);
               a.Allocated? ==> (a.peer.key in t.attached <==> q.workload !in half)
  {
    var s, half := Run(r, Init(r), ops), HalfRevoked(r, Init(r), {}, ops);
    RunKeeps(r, Init(r), ops);
    RunAttaches(r, Init(r), {}, ops);
    AllocateAttaches(r, s, half, q, b);
    AllocateAllOrNothing(r, s, q, b);
  }

  /** It happens: after one such revoke, Allocate reports success for a peer whose namespace is
      detached. */
  lemma HalfRevokedIsHandedOut(r: Range) returns (ops: seq<Op>)
    requires ValidRange(r)
    ensures |ops| == 2 && HalfRevoked(r, Init(r), {}, ops) == {"a"}
    ensures var (t, a) := Allocate(r, Run(r, Init(r), ops), Ask("a"), Fine);
            a.Allocated? && a.peer.key !in t.attached
  {
    var make, half := DoAllocate(Ask("a"), Fine), DoRevoke("a", true, false);
    ops := [make, half];
    Two(r, Init(r), make, half);
    assert Reserve(r, Init(r)) == (Some(r.first), Successor(r, r.first));
    var s := Apply(r, Init(r), make);
    assert s.peers.Keys == {"a"} && s.attached == {s.peers["a"].key};
    assert ops[1..] == [half] && [half][1..] == [];
    assert HalfRevoked(r, s, {}, [half]) == HalfRevoked(r, Apply(r, s, half), {"a"}, []);
  }
}
