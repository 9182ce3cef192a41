/** The overlay peer manager (control-plane/internal/wireguard/wireguard.go).

    Backend calls and key generation are inputs; a failing backend call has no effect.
    Generated keys never repeat, so a key is named by its generation number. */
module WireGuard {
  import opened Base

  datatype Request = Request(workload: string, lease: string, container: string, expiresAt: int,
      allowedIPs: seq<string>)

  datatype Peer = Peer(workload: string, lease: string, key: nat, port: nat, expiresAt: int,
                       allowedIPs: seq<string>, container: string)

  /** What the calls inside Allocate return. */
  datatype Backend = Backend(now: int, keyMade: bool, configured: bool, attached: bool, rolledBack: bool)

  datatype Answer =
    | Allocated(peer: Peer)
    | LeaseRequired
    | LeaseExpired
    | DifferentLease
    | PortExhausted
    | KeyFailed
    | ConfigureFailed
    | AttachFailed
    | RevokeFailed

  datatype Range = Range(first: nat, last: nat)

  predicate ValidRange(r: Range) {
    1 <= r.first <= r.last <= 65535
  }

  function Span(r: Range): (n: int) {
    r.last - r.first + 1
  }

  /** `peers` and `nextPort` are the manager's; `configured` and `attached` the backend's. */
  datatype State = State(peers: map<string, Peer>, nextPort: nat, nextKey: nat, configured: set<nat>,
      attached: set<nat>)

  function UsedPorts(peers: map<string, Peer>): (r: set<nat>) {
    set w | w in peers :: peers[w].port
  }

  function Successor(r: Range, port: nat): (p: nat) {
    if port + 1 > r.last then r.first else port + 1
  }

  // ----- the rotating port search -----

  /** Try `count` ports from `port` on; the cursor ends after the last one tried. */
  function Scan(r: Range, used: set<nat>, port: nat, count: nat): (found: (Option<nat>, nat))
    decreases count
  {
    if count == 0 then (None, port)
    else if port !in used then (Some(port), Successor(r, port))
    else Scan(r, used, Successor(r, port), count - 1)
  }

  function Reserve(r: Range, s: State): (found: (Option<nat>, nat))
    requires ValidRange(r)
  {
    Scan(r, UsedPorts(s.peers), s.nextPort, Span(r))
  }

  // ----- operations -----

  function Admit(s: State, q: Request, b: Backend): (a: Option<Answer>) {
    if q.workload == "" || q.lease == "" || q.container == "" || q.expiresAt == 0 then Some(LeaseRequired)
    else if q.expiresAt <= b.now then Some(LeaseExpired)
    else if q.workload in s.peers then
      Some(if s.peers[q.workload].lease != q.lease then DifferentLease else Allocated(s.peers[q.workload]))
    else None
  }

  function NewPeer(s: State, q: Request, port: nat): (p: Peer) {
    var ips := if q.allowedIPs == [] then [OverlayAddress(port)] else q.allowedIPs;
    Peer(q.workload, q.lease, s.nextKey, port, q.expiresAt, ips, q.container)
  }

  function Install(s: State, q: Request, b: Backend, port: nat): (r: (State, Answer)) {
    if !b.keyMade then (s, KeyFailed)
    else
      var peer := NewPeer(s, q, port);
      var made := s.(nextKey := s.nextKey + 1);
      if !b.configured then (made, ConfigureFailed)
      else if !b.attached then
        (if b.rolledBack then made else made.(configured := s.configured + {peer.key}), AttachFailed)
      else
        (made.(peers := s.peers[q.workload := peer], configured := s.configured + {peer.key},
            attached := s.attached + {peer.key}),
         Allocated(peer))
  }

  function Allocate(r: Range, s: State, q: Request, b: Backend): (res: (State, Answer))
    requires ValidRange(r)
  {
    var early := Admit(s, q, b);
    if early.Some? then (s, early.value)
    else
      var (port, next) := Reserve(r, s);
      var moved := s.(nextPort := next);
      if port.None? then (moved, PortExhausted) else Install(moved, q, b, port.value)
  }

  /** State is dropped only after both backend calls succeed. */
  function Revoke(s: State, workload: string, detached: bool, removed: bool): (r: (State, bool)) {
    if workload !in s.peers then (s, true)
    else
      var key := s.peers[workload].key;
      if !detached then (s, false)
      else if !removed then (s.(attached := s.attached - {key}), false)
      else (s.(peers := s.peers - {workload}, configured := s.configured - {key}, attached := s.attached - {key}), true)
  }

  function Rotate(r: Range, s: State, q: Request, detached: bool, removed: bool, b: Backend): (res: (State, Answer))
    requires ValidRange(r)
  {
    var (t, ok) := Revoke(s, q.workload, detached, removed);
    if !ok then (t, RevokeFailed) else Allocate(r, t, q, b)
  }

  // ----- the overlay address of a port -----

  function Digits(n: nat): (s: string) {
    if n < 10 then [(n as char) + '0'] else Digits(n / 10) + [((n % 10) as char) + '0']
  }

  function Render(a: nat, b: nat): (s: string) {
    "10.254." + Digits(a) + "." + Digits(b) + "/32"
  }

  /** "10.254.a.b/32" with a = (port/250) % 250 and b = port % 250 + 1. */
  function OverlayAddress(port: nat): (s: string) {
    Render(port / 250 % 250, port % 250 + 1)
  }

  function Value(s: string): (n: int) {
    if s == [] then 0 else 10 * Value(s[..|s| - 1]) + (s[|s| - 1] as int - '0' as int)
  }

  lemma {:induction false} DigitsInvert(n: nat)
    ensures Value(Digits(n)) == n && |Digits(n)| >= 1
    ensures forall i :: 0 <= i < |Digits(n)| ==> '0' <= Digits(n)[i] <= '9'
  {
    if n >= 10 {
      DigitsInvert(n / 10);
      var d := Digits(n / 10);
      assert Digits(n)[..|d|] == d;
    } else {
      assert Digits(n)[..0] == [];
    }
  }

  /** A separator after digits splits a string in one way only. */
  lemma SplitUnique(a: string, b: string, c: string, d: string, sep: char)
    requires a + [sep] + b == c + [sep] + d
    requires sep !in a && sep !in c
    ensures a == c && b == d
  {
    var s := a + [sep] + b;
    assert s[|a|] == sep && s[|c|] == sep;
    if |a| < |c| { assert false; }
    if |c| < |a| { assert false; }
    assert a == s[..|a|] && c == s[..|c|] && b == s[|a| + 1..] && d == s[|c| + 1..];
  }

  lemma ResidueUnique(p: nat, q: nat)
    ensures p / 250 % 250 == q / 250 % 250 && p % 250 == q % 250 <==> p % 62500 == q % 62500
  {
    Residue(p);
    Residue(q);
  }

  lemma Residue(p: nat)
    ensures p % 62500 == p / 250 % 250 * 250 + p % 250
    ensures p % 62500 / 250 == p / 250 % 250 && p % 62500 % 250 == p % 250
  {
    var a, b := p / 250, p % 250;
    var c, d := a / 250, a % 250;
    assert p == c * 62500 + (d * 250 + b);
    assert 0 <= d * 250 + b < 62500;
  }

  lemma PartsUnique(pre: string, a: string, b: string, c: string, d: string, dot: string, tail: string)
    requires |dot| == 1 && |tail| >= 1
    requires dot[0] !in a && dot[0] !in c && tail[0] !in b && tail[0] !in d
    requires pre + a + dot + b + tail == pre + c + dot + d + tail
    ensures a == c && b == d
  {
    var s, t := pre + a + dot + b + tail, pre + c + dot + d + tail;
    assert dot == [dot[0]] && tail == [tail[0]] + tail[1..];
    assert s[|pre|..] == a + [dot[0]] + (b + tail);
    assert t[|pre|..] == c + [dot[0]] + (d + tail);
    SplitUnique(a, b + tail, c, d + tail, dot[0]);
    assert b + tail == b + [tail[0]] + tail[1..] && d + tail == d + [tail[0]] + tail[1..];
    SplitUnique(b, tail[1..], d, tail[1..], tail[0]);
  }

  lemma DigitsClean(n: nat)
    ensures '.' !in Digits(n) && '/' !in Digits(n)
  {
    DigitsInvert(n);
  }

  lemma RenderInjective(a: nat, b: nat, c: nat, d: nat)
    requires Render(a, b) == Render(c, d)
    ensures a == c && b == d
  {
    DigitsClean(a);
    DigitsClean(b);
    DigitsClean(c);
    DigitsClean(d);
    PartsUnique("10.254.", Digits(a), Digits(b), Digits(c), Digits(d), ".", "/32");
    DigitsInvert(a);
    DigitsInvert(b);
    DigitsInvert(c);
    DigitsInvert(d);
  }

  /** The placeholder's address, and WireGuard's usual port's. */
  lemma AddressExamples()
    ensures OverlayAddress(0) == "10.254.0.1/32" && OverlayAddress(51820) == "10.254.207.71/32"
  {
    assert Digits(0) == "0" && Digits(1) == "1";
    assert Digits(2) == "2" && Digits(20) == "20" && Digits(207) == "207";
    assert Digits(7) == "7" && Digits(71) == "71";
  }

  /** Two ports share an overlay address exactly when they are congruent mod 62500. */
  lemma AddressCollision(p: nat, q: nat)
    ensures OverlayAddress(p) == OverlayAddress(q) <==> p % 62500 == q % 62500
  {
    ResidueUnique(p, q);
    if OverlayAddress(p) == OverlayAddress(q) {
      RenderInjective(p / 250 % 250, p % 250 + 1, q / 250 % 250, q % 250 + 1);
    }
  }
}
