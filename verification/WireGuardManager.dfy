/** The peer manager as the object the orchestrator calls, with its port-search loops. */
module WireGuardManager {
  import opened Base
  import WG = WireGuard
  import Runs = WireGuardRuns

  class Manager {
    const range: WG.Range
    var peers: map<string, WG.Peer>
    var nextPort: nat
    var nextKey: nat
    /** Backend state: configured peers and attached namespaces, by key. */
    var configured: set<nat>
    var attached: set<nat>

    ghost function State(): (s: WG.State)
      reads this
    {
      WG.State(peers, nextPort, nextKey, configured, attached)
    }

    ghost predicate Valid()
      reads this
    {
      WG.ValidRange(range) && Runs.Valid(range, State())
    }

    constructor (range: WG.Range)
      requires WG.ValidRange(range)
      ensures Valid() && this.range == range && State() == Runs.Init(range)
    {
      this.range := range;
      peers, nextPort, nextKey, configured, attached := map[], range.first, 0, {}, {};
    }

    /** The scan over live peers inside the port search. */
    method InUse(port: nat) returns (used: bool)
      ensures used <==> port in WG.UsedPorts(peers)
    {
      used := false;
      var rest := peers.Keys;
      while rest != {}
        invariant rest <= peers.Keys
        invariant forall w :: w in peers.Keys - rest ==> peers[w].port != port
        decreases rest
      {
        var w :| w in rest;
        if peers[w].port == port { return true; }
        rest := rest - {w};
      }
    }

    method ReservePort() returns (found: Option<nat>)
      requires Valid()
      modifies this`nextPort
      ensures (found, nextPort) == WG.Reserve(range, old(State()))
      ensures found.None? <==> forall p :: Runs.InRange(range, p) ==> p in WG.UsedPorts(peers)
      ensures found.Some? ==> found.value !in WG.UsedPorts(peers) && Runs.InRange(range, found.value)
    {
      ghost var k := Runs.ReserveFirstFree(range, State());
      var n := range.last - range.first + 1;
      var i := 0;
      while i < n
        invariant 0 <= i <= n
        invariant WG.Scan(range, WG.UsedPorts(peers), nextPort, n - i) == WG.Reserve(range, old(State()))
      {
        var port := nextPort;
        nextPort := nextPort + 1;
        if nextPort > range.last { nextPort := range.first; }
        var used := InUse(port);
        if !used { return Some(port); }
        i := i + 1;
      }
      return None;
    }

    method Allocate(q: WG.Request, b: WG.Backend) returns (answer: WG.Answer)
      requires Valid()
      modifies this
      ensures Valid()
      ensures (State(), answer) == WG.Allocate(range, old(State()), q, b)
      ensures !answer.Allocated? ==> peers == old(peers)
    {
      Runs.AllocateKeeps(range, State(), q, b);
      Runs.AllocateAllOrNothing(range, State(), q, b);
      if q.workload == "" || q.lease == "" || q.container == "" || q.expiresAt == 0 { return WG.LeaseRequired; }
      if q.expiresAt <= b.now { return WG.LeaseExpired; }
      if q.workload in peers {
        if peers[q.workload].lease != q.lease { return WG.DifferentLease; }
        return WG.Allocated(peers[q.workload]);
      }
      var port := ReservePort();
      if port.None? { return WG.PortExhausted; }
      if !b.keyMade { return WG.KeyFailed; }
      var ips := q.allowedIPs;
      if ips == [] { ips := [WG.OverlayAddress(port.value)]; }
      var peer := WG.Peer(q.workload, q.lease, nextKey, port.value, q.expiresAt, ips, q.container);
      nextKey := nextKey + 1;
      if !b.configured { return WG.ConfigureFailed; }
      configured := configured + {peer.key};
      if !b.attached {
        if b.rolledBack { configured := configured - {peer.key}; }
        return WG.AttachFailed;
      }
      attached := attached + {peer.key};
      peers := peers[q.workload := peer];
      return WG.Allocated(peer);
    }

    method Revoke(workload: string, detached: bool, removed: bool) returns (ok: bool)
      requires Valid()
      modifies this
      ensures Valid()
      ensures (State(), ok) == WG.Revoke(old(State()), workload, detached, removed)
      ensures ok ==> workload !in peers
    {
      Runs.RevokeKeeps(range, State(), workload, detached, removed);
      if workload !in peers { return true; }
      var key := peers[workload].key;
      if !detached { return false; }
      attached := attached - {key};
      if !removed { return false; }
      configured := configured - {key};
      peers := peers - {workload};
      return true;
    }

    method Rotate(q: WG.Request, detached: bool, removed: bool, b: WG.Backend) returns (answer: WG.Answer)
      requires Valid()
      modifies this
      ensures Valid()
      ensures (State(), answer) == WG.Rotate(range, old(State()), q, detached, removed, b)
    {
      var ok := Revoke(q.workload, detached, removed);
      if !ok { return WG.RevokeFailed; }
      answer := Allocate(q, b);
    }
  }
}
