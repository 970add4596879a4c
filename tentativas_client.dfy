/** `Client.py` at the top of the repository: a client that registers, counts failed
    probes under "tentativas", and reports each neighbour that expires to the
    bootstrapper with INACTIVE_NODE. */
module TentativasClient {
  import opened Common
  import opened OrdMap
  import opened Messages
  import opened Liveness
  import opened Peers

  const CONTROL_PORT := 5001
  const DATA_PORT := 5002

  /** A client with the fixed ports and type "client". */
  function ClientIdentity(id: string, ip: IP): (me: Identity)
    ensures me.nodeType == "client" && me.controlPort == CONTROL_PORT && me.dataPort == DATA_PORT
  {
    Identity(id, ip, "client", CONTROL_PORT, DATA_PORT)
  }

  /** A neighbour listed in the registration response: no "status" key, "tentativas" at 0. */
  function Listed(info: NeighborInfo): (n: Neighbor)
    ensures n.status == None && n.tentativas == Some(0) && n.failed == None
    ensures n.nodeId == info.nodeId && n.controlPort == info.controlPort && n.nodeType == info.nodeType
  {
    Neighbor(info.nodeId, info.controlPort, info.dataPort, info.nodeType, 0, None, None, Some(0), None, None, None)
  }

  /** The client's rules, reporting expiries to the bootstrapper at `bootstrapper`. */
  function ClientRules(bootstrapper: IP): (r: Rules)
    ensures r.counter == Tentativas && r.alert == Some(bootstrapper)
  {
    Rules(Listed, AnnouncedTentativas, Tentativas, Some(bootstrapper))
  }

  /** `Client(...)` */
  method NewClient(id: string, ip: IP, bootstrapper: IP) returns (n: Peer)
    ensures fresh(n) && n.Valid()
    ensures n.me == ClientIdentity(id, ip) && n.rules == ClientRules(bootstrapper)
    ensures n.State() == PeerState(Empty(), [])
  {
    n := new Peer(ClientIdentity(id, ip), ClientRules(bootstrapper));
  }

  /** A listed neighbour has no "status" key and no failure. */
  lemma ListedEntry(me: Identity, bootstrapper: IP, s: PeerState, reply: ControlMessage, ip: IP)
    requires reply.ctype == RegisterResponse
    requires exists i | 0 <= i < |reply.neighbors| :: reply.neighbors[i].nodeIp == ip
    ensures var t := Registered(me, ClientRules(bootstrapper), s, reply).neighbors;
      t.Valid() && ip in t.m && t.m[ip].status == None && Count(t.m[ip], Tentativas) == 0
  {
    var t := Rebuild(reply.neighbors, Listed);
    RebuildKeys(reply.neighbors, Listed);
    assert ip in t.m;
    RebuildEntries(reply.neighbors, Listed);
    var i :| 0 <= i < |reply.neighbors| && reply.neighbors[i].nodeIp == ip && t.m[ip] == Listed(reply.neighbors[i]);
  }

  /** The sweep reads a missing "status" key as live: a listed neighbour is probed at the
      first sweep after registration, and a PONG makes it active. */
  lemma ListedIsProbed(me: Identity, bootstrapper: IP, s: PeerState, reply: ControlMessage, probes: IP -> Probe, ip: IP)
    requires reply.ctype == RegisterResponse
    requires exists i | 0 <= i < |reply.neighbors| :: reply.neighbors[i].nodeIp == ip
    ensures var r := Registered(me, ClientRules(bootstrapper), s, reply);
      var r2 := Swept(me, ClientRules(bootstrapper), r, probes);
      && Send(ip, ControlMsg(PingOf(me))) in r2.outbox[|r.outbox|..]
      && ip in r2.neighbors.m && (probes(ip).Pong? ==> r2.neighbors.m[ip].status == Some(Active))
  {
    var rules := ClientRules(bootstrapper);
    ListedEntry(me, bootstrapper, s, reply, ip);
    var r := Registered(me, rules, s, reply);
    SweptEffect(me, rules, r, probes, ip);
    SweepEntryEffect(r.neighbors.m[ip], probes(ip), Tentativas);
  }

  /** A neighbour that loses three probes in a row after registering is reported to the
      bootstrapper exactly at the third sweep. */
  lemma ReportedAtThirdSweep(me: Identity, bootstrapper: IP, s: PeerState, p1: IP -> Probe, p2: IP -> Probe, p3: IP -> Probe, ip: IP)
    requires s.neighbors.Valid() && ip in s.neighbors.m && !IsInactive(s.neighbors.m[ip])
    requires Count(s.neighbors.m[ip], Tentativas) == 0 && p1(ip) == Lost && p2(ip) == Lost
    ensures var rules := ClientRules(bootstrapper);
      var r1 := Swept(me, rules, s, p1);
      var r2 := Swept(me, rules, r1, p2);
      var r3 := Swept(me, rules, r2, p3);
      && Send(bootstrapper, ControlMsg(InactiveReport(ip))) !in r1.outbox[|s.outbox|..]
      && Send(bootstrapper, ControlMsg(InactiveReport(ip))) !in r2.outbox[|r1.outbox|..]
      && Send(bootstrapper, ControlMsg(InactiveReport(ip))) in r3.outbox[|r2.outbox|..]
  {
    var rules := ClientRules(bootstrapper);
    var n := s.neighbors.m[ip];
    SweptEffect(me, rules, s, p1, ip);
    SweepEntryEffect(n, p1(ip), Tentativas);
    var r1 := Swept(me, rules, s, p1);
    SweptEffect(me, rules, r1, p2, ip);
    SweepEntryEffect(r1.neighbors.m[ip], p2(ip), Tentativas);
    var r2 := Swept(me, rules, r1, p2);
    SweptEffect(me, rules, r2, p3, ip);
  }

  // ---------------------------------------------------------------------------------
  // `handle_ping` as written takes the client's lock twice

  /** `handle_ping` as written: the PONG goes out, then for a known sender the handler
      acquires the non-reentrant lock it already holds and never continues, so the reset
      is lost; the flag says whether the handler returned and released the lock. */
  function PingedAsWritten(me: Identity, s: PeerState, c: ControlMessage): (r: (PeerState, bool))
    ensures r.0.neighbors == s.neighbors
    ensures r.0.outbox == s.outbox + [Send(c.nodeIp, ControlMsg(PongOf(me)))]
    ensures r.1 <==> c.nodeIp !in s.neighbors.m
  {
    (PeerState(s.neighbors, s.outbox + [Send(c.nodeIp, ControlMsg(PongOf(me)))]), c.nodeIp !in s.neighbors.m)
  }

  /** A neighbour one failure short of expiring pings the client: as written its counter
      stays at two and the handler hangs holding the lock; with a single acquisition the
      counter is back to zero. */
  lemma NestedLockLosesReset(me: Identity, bootstrapper: IP)
    ensures var n := AnnouncedTentativas(Control(UpdateNeighbors).(nodeIp := "10.0.0.2")).(tentativas := Some(2));
      var s := PeerState(Empty<IP, Neighbor>().Put("10.0.0.2", n), []);
      var c := PingOf(Identity("n2", "10.0.0.2", "", 0, 0));
      && Count(PingedAsWritten(me, s, c).0.neighbors.m["10.0.0.2"], Tentativas) == 2
      && !PingedAsWritten(me, s, c).1
      && Count(Pinged(me, ClientRules(bootstrapper), s, c).neighbors.m["10.0.0.2"], Tentativas) == 0
  {
    var n := AnnouncedTentativas(Control(UpdateNeighbors).(nodeIp := "10.0.0.2")).(tentativas := Some(2));
    var s := PeerState(Empty<IP, Neighbor>().Put("10.0.0.2", n), []);
    var c := PingOf(Identity("n2", "10.0.0.2", "", 0, 0));
    PingedEffect(me, ClientRules(bootstrapper), s, c);
  }
}
