/** `etapa2/Node.py`: an overlay node that registers, keeps its neighbour table alive with
    the PING sweep under "failed-attempts", and, when it is a point of presence, answers
    every datagram on its data port with an ACK. */
module PlainNode {
  import opened Common
  import opened OrdMap
  import opened Messages
  import opened Liveness
  import opened Peers

  const CONTROL_PORT := 50051
  const DATA_PORT := 50052

  /** A node started from the command line, on the default ports. */
  function NodeIdentity(id: string, ip: IP, nodeType: string): (me: Identity)
    ensures me.controlPort == CONTROL_PORT && me.dataPort == DATA_PORT && me.nodeType == nodeType
  {
    Identity(id, ip, nodeType, CONTROL_PORT, DATA_PORT)
  }

  /** `Node(...)` */
  method NewNode(id: string, ip: IP, nodeType: string) returns (n: Peer)
    ensures fresh(n) && n.Valid()
    ensures n.me == NodeIdentity(id, ip, nodeType) && n.rules == ActiveRules
    ensures n.State() == PeerState(Empty(), [])
  {
    n := new Peer(NodeIdentity(id, ip, nodeType), ActiveRules);
  }

  /** Every neighbour is active and has a "failed-attempts" key: what registration,
      announcements and pings keep, and only the sweep breaks. */
  predicate AllLive(t: Table) {
    forall ip | ip in t.m :: t.m[ip].status == Some(Active) && t.m[ip].failed.Some?
  }

  /** A registration response leaves every neighbour live. */
  lemma RegisteredLive(me: Identity, s: PeerState, reply: ControlMessage)
    requires AllLive(s.neighbors)
    ensures AllLive(Registered(me, ActiveRules, s, reply).neighbors)
  {
    if reply.ctype == RegisterResponse {
      RegisteredEffect(me, ActiveRules, s, reply);
      var t := Registered(me, ActiveRules, s, reply).neighbors;
      forall ip | ip in t.m
        ensures t.m[ip].status == Some(Active) && t.m[ip].failed.Some?
      {
        var i :| 0 <= i < |reply.neighbors| && reply.neighbors[i].nodeIp == ip && t.m[ip] == ListedActive(reply.neighbors[i]);
      }
    }
  }

  /** An announcement and a PING each keep every neighbour live. */
  lemma AnnouncedPingedLive(me: Identity, s: PeerState, c: ControlMessage)
    requires s.neighbors.Valid() && AllLive(s.neighbors)
    ensures AllLive(Announced(ActiveRules, s, c).neighbors)
    ensures AllLive(Pinged(me, ActiveRules, s, c).neighbors)
  {
    AnnounceEffect(s.neighbors, c.nodeIp, AnnouncedActive(c));
    PingedByEffect(s.neighbors, c.nodeIp, FailedAttempts);
  }

  /** A sweep never reports to anyone: everything it sends is the node's PING. */
  lemma SweepOnlyPings(me: Identity, s: PeerState, probes: IP -> Probe)
    requires s.neighbors.Valid()
    ensures var r := Swept(me, ActiveRules, s, probes);
      forall k | |s.outbox| <= k < |r.outbox| :: r.outbox[k].payload == ControlMsg(PingOf(me))
  {
    var events := Events(s.neighbors.keys, s.neighbors.m, FailedAttempts);
    NoticesContents(me, None, events, me.ip);
    var r := Swept(me, ActiveRules, s, probes);
    forall k | |s.outbox| <= k < |r.outbox|
      ensures r.outbox[k].payload == ControlMsg(PingOf(me))
    {
      assert r.outbox[k] == Notices(me, None, events)[k - |s.outbox|];
    }
  }

  // ---------------------------------------------------------------------------------
  // The data port

  /** `data_server` and `listen_for_client`: a point of presence answers each datagram,
      in arrival order, with an ACK to its sender; any other node does not listen. */
  function DataReplies(nodeType: string, senders: seq<IP>): (r: seq<Send>)
    ensures nodeType != "pop" ==> r == []
    ensures nodeType == "pop" ==> |r| == |senders|
    ensures nodeType == "pop" ==> forall i | 0 <= i < |r| :: r[i] == Send(senders[i], Text("ACK"))
  {
    if nodeType != "pop" || senders == [] then []
    else DataReplies(nodeType, senders[..|senders| - 1]) + [Send(senders[|senders| - 1], Text("ACK"))]
  }
}
