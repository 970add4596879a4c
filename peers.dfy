/** The neighbour-table node that `etapa2/Node.py`, `Client.py`, `ProgEx/Python/PoP.py`,
    `ProgEx/Python/Client.py`, `etapa3/ESR-TP2/Server.py` and `etapa3/ESR-TP2/ClientOk.py`
    each spell out again: registration with the bootstrapper, UPDATE_NEIGHBORS, PING and
    the probe sweep. The copies differ only in the entries they store, the counter the
    sweep reads, and whether an expired neighbour is reported; `Rules` holds those
    differences and each variant's module fixes them. */
module Peers {
  import opened Common
  import opened OrdMap
  import opened Messages
  import opened Liveness

  /** What a node says about itself in REGISTER, UPDATE_NEIGHBORS and PING; `nodeType` is
      "" for the variants that never set it. */
  datatype Identity = Identity(id: string, ip: IP, nodeType: string, controlPort: int, dataPort: int)

  /** Where the copies differ: the entry stored for a neighbour listed in a registration
      response, the entry stored for an unknown announcer, the counter key the sweep and
      a PING reset, and the bootstrapper that an expired neighbour is reported to, if
      any. */
  datatype Rules = Rules(
    listed: NeighborInfo -> Neighbor, newcomer: ControlMessage -> Neighbor,
    counter: Counter, alert: Option<IP>)

  /** The rules of `etapa2/Node.py` and `etapa3/ESR-TP2/Server.py`: listed and announced
      neighbours both start active with no failure, the sweep counts "failed-attempts",
      and an expiry is not reported. */
  const ActiveRules := Rules(ListedActive, AnnouncedActive, FailedAttempts, None)

  /** The neighbour table, and every message sent so far. */
  datatype PeerState = PeerState(neighbors: Table, outbox: seq<Send>)

  // ---------------------------------------------------------------------------------
  // Messages

  /** REGISTER and UPDATE_NEIGHBORS: the node's id, IP, type and ports. */
  function Announcement(me: Identity, t: ControlType): (c: ControlMessage)
    ensures c.ctype == t && c.nodeId == me.id && c.nodeIp == me.ip && c.nodeType == me.nodeType
    ensures c.controlPort == me.controlPort && c.dataPort == me.dataPort && c.neighbors == []
  {
    Control(t).(nodeId := me.id, nodeIp := me.ip, nodeType := me.nodeType,
                controlPort := me.controlPort, dataPort := me.dataPort)
  }

  /** The PING of a sweep: IP and id. */
  function PingOf(me: Identity): (c: ControlMessage)
    ensures c.ctype == Ping && c.nodeIp == me.ip && c.nodeId == me.id
  {
    Control(Ping).(nodeIp := me.ip, nodeId := me.id)
  }

  /** The answer to a PING: a PONG carrying only the id. */
  function PongOf(me: Identity): (c: ControlMessage)
    ensures c.ctype == ControlType.Pong && c.nodeId == me.id && c.nodeIp == ""
  {
    Control(ControlType.Pong).(nodeId := me.id)
  }

  /** INACTIVE_NODE naming the neighbour that expired. */
  function InactiveReport(ip: IP): (c: ControlMessage)
    ensures c.ctype == InactiveNode && c.nodeIp == ip
  {
    Control(InactiveNode).(nodeIp := ip)
  }

  // ---------------------------------------------------------------------------------
  // The handlers, as functions of the state

  /** `register_with_bootstrapper` given the reply: a REGISTER_RESPONSE clears the table,
      stores each listed neighbour, and then announces the node to every neighbour; any
      other reply changes nothing. */
  function Registered(me: Identity, rules: Rules, s: PeerState, reply: ControlMessage): PeerState {
    if reply.ctype == RegisterResponse then
      var t := Rebuild(reply.neighbors, rules.listed);
      PeerState(t, s.outbox + Broadcast(Announcement(me, UpdateNeighbors), t.keys))
    else s
  }

  /** `handle_update_neighbors` */
  function Announced(rules: Rules, s: PeerState, c: ControlMessage): PeerState
    requires s.neighbors.Valid()
  {
    s.(neighbors := Announce(s.neighbors, c.nodeIp, rules.newcomer(c)))
  }

  /** `handle_ping`: a PONG back to the sender, then the sender's counter reset if it is a
      neighbour. */
  function Pinged(me: Identity, rules: Rules, s: PeerState, c: ControlMessage): PeerState
    requires s.neighbors.Valid()
  {
    PeerState(PingedBy(s.neighbors, c.nodeIp, rules.counter),
              s.outbox + [Send(c.nodeIp, ControlMsg(PongOf(me)))])
  }

  /** What one sweep event sends: a PING to a probed neighbour, and an INACTIVE_NODE to
      the bootstrapper for an expired one when the variant reports expiries. */
  function Notice(me: Identity, alert: Option<IP>, e: SweepEvent): seq<Send> {
    match e
    case Probed(ip) => [Send(ip, ControlMsg(PingOf(me)))]
    case Expired(ip) => if alert.Some? then [Send(alert.value, ControlMsg(InactiveReport(ip)))] else []
  }

  /** Everything a sweep sends, in event order. */
  function Notices(me: Identity, alert: Option<IP>, events: seq<SweepEvent>): seq<Send> {
    if events == [] then []
    else Notices(me, alert, events[..|events| - 1]) + Notice(me, alert, events[|events| - 1])
  }

  /** One iteration of `send_ping_to_neighbors`, with the probe outcomes given. */
  function Swept(me: Identity, rules: Rules, s: PeerState, probes: IP -> Probe): PeerState
    requires s.neighbors.Valid()
  {
    PeerState(SweepTable(s.neighbors, probes, rules.counter),
              s.outbox + Notices(me, rules.alert, Events(s.neighbors.keys, s.neighbors.m, rules.counter)))
  }

  /** `handle_control_connection`, for one control message: UPDATE_NEIGHBORS and PING are
      handled, every other type is ignored. */
  function Controlled(me: Identity, rules: Rules, s: PeerState, c: ControlMessage): PeerState
    requires s.neighbors.Valid()
  {
    if c.ctype == UpdateNeighbors then Announced(rules, s, c)
    else if c.ctype == Ping then Pinged(me, rules, s, c)
    else s
  }

  // ---------------------------------------------------------------------------------
  // What the handlers promise

  /** A REGISTER_RESPONSE leaves exactly the listed IPs, each holding the entry built from
      a listing of it, and announces the node once to each of them, in table order. */
  lemma RegisteredEffect(me: Identity, rules: Rules, s: PeerState, reply: ControlMessage)
    ensures var r := Registered(me, rules, s, reply);
      && (reply.ctype != RegisterResponse ==> r == s)
      && (reply.ctype == RegisterResponse ==>
            && r.neighbors.Valid()
            && (forall ip :: ip in r.neighbors.m <==> exists i | 0 <= i < |reply.neighbors| :: reply.neighbors[i].nodeIp == ip)
            && (forall ip | ip in r.neighbors.m :: exists i | 0 <= i < |reply.neighbors| ::
                  reply.neighbors[i].nodeIp == ip && r.neighbors.m[ip] == rules.listed(reply.neighbors[i]))
            && r.outbox == s.outbox + Broadcast(Announcement(me, UpdateNeighbors), r.neighbors.keys))
  {
    RebuildKeys(reply.neighbors, rules.listed);
    RebuildEntries(reply.neighbors, rules.listed);
  }

  /** Every PING is answered with one PONG to its sender; only a known sender's entry
      changes, to a zero counter and "active". */
  lemma PingedEffect(me: Identity, rules: Rules, s: PeerState, c: ControlMessage)
    requires s.neighbors.Valid()
    ensures var r := Pinged(me, rules, s, c);
      && r.outbox == s.outbox + [Send(c.nodeIp, ControlMsg(PongOf(me)))]
      && r.neighbors.keys == s.neighbors.keys
      && (c.nodeIp in s.neighbors.m ==>
            Count(r.neighbors.m[c.nodeIp], rules.counter) == 0 && r.neighbors.m[c.nodeIp].status == Some(Active))
      && (c.nodeIp !in s.neighbors.m ==> r.neighbors == s.neighbors)
      && (forall k | k in s.neighbors.m && k != c.nodeIp :: r.neighbors.m[k] == s.neighbors.m[k])
  {
    PingedByEffect(s.neighbors, c.nodeIp, rules.counter);
  }

  /** The sends of two stretches of a sweep, one after the other. */
  lemma {:induction false} NoticesAppend(me: Identity, alert: Option<IP>, a: seq<SweepEvent>, b: seq<SweepEvent>)
    ensures Notices(me, alert, a + b) == Notices(me, alert, a) + Notices(me, alert, b)
    decreases |b|
  {
    if b == [] {
      assert a + b == a;
    } else {
      var front := b[..|b| - 1];
      NoticesAppend(me, alert, a, front);
      assert (a + b)[..|a + b| - 1] == a + front && (a + b)[|a + b| - 1] == b[|b| - 1];
    }
  }

  /** A sweep pings exactly the probed neighbours, and reports exactly the expired ones
      when the variant reports; nothing else is sent. */
  lemma {:induction false} NoticesContents(me: Identity, alert: Option<IP>, events: seq<SweepEvent>, ip: IP)
    ensures Send(ip, ControlMsg(PingOf(me))) in Notices(me, alert, events) <==> Probed(ip) in events
    ensures alert.Some? ==>
      (Send(alert.value, ControlMsg(InactiveReport(ip))) in Notices(me, alert, events) <==> Expired(ip) in events)
    ensures forall k | 0 <= k < |Notices(me, alert, events)| :: Notices(me, alert, events)[k].payload.ControlMsg? && Notices(me, alert, events)[k].payload.c.ctype in {Ping, InactiveNode}
    ensures alert.None? ==> forall k | 0 <= k < |Notices(me, alert, events)| :: Notices(me, alert, events)[k].payload == ControlMsg(PingOf(me))
  {
    if events != [] {
      var front := events[..|events| - 1];
      NoticesContents(me, alert, front, ip);
      assert events == front + [events[|events| - 1]];
    }
  }

  /** A sweep keeps the table's keys and sweeps each entry once by the shared rule; it
      pings exactly the live neighbours below two failures and, when the variant reports,
      reports exactly the live neighbours at two or more. */
  lemma SweptEffect(me: Identity, rules: Rules, s: PeerState, probes: IP -> Probe, ip: IP)
    requires s.neighbors.Valid()
    ensures var r := Swept(me, rules, s, probes);
      var sent := r.outbox[|s.outbox|..];
      && r.neighbors.keys == s.neighbors.keys
      && r.outbox[..|s.outbox|] == s.outbox
      && (ip in s.neighbors.m ==> r.neighbors.m[ip] == SweepEntry(s.neighbors.m[ip], probes(ip), rules.counter))
      && (Send(ip, ControlMsg(PingOf(me))) in sent <==>
            ip in s.neighbors.m && !IsInactive(s.neighbors.m[ip]) && Count(s.neighbors.m[ip], rules.counter) < 2)
      && (rules.alert.Some? ==>
            (Send(rules.alert.value, ControlMsg(InactiveReport(ip))) in sent <==>
              ip in s.neighbors.m && !IsInactive(s.neighbors.m[ip]) && Count(s.neighbors.m[ip], rules.counter) >= 2))
  {
    var events := Events(s.neighbors.keys, s.neighbors.m, rules.counter);
    var r := Swept(me, rules, s, probes);
    assert r.outbox[|s.outbox|..] == Notices(me, rules.alert, events);
    NoticesContents(me, rules.alert, events, ip);
    EventsContents(s.neighbors.keys, s.neighbors.m, rules.counter, ip);
  }

  /** A neighbour reported by one sweep is inactive afterwards, so the next sweep neither
      pings it nor reports it again. */
  lemma ReportedOnce(me: Identity, rules: Rules, s: PeerState, p1: IP -> Probe, p2: IP -> Probe, ip: IP)
    requires s.neighbors.Valid() && rules.alert.Some?
    requires var r := Swept(me, rules, s, p1);
      Send(rules.alert.value, ControlMsg(InactiveReport(ip))) in r.outbox[|s.outbox|..]
    ensures var r1 := Swept(me, rules, s, p1);
      var r2 := Swept(me, rules, r1, p2);
      && Send(rules.alert.value, ControlMsg(InactiveReport(ip))) !in r2.outbox[|r1.outbox|..]
      && Send(ip, ControlMsg(PingOf(me))) !in r2.outbox[|r1.outbox|..]
  {
    var r1 := Swept(me, rules, s, p1);
    SweptEffect(me, rules, s, p1, ip);
    SweepEntryEffect(s.neighbors.m[ip], p1(ip), rules.counter);
    SweptEffect(me, rules, r1, p2, ip);
  }

  // ---------------------------------------------------------------------------------
  // The node

  class Peer {
    const me: Identity
    const rules: Rules
    /** `self.neighbors` */
    var neighbors: Table
    /** Every message sent, in order. */
    var outbox: seq<Send>

    function State(): PeerState
      reads this
    {
      PeerState(neighbors, outbox)
    }

    predicate Valid()
      reads this
    {
      neighbors.Valid()
    }

    /** A node before registration: no neighbours, nothing sent. */
    constructor (me: Identity, rules: Rules)
      ensures this.me == me && this.rules == rules && Valid()
      ensures State() == PeerState(Empty(), [])
    {
      this.me := me;
      this.rules := rules;
      neighbors := Empty();
      outbox := [];
    }

    /** `register_with_bootstrapper` and `notify_neighbors_registration`: `request` is the
        REGISTER sent, `reply` the bootstrapper's answer. */
    method RegisterWithBootstrapper(reply: ControlMessage) returns (request: ControlMessage)
      requires Valid()
      modifies this
      ensures request == Announcement(me, Register)
      ensures State() == Registered(me, rules, old(State()), reply)
      ensures Valid()
    {
      request := Announcement(me, Register);
      if reply.ctype == RegisterResponse {
        neighbors := Liveness.Register(reply.neighbors, rules.listed);
        outbox := Notify(outbox, Announcement(me, UpdateNeighbors), neighbors.keys);
      }
    }

    /** `handle_update_neighbors` */
    method HandleUpdateNeighbors(c: ControlMessage)
      requires Valid()
      modifies this
      ensures State() == Announced(rules, old(State()), c)
      ensures Valid()
    {
      if c.nodeIp in neighbors.m {
        neighbors := neighbors.Put(c.nodeIp, neighbors.m[c.nodeIp].(status := Some(Active)));
      } else {
        neighbors := neighbors.Put(c.nodeIp, rules.newcomer(c));
      }
    }

    /** `handle_ping` */
    method HandlePing(c: ControlMessage)
      requires Valid()
      modifies this
      ensures State() == Pinged(me, rules, old(State()), c)
      ensures Valid()
    {
      outbox := outbox + [Send(c.nodeIp, ControlMsg(PongOf(me)))];
      if c.nodeIp in neighbors.m {
        neighbors := neighbors.Put(c.nodeIp, WithCount(neighbors.m[c.nodeIp], rules.counter, 0).(status := Some(Active)));
      }
    }

    /** One iteration of `send_ping_to_neighbors`. */
    method SweepNeighbors(probes: IP -> Probe)
      requires Valid()
      modifies this
      ensures State() == Swept(me, rules, old(State()), probes)
      ensures Valid()
    {
      var t, events := Sweep(neighbors, probes, rules.counter);
      neighbors := t;
      outbox := outbox + Notices(me, rules.alert, events);
    }

    /** `handle_control_connection`, for one control message. */
    method ReceiveControl(c: ControlMessage)
      requires Valid()
      modifies this
      ensures State() == Controlled(me, rules, old(State()), c)
      ensures Valid()
    {
      if c.ctype == UpdateNeighbors {
        HandleUpdateNeighbors(c);
      } else if c.ctype == Ping {
        HandlePing(c);
      }
    }
  }
}
