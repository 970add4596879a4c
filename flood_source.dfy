/** The stream source of `etapa3/ESR-TP2/Server.py`: the shared neighbour table under
    "failed-attempts", the ports each downstream neighbour reports when it activates a
    route, and the flood round, which sends the whole flood to every neighbour once for
    each neighbour that is not inactive. */
module FloodSource {
  import opened Common
  import opened OrdMap
  import opened Messages
  import opened Liveness
  import opened Peers

  /** The server's settings: id, IP, type, control and data ports, and the RTSP port it
      advertises. */
  datatype Config = Config(serverId: string, serverIp: IP, serverType: string, controlPort: int, dataPort: int, rtspPort: int)

  /** `self.movies.values()` */
  const MOVIES: seq<string> := ["movie.Mjpeg"]

  /** What the server says about itself in REGISTER, UPDATE_NEIGHBORS and PING. */
  function ServerIdentity(cfg: Config): (me: Identity)
    ensures me.id == cfg.serverId && me.ip == cfg.serverIp && me.nodeType == cfg.serverType
    ensures me.controlPort == cfg.controlPort && me.dataPort == cfg.dataPort
  {
    Identity(cfg.serverId, cfg.serverIp, cfg.serverType, cfg.controlPort, cfg.dataPort)
  }

  // ---------------------------------------------------------------------------------
  // The flood round

  /** `send_flooding_message`'s message: a FLOODING_UPDATE naming the server and every film,
      with route state "inactive", no hop yet, and the server's control and RTSP ports. */
  function FloodOf(cfg: Config): (f: FloodingMessage)
    ensures f.ftype == FloodingUpdate && f.sourceId == cfg.serverId && f.sourceIp == cfg.serverIp
    ensures f.streamIds == MOVIES && f.routeState == "inactive" && f.hops == 0
    ensures f.controlPort == cfg.controlPort && f.rtspPort == cfg.rtspPort
  {
    Flooding(FloodingUpdate).(sourceId := cfg.serverId, sourceIp := cfg.serverIp, streamIds := MOVIES,
                              routeState := "inactive", hops := 0, controlPort := cfg.controlPort,
                              rtspPort := cfg.rtspPort)
  }

  /** `send_flooding_message`'s loop: one copy of `f` to each of `ips`, in order, whatever
      their status. */
  function FloodTo(f: FloodingMessage, ips: seq<IP>): (r: seq<Send>)
    ensures |r| == |ips|
    ensures forall i | 0 <= i < |ips| :: r[i] == Send(ips[i], FloodingMsg(f))
  {
    if ips == [] then []
    else FloodTo(f, ips[..|ips| - 1]) + [Send(ips[|ips| - 1], FloodingMsg(f))]
  }

  /** The number of `keys` whose neighbour is not inactive. */
  function LiveCount(keys: seq<IP>, m: map<IP, Neighbor>): (n: nat)
    requires forall i | 0 <= i < |keys| :: keys[i] in m
    ensures n <= |keys|
  {
    if keys == [] then 0
    else LiveCount(keys[..|keys| - 1], m) + (if IsInactive(m[keys[|keys| - 1]]) then 0 else 1)
  }

  /** `send_flood_to_neighbors`, one round over the neighbours `keys`: for each that is not
      inactive, the whole flood to `all`. */
  function FloodRound(f: FloodingMessage, keys: seq<IP>, m: map<IP, Neighbor>, all: seq<IP>): seq<Send>
    requires forall i | 0 <= i < |keys| :: keys[i] in m
  {
    if keys == [] then []
    else
      FloodRound(f, keys[..|keys| - 1], m, all) +
        (if IsInactive(m[keys[|keys| - 1]]) then [] else FloodTo(f, all))
  }

  /** With each address listed once, the flood reaches each listed address once and no
      other address. */
  lemma {:induction false} FloodToOnce(f: FloodingMessage, ips: seq<IP>, ip: IP)
    requires forall i, j | 0 <= i < j < |ips| :: ips[i] != ips[j]
    ensures multiset(FloodTo(f, ips))[Send(ip, FloodingMsg(f))] == if ip in ips then 1 else 0
  {
    if ips != [] {
      var front := ips[..|ips| - 1];
      var last := ips[|ips| - 1];
      FloodToOnce(f, front, ip);
      assert ips == front + [last];
      forall i | 0 <= i < |front|
        ensures front[i] != last
      {
        assert front[i] == ips[i];
      }
    }
  }

  /** The round over one more neighbour. */
  lemma FloodRoundNext(f: FloodingMessage, keys: seq<IP>, m: map<IP, Neighbor>, i: nat)
    requires forall j | 0 <= j < |keys| :: keys[j] in m
    requires i < |keys|
    ensures FloodRound(f, keys[..i + 1], m, keys) ==
      FloodRound(f, keys[..i], m, keys) + (if IsInactive(m[keys[i]]) then [] else FloodTo(f, keys))
  {
    assert keys[..i + 1][..i] == keys[..i];
  }

  /** With each address listed once, a round brings each listed address one copy of the
      flood per live neighbour, and no other address any. */
  lemma {:induction false} FloodRoundCopies(f: FloodingMessage, keys: seq<IP>, m: map<IP, Neighbor>, all: seq<IP>, ip: IP)
    requires forall i | 0 <= i < |keys| :: keys[i] in m
    requires forall i, j | 0 <= i < j < |all| :: all[i] != all[j]
    ensures multiset(FloodRound(f, keys, m, all))[Send(ip, FloodingMsg(f))] == if ip in all then LiveCount(keys, m) else 0
  {
    if keys != [] {
      var front := keys[..|keys| - 1];
      FloodRoundCopies(f, front, m, all, ip);
      FloodToOnce(f, all, ip);
      var extra := if IsInactive(m[keys[|keys| - 1]]) then [] else FloodTo(f, all);
      assert FloodRound(f, keys, m, all) == FloodRound(f, front, m, all) + extra;
    }
  }

  /** `(n + b) * c == n * c + b * c` */
  lemma MultiplyStep(n: nat, b: nat, c: nat)
    ensures (n + b) * c == n * c + b * c
  {
  }

  /** A round sends the flood in full once per live neighbour. */
  lemma {:induction false} FloodRoundLength(f: FloodingMessage, keys: seq<IP>, m: map<IP, Neighbor>, all: seq<IP>)
    requires forall i | 0 <= i < |keys| :: keys[i] in m
    ensures |FloodRound(f, keys, m, all)| == LiveCount(keys, m) * |all|
  {
    if keys != [] {
      var front := keys[..|keys| - 1];
      FloodRoundLength(f, front, m, all);
      MultiplyStep(LiveCount(front, m), if IsInactive(m[keys[|keys| - 1]]) then 0 else 1, |all|);
    }
  }

  /** Every neighbour, inactive ones included, receives as many copies of the flood in a
      round as there are neighbours that are not inactive; no other address receives
      any. */
  lemma CopiesPerNeighbour(cfg: Config, t: Table, ip: IP)
    requires t.Valid()
    ensures multiset(FloodRound(FloodOf(cfg), t.keys, t.m, t.keys))[Send(ip, FloodingMsg(FloodOf(cfg)))] ==
      if ip in t.m then LiveCount(t.keys, t.m) else 0
  {
    FloodRoundCopies(FloodOf(cfg), t.keys, t.m, t.keys, ip);
  }

  /** Everything a round sends is the server's flood. */
  lemma {:induction false} RoundIsFlood(f: FloodingMessage, keys: seq<IP>, m: map<IP, Neighbor>, all: seq<IP>)
    requires forall i | 0 <= i < |keys| :: keys[i] in m
    ensures forall k | 0 <= k < |FloodRound(f, keys, m, all)| :: FloodRound(f, keys, m, all)[k].payload == FloodingMsg(f)
  {
    if keys != [] {
      RoundIsFlood(f, keys[..|keys| - 1], m, all);
    }
  }

  /** Two live neighbours `a`, `b` and an inactive one `c`: as written, each of the three,
      the inactive one included, receives the flood twice in a round; sending once to each
      live neighbour gives `a` one copy and `c` none. */
  lemma FloodMultiplied(f: FloodingMessage, a: IP, b: IP, c: IP, live: Neighbor, dead: Neighbor)
    requires a != b && b != c && a != c
    requires !IsInactive(live) && IsInactive(dead)
    ensures var m := map[a := live, b := live, c := dead];
      && multiset(FloodRound(f, [a, b, c], m, [a, b, c]))[Send(a, FloodingMsg(f))] == 2
      && multiset(FloodRound(f, [a, b, c], m, [a, b, c]))[Send(c, FloodingMsg(f))] == 2
      && multiset(FloodLive(f, [a, b, c], m))[Send(a, FloodingMsg(f))] == 1
      && multiset(FloodLive(f, [a, b, c], m))[Send(c, FloodingMsg(f))] == 0
  {
    var keys := [a, b, c];
    var m := map[a := live, b := live, c := dead];
    assert m[a] == live && m[b] == live && m[c] == dead;
    assert LiveCount(keys, m) == 2 by {
      assert keys[..2] == [a, b];
      assert [a, b][..1] == [a];
      assert [a][..0] == [];
      assert LiveCount([a], m) == LiveCount([], m) + 1;
      assert LiveCount([a, b], m) == LiveCount([a], m) + 1;
      assert LiveCount(keys, m) == LiveCount([a, b], m);
    }
    FloodRoundCopies(f, keys, m, keys, a);
    FloodRoundCopies(f, keys, m, keys, c);
    FloodLiveOnce(f, keys, m, a);
    FloodLiveOnce(f, keys, m, c);
  }

  /** The round as the later server of `etapa3/Server.py` writes it: one copy of `f` to
      each neighbour of `keys` that is not inactive, in order. */
  function FloodLive(f: FloodingMessage, keys: seq<IP>, m: map<IP, Neighbor>): seq<Send>
    requires forall i | 0 <= i < |keys| :: keys[i] in m
  {
    if keys == [] then []
    else
      FloodLive(f, keys[..|keys| - 1], m) +
        (if IsInactive(m[keys[|keys| - 1]]) then [] else [Send(keys[|keys| - 1], FloodingMsg(f))])
  }

  /** With each neighbour listed once, the corrected round brings each live neighbour
      exactly one copy and every other address none. */
  lemma {:induction false} FloodLiveOnce(f: FloodingMessage, keys: seq<IP>, m: map<IP, Neighbor>, ip: IP)
    requires forall i | 0 <= i < |keys| :: keys[i] in m
    requires forall i, j | 0 <= i < j < |keys| :: keys[i] != keys[j]
    ensures multiset(FloodLive(f, keys, m))[Send(ip, FloodingMsg(f))] ==
      if ip in keys && !IsInactive(m[ip]) then 1 else 0
  {
    if keys != [] {
      var front := keys[..|keys| - 1];
      var last := keys[|keys| - 1];
      FloodLiveOnce(f, front, m, ip);
      assert keys == front + [last];
      forall i | 0 <= i < |front|
        ensures front[i] != last
      {
        assert front[i] == keys[i];
      }
    }
  }

  /** The corrected round over one more neighbour. */
  lemma FloodLiveNext(f: FloodingMessage, keys: seq<IP>, m: map<IP, Neighbor>, i: nat)
    requires forall j | 0 <= j < |keys| :: keys[j] in m
    requires i < |keys|
    ensures FloodLive(f, keys[..i + 1], m) ==
      FloodLive(f, keys[..i], m) + (if IsInactive(m[keys[i]]) then [] else [Send(keys[i], FloodingMsg(f))])
  {
    assert keys[..i + 1][..i] == keys[..i];
  }

  // ---------------------------------------------------------------------------------
  // The ports of downstream neighbours

  /** `neighbors_info[ip]`: the RTSP and RTP ports, each absent until first recorded. */
  datatype PortInfo = PortInfo(rtspPort: Option<int>, rtpPort: Option<int>)

  type InfoTable = OMap<IP, PortInfo>

  /** `receive_neighbors_info`: the sender gets an entry, and each of its two ports is
      recorded only if it is not recorded yet. */
  function Recorded(d: InfoTable, f: FloodingMessage): (r: InfoTable)
    ensures d.Valid() ==> r.Valid()
  {
    var cur := if f.sourceIp in d.m then d.m[f.sourceIp] else PortInfo(None, None);
    d.Put(f.sourceIp, PortInfo(if cur.rtspPort.Some? then cur.rtspPort else Some(f.rtspPort),
                               if cur.rtpPort.Some? then cur.rtpPort else Some(f.rtpPort)))
  }

  /** The first activation from a sender fixes both its ports, and no later activation from
      it changes anything; other senders' entries never change. */
  lemma FirstActivationWins(d: InfoTable, f1: FloodingMessage, f2: FloodingMessage)
    requires f1.sourceIp !in d.m && f2.sourceIp == f1.sourceIp
    ensures var d1 := Recorded(d, f1);
      && d1.m[f1.sourceIp] == PortInfo(Some(f1.rtspPort), Some(f1.rtpPort))
      && d1.keys == d.keys + [f1.sourceIp]
      && Recorded(d1, f2) == d1
  {
    var d1 := Recorded(d, f1);
    assert d1.m[f1.sourceIp := d1.m[f1.sourceIp]] == d1.m;
  }

  /** An activation leaves every other sender's ports as they were. */
  lemma OthersKept(d: InfoTable, f: FloodingMessage, ip: IP)
    requires ip != f.sourceIp
    ensures ip in Recorded(d, f).m <==> ip in d.m
    ensures ip in d.m ==> Recorded(d, f).m[ip] == d.m[ip]
  {
  }

  // ---------------------------------------------------------------------------------
  // The control port

  /** `handle_control_connection`, for one message: UPDATE_NEIGHBORS and PING are handled as
      control messages, an ACTIVATE_ROUTE records the sender's ports, and everything else
      is ignored. */
  function Dispatched(cfg: Config, s: PeerState, d: InfoTable, p: Payload): (PeerState, InfoTable)
    requires s.neighbors.Valid()
  {
    match p
    case ControlMsg(c) => (Controlled(ServerIdentity(cfg), ActiveRules, s, c), d)
    case FloodingMsg(f) => if f.ftype == ActivateRoute then (s, Recorded(d, f)) else (s, d)
    case Text(_) => (s, d)
  }

  /** The ports are touched only by an ACTIVATE_ROUTE, and the table and outbox only by a
      control message. */
  lemma DispatchedSeparates(cfg: Config, s: PeerState, d: InfoTable, p: Payload)
    requires s.neighbors.Valid()
    ensures var r := Dispatched(cfg, s, d, p);
      && (!(p.FloodingMsg? && p.f.ftype == ActivateRoute) ==> r.1 == d)
      && (!p.ControlMsg? ==> r.0 == s)
      && (p.ControlMsg? && p.c.ctype !in {UpdateNeighbors, Ping} ==> r == (s, d))
  {
  }

  // ---------------------------------------------------------------------------------
  // The server

  class Server {
    const config: Config
    /** The neighbour-table part of the server. */
    const peer: Peer
    /** `self.neighbors_info` */
    var info: InfoTable

    ghost predicate Valid()
      reads this, peer
    {
      peer.Valid() && info.Valid() && peer.me == ServerIdentity(config) && peer.rules == ActiveRules
    }

    /** `Server(...)` before registration. */
    constructor (config: Config)
      ensures this.config == config && Valid() && fresh(peer)
      ensures peer.me == ServerIdentity(config) && peer.rules == ActiveRules
      ensures peer.State() == PeerState(Empty(), []) && info == Empty()
    {
      this.config := config;
      peer := new Peer(ServerIdentity(config), ActiveRules);
      info := Empty();
    }

    /** `receive_neighbors_info` */
    method ReceiveNeighborsInfo(f: FloodingMessage)
      requires Valid()
      modifies this
      ensures info == Recorded(old(info), f) && Valid()
    {
      var rtsp := Some(f.rtspPort);
      var rtp := Some(f.rtpPort);
      if f.sourceIp in info.m {
        var cur := info.m[f.sourceIp];
        if cur.rtspPort.Some? {
          rtsp := cur.rtspPort;
        }
        if cur.rtpPort.Some? {
          rtp := cur.rtpPort;
        }
      }
      info := info.Put(f.sourceIp, PortInfo(rtsp, rtp));
    }

    /** `send_flooding_message`: the sends it makes, the flood to every neighbour in table
        order. */
    method SendFloodingMessage() returns (sent: seq<Send>)
      ensures sent == FloodTo(FloodOf(config), peer.neighbors.keys)
    {
      var keys := peer.neighbors.keys;
      var f := FloodOf(config);
      sent := [];
      var i := 0;
      while i < |keys|
        invariant 0 <= i <= |keys|
        invariant sent == FloodTo(f, keys[..i])
      {
        assert keys[..i + 1][..i] == keys[..i];
        sent := sent + [Send(keys[i], FloodingMsg(f))];
        i := i + 1;
      }
      assert keys[..i] == keys;
    }

    /** One iteration of `send_flood_to_neighbors`. */
    method FloodNeighbors()
      requires Valid()
      modifies peer
      ensures peer.neighbors == old(peer.neighbors) && Valid()
      ensures peer.outbox == old(peer.outbox) + FloodRound(FloodOf(config), peer.neighbors.keys, peer.neighbors.m, peer.neighbors.keys)
    {
      var keys := peer.neighbors.keys;
      var m := peer.neighbors.m;
      ghost var f := FloodOf(config);
      var round := [];
      var i := 0;
      while i < |keys|
        invariant 0 <= i <= |keys|
        invariant forall j | 0 <= j < |keys| :: keys[j] in m
        invariant peer.neighbors == old(peer.neighbors) && peer.outbox == old(peer.outbox)
        invariant round == FloodRound(f, keys[..i], m, keys)
      {
        FloodRoundNext(f, keys, m, i);
        if !IsInactive(m[keys[i]]) {
          var sent := SendFloodingMessage();
          round := round + sent;
        }
        i := i + 1;
      }
      assert keys[..i] == keys;
      peer.outbox := peer.outbox + round;
    }

    /** One round of `send_flood_to_neighbors` as intended: the flood once to each
        neighbour that is not inactive. */
    method FloodNeighborsOnce()
      requires Valid()
      modifies peer
      ensures peer.neighbors == old(peer.neighbors) && Valid()
      ensures peer.outbox == old(peer.outbox) + FloodLive(FloodOf(config), peer.neighbors.keys, peer.neighbors.m)
    {
      var keys := peer.neighbors.keys;
      var m := peer.neighbors.m;
      var f := FloodOf(config);
      var round := [];
      var i := 0;
      while i < |keys|
        invariant 0 <= i <= |keys|
        invariant forall j | 0 <= j < |keys| :: keys[j] in m
        invariant peer.neighbors == old(peer.neighbors) && peer.outbox == old(peer.outbox)
        invariant round == FloodLive(f, keys[..i], m)
      {
        FloodLiveNext(f, keys, m, i);
        if !IsInactive(m[keys[i]]) {
          round := round + [Send(keys[i], FloodingMsg(f))];
        }
        i := i + 1;
      }
      assert keys[..i] == keys;
      peer.outbox := peer.outbox + round;
    }

    /** `handle_control_connection`, for one message. */
    method HandleControlConnection(p: Payload)
      requires Valid()
      modifies this, peer
      ensures (peer.State(), info) == Dispatched(config, old(peer.State()), old(info), p)
      ensures Valid()
    {
      match p {
        case ControlMsg(c) =>
          peer.ReceiveControl(c);
        case FloodingMsg(f) =>
          if f.ftype == ActivateRoute {
            ReceiveNeighborsInfo(f);
          }
        case Text(_) =>
      }
    }
  }
}
