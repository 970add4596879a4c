/** The stream source of `etapa3/Server.py`: its neighbour table and liveness sweep, the
    flood rounds that advertise its films, the RTP ports its downstream neighbours
    report when they activate a route, the `ACTIVE` request those neighbours send on
    the RTSP port, and the registry that keeps one stream worker per film. Messages the
    server sends are appended to `outbox`. */
module StreamSource {
  import opened Common
  import opened OrdMap
  import opened Text
  import opened Messages
  import opened Liveness
  import RelaySpec

  /** The films the server offers: the set `self.movies`. */
  const MOVIES: set<string> := {"movie.Mjpeg", "movie-copy.Mjpeg", "output.avi"}

  /** The server's IP, id and ports, and `movieOrder`, the order in which iterating
      over `self.movies` yields the films (a Python set has no order of its own). */
  datatype SourceConfig = SourceConfig(
    serverIp: IP, serverId: string, controlPort: int, dataPort: int, rtspPort: int,
    movieOrder: seq<string>)

  /** `movieOrder` lists every film once. */
  predicate ListsMovies(order: seq<string>) {
    |order| == |MOVIES| && (set m | m in order) == MOVIES
  }

  /** What the server keeps per film once a neighbour has asked for it: the
      `neighborInfo` its worker was created with. */
  datatype Worker = Worker(ip: IP, rtpPort: int)

  /** Everything the handlers change: `self.neighbors`, `self.active_workers` and the
      messages sent. */
  datatype SourceState = SourceState(neighbors: Table, workers: map<string, Worker>, outbox: seq<Send>)

  // ---------------------------------------------------------------------------------
  // Messages the server builds

  /** The REGISTER and UPDATE_NEIGHBORS the server sends about itself, as a node of type
      "server". */
  function SelfMessage(cfg: SourceConfig, t: ControlType): (c: ControlMessage)
    ensures c.ctype == t && c.nodeId == cfg.serverId && c.nodeIp == cfg.serverIp && c.nodeType == "server"
    ensures c.controlPort == cfg.controlPort && c.dataPort == cfg.dataPort && c.rtspPort == cfg.rtspPort
  {
    Control(t).(nodeId := cfg.serverId, nodeIp := cfg.serverIp, controlPort := cfg.controlPort,
                dataPort := cfg.dataPort, nodeType := "server", rtspPort := cfg.rtspPort)
  }

  /** The PING of a sweep: the server's IP and id and an accumulated time of 0. */
  function PingMessage(cfg: SourceConfig): (c: ControlMessage)
    ensures c.ctype == Ping && c.nodeIp == cfg.serverIp && c.nodeId == cfg.serverId && c.accumulatedTime == Fin(0)
  {
    Control(Ping).(nodeIp := cfg.serverIp, nodeId := cfg.serverId, accumulatedTime := Fin(0))
  }

  /** The answer to a PING: a PONG that names the server and nothing else. */
  function PongMessage(cfg: SourceConfig): (c: ControlMessage)
    ensures c.ctype == ControlType.Pong && c.nodeId == cfg.serverId && c.nodeIp == ""
  {
    Control(ControlType.Pong).(nodeId := cfg.serverId)
  }

  /** The FLOODING_UPDATE of a flood round: every film, route state "active", the
      server's ip, id, control port and RTSP port; the hop count is left at 0. */
  function FloodMessage(cfg: SourceConfig): (f: FloodingMessage)
    ensures f.ftype == FloodingUpdate && f.streamIds == cfg.movieOrder && f.routeState == "active"
    ensures f.sourceId == cfg.serverId && f.sourceIp == cfg.serverIp
    ensures f.controlPort == cfg.controlPort && f.rtspPort == cfg.rtspPort && f.hops == 0
  {
    Flooding(FloodingUpdate).(sourceId := cfg.serverId, sourceIp := cfg.serverIp, streamIds := cfg.movieOrder,
                              routeState := "active", controlPort := cfg.controlPort, rtspPort := cfg.rtspPort)
  }

  // ---------------------------------------------------------------------------------
  // The neighbour table

  /** A neighbour from the registration response: active, no failed probe. */
  function Listed(info: NeighborInfo): (n: Neighbor)
    ensures n.status == Some(Active) && n.failed == Some(0) && n.rtpPort == None
    ensures n.nodeId == info.nodeId && n.controlPort == info.controlPort && n.rtspPort == info.rtspPort
  {
    Neighbor(info.nodeId, info.controlPort, info.dataPort, info.nodeType, info.rtspPort,
             Some(Active), Some(0), None, None, None, None)
  }

  /** A neighbour first heard of in an UPDATE_NEIGHBORS: active, no failed probe. */
  function Newcomer(c: ControlMessage): (n: Neighbor)
    ensures n.status == Some(Active) && n.failed == Some(0) && n.rtpPort == None
    ensures n.nodeId == c.nodeId && n.controlPort == c.controlPort && n.rtspPort == c.rtspPort
  {
    Neighbor(c.nodeId, c.controlPort, c.dataPort, c.nodeType, c.rtspPort,
             Some(Active), Some(0), None, None, None, None)
  }

  /** One UPDATE_NEIGHBORS to each of `ips`, in order. */
  function Notifications(cfg: SourceConfig, ips: seq<IP>): (r: seq<Send>)
    ensures |r| == |ips|
    ensures forall i | 0 <= i < |ips| :: r[i] == Send(ips[i], ControlMsg(SelfMessage(cfg, UpdateNeighbors)))
  {
    if ips == [] then []
    else Notifications(cfg, ips[..|ips| - 1]) + [Send(ips[|ips| - 1], ControlMsg(SelfMessage(cfg, UpdateNeighbors)))]
  }

  /** The bootstrapper's reply to the REGISTER: a REGISTER_RESPONSE in a control frame
      replaces the table and the server announces itself to each neighbour; anything
      else changes nothing. */
  function RegisterReply(cfg: SourceConfig, s: SourceState, k: Kind, reply: ControlMessage): SourceState {
    if k == ControlKind && reply.ctype == RegisterResponse then
      var t := Rebuild(reply.neighbors, Listed);
      s.(neighbors := t, outbox := s.outbox + Notifications(cfg, t.keys))
    else s
  }

  /** After a REGISTER_RESPONSE the table holds exactly the listed IPs, each active with
      no failed probe, and each is sent one announcement; the workers are untouched. */
  lemma RegisterReplyEffect(cfg: SourceConfig, s: SourceState, reply: ControlMessage)
    requires reply.ctype == RegisterResponse
    ensures var r := RegisterReply(cfg, s, ControlKind, reply);
      (forall ip :: ip in r.neighbors.m <==> exists i | 0 <= i < |reply.neighbors| :: reply.neighbors[i].nodeIp == ip)
      && (forall ip | ip in r.neighbors.m :: r.neighbors.m[ip].status == Some(Active) && r.neighbors.m[ip].failed == Some(0))
      && r.workers == s.workers
      && r.outbox == s.outbox + Notifications(cfg, r.neighbors.keys)
  {
    RebuildKeys(reply.neighbors, Listed);
    RebuildEntries(reply.neighbors, Listed);
  }

  // ---------------------------------------------------------------------------------
  // The sweep

  /** One iteration of `send_ping_to_neighbors`, for the neighbour at `ip`. A failed
      probe raises the counter of an entry that is still there, which in a sequential
      round it always is. */
  function SweepStep(cfg: SourceConfig, s: SourceState, probes: IP -> Probe, ip: IP): SourceState {
    if ip in s.neighbors.m then
      var n := s.neighbors.m[ip];
      s.(neighbors := s.neighbors.Put(ip, SweepEntry(n, probes(ip), FailedAttempts)),
         outbox := s.outbox + Pings(PingMessage(cfg), EventOf(ip, n, FailedAttempts)))
    else s
  }

  /** The sweep over the neighbours `keys`, in order. */
  function SweepOver(cfg: SourceConfig, s: SourceState, probes: IP -> Probe, keys: seq<IP>): SourceState {
    if keys == [] then s
    else SweepStep(cfg, SweepOver(cfg, s, probes, keys[..|keys| - 1]), probes, keys[|keys| - 1])
  }

  /** One round of `send_ping_to_neighbors` over a snapshot of the table, with `probes`
      what each probe gave. */
  function SweepRound(cfg: SourceConfig, s: SourceState, probes: IP -> Probe): SourceState {
    SweepOver(cfg, s, probes, s.neighbors.keys)
  }

  /** The keys of a snapshot are listed once each and all are in the table. */
  predicate Snapshot(keys: seq<IP>, m: map<IP, Neighbor>) {
    (forall j, k | 0 <= j < k < |keys| :: keys[j] != keys[k]) && (forall j | 0 <= j < |keys| :: keys[j] in m)
  }

  /** Before the `i`-th key of a snapshot is swept it still holds its old entry. */
  lemma SweptNotYet(keys: seq<IP>, m: map<IP, Neighbor>, probes: IP -> Probe, i: nat)
    requires Snapshot(keys, m) && i < |keys|
    ensures keys[i] in UpdatedPrefix(keys, m, SweepFn(probes, FailedAttempts), i)
    ensures UpdatedPrefix(keys, m, SweepFn(probes, FailedAttempts), i)[keys[i]] == m[keys[i]]
  {
    UpdatedPrefixEntries(keys, m, SweepFn(probes, FailedAttempts), i);
  }

  /** After the first `i` keys of the snapshot the table is the snapshot with those keys
      swept, and the workers are untouched. */
  lemma {:induction false} SweepOverTable(cfg: SourceConfig, s: SourceState, probes: IP -> Probe, i: nat)
    requires Snapshot(s.neighbors.keys, s.neighbors.m) && i <= |s.neighbors.keys|
    ensures var t := s.neighbors; var r := SweepOver(cfg, s, probes, t.keys[..i]);
      r.neighbors == OMap(t.keys, UpdatedPrefix(t.keys, t.m, SweepFn(probes, FailedAttempts), i))
      && r.workers == s.workers
  {
    var t := s.neighbors;
    if i == 0 {
      assert t.keys[..0] == [];
    } else {
      SweepOverTable(cfg, s, probes, i - 1);
      assert t.keys[..i][..i - 1] == t.keys[..i - 1];
      SweptNotYet(t.keys, t.m, probes, i - 1);
    }
  }

  /** After the first `i` keys of the snapshot the PINGs sent are those of their events. */
  lemma {:induction false} SweepOverPings(cfg: SourceConfig, s: SourceState, probes: IP -> Probe, i: nat)
    requires Snapshot(s.neighbors.keys, s.neighbors.m) && i <= |s.neighbors.keys|
    ensures var t := s.neighbors;
      SweepOver(cfg, s, probes, t.keys[..i]).outbox == s.outbox + Pings(PingMessage(cfg), Events(t.keys[..i], t.m, FailedAttempts))
  {
    var t := s.neighbors;
    if i == 0 {
      assert t.keys[..0] == [];
    } else {
      var keys := t.keys[..i];
      assert keys[..i - 1] == t.keys[..i - 1];
      var ip := t.keys[i - 1];
      var prev := SweepOver(cfg, s, probes, t.keys[..i - 1]);
      SweepOverPings(cfg, s, probes, i - 1);
      SweepOverTable(cfg, s, probes, i - 1);
      SweptNotYet(t.keys, t.m, probes, i - 1);
      var n := t.m[ip];
      assert prev.neighbors.m[ip] == n;
      var before := Events(t.keys[..i - 1], t.m, FailedAttempts);
      var step := EventOf(ip, n, FailedAttempts);
      assert SweepOver(cfg, s, probes, keys).outbox == prev.outbox + Pings(PingMessage(cfg), step);
      EventsStep(t.keys, t.m, FailedAttempts, i - 1);
      assert Events(keys, t.m, FailedAttempts) == before + step;
      PingsAppend(PingMessage(cfg), before, step);
      var pb, ps := Pings(PingMessage(cfg), before), Pings(PingMessage(cfg), step);
      assert Pings(PingMessage(cfg), Events(keys, t.m, FailedAttempts)) == pb + ps;
      assert prev.outbox == s.outbox + pb;
      AppendAssoc(s.outbox, pb, ps);
    }
  }

  /** A whole round sweeps every neighbour once: the table is `SweepTable` of the
      snapshot and the PINGs are those of the sweep's events. */
  lemma SweepRoundIs(cfg: SourceConfig, s: SourceState, probes: IP -> Probe)
    requires s.neighbors.Valid()
    ensures SweepRound(cfg, s, probes) ==
      s.(neighbors := SweepTable(s.neighbors, probes, FailedAttempts),
         outbox := s.outbox + Pings(PingMessage(cfg), Events(s.neighbors.keys, s.neighbors.m, FailedAttempts)))
  {
    SweepOverTable(cfg, s, probes, |s.neighbors.keys|);
    SweepOverPings(cfg, s, probes, |s.neighbors.keys|);
    assert s.neighbors.keys[..|s.neighbors.keys|] == s.neighbors.keys;
    SweepTableUpdated(s.neighbors, probes, FailedAttempts);
  }

  /** What a sweep does: the neighbours it pings, and per neighbour the rule of
      `SweepEntry`; the key order and the workers stay. */
  lemma SweepRoundEffect(cfg: SourceConfig, s: SourceState, probes: IP -> Probe, ip: IP)
    requires s.neighbors.Valid()
    ensures var r := SweepRound(cfg, s, probes);
      r.neighbors.keys == s.neighbors.keys && r.neighbors.m.Keys == s.neighbors.m.Keys && r.workers == s.workers
      && (ip in s.neighbors.m ==> r.neighbors.m[ip] == SweepEntry(s.neighbors.m[ip], probes(ip), FailedAttempts))
      && |r.outbox| >= |s.outbox|
      && (Send(ip, ControlMsg(PingMessage(cfg))) in r.outbox[|s.outbox|..] <==>
            ip in s.neighbors.m && !IsInactive(s.neighbors.m[ip]) && Count(s.neighbors.m[ip], FailedAttempts) < 2)
  {
    var t := s.neighbors;
    var events := Events(t.keys, t.m, FailedAttempts);
    SweepRoundIs(cfg, s, probes);
    PingsContents(PingMessage(cfg), events, ip);
    EventsContents(t.keys, t.m, FailedAttempts, ip);
    assert (s.outbox + Pings(PingMessage(cfg), events))[|s.outbox|..] == Pings(PingMessage(cfg), events);
  }

  // ---------------------------------------------------------------------------------
  // Flood rounds

  /** One flood round over the neighbours `keys`: a FLOODING_UPDATE to each whose status
      is "active", in table order. */
  function Floods(cfg: SourceConfig, keys: seq<IP>, m: map<IP, Neighbor>): (r: seq<Send>)
    ensures |r| <= |keys|
  {
    if keys == [] then []
    else
      var ip := keys[|keys| - 1];
      Floods(cfg, keys[..|keys| - 1], m) +
        (if ip in m && m[ip].status == Some(Active) then [Send(ip, FloodingMsg(FloodMessage(cfg)))] else [])
  }

  /** Every message of a flood round is the server's FLOODING_UPDATE. */
  lemma {:induction false} FloodsAreUpdates(cfg: SourceConfig, keys: seq<IP>, m: map<IP, Neighbor>)
    ensures forall i | 0 <= i < |Floods(cfg, keys, m)| :: Floods(cfg, keys, m)[i].payload == FloodingMsg(FloodMessage(cfg))
  {
    if keys != [] {
      FloodsAreUpdates(cfg, keys[..|keys| - 1], m);
    }
  }

  /** With each neighbour listed once, a flood round sends exactly one FLOODING_UPDATE to
      each active neighbour and none to any other address. */
  lemma {:induction false} FloodsOncePerActive(cfg: SourceConfig, keys: seq<IP>, m: map<IP, Neighbor>, ip: IP)
    requires forall i, j | 0 <= i < j < |keys| :: keys[i] != keys[j]
    ensures multiset(Floods(cfg, keys, m))[Send(ip, FloodingMsg(FloodMessage(cfg)))] ==
      if ip in keys && ip in m && m[ip].status == Some(Active) then 1 else 0
  {
    if keys != [] {
      var front := keys[..|keys| - 1];
      var last := keys[|keys| - 1];
      FloodsOncePerActive(cfg, front, m, ip);
      assert keys == front + [last];
      forall i | 0 <= i < |front|
        ensures front[i] != last
      {
        assert front[i] == keys[i];
      }
    }
  }

  /** `send_flood_to_neighbors`, one round: only the outbox changes. */
  function FloodRound(cfg: SourceConfig, s: SourceState): SourceState {
    s.(outbox := s.outbox + Floods(cfg, s.neighbors.keys, s.neighbors.m))
  }

  // ---------------------------------------------------------------------------------
  // Route activations and the RTSP port

  /** `receive_neighbors_info`, reached for an ACTIVATE_ROUTE: `stream_ids[0]` must
      exist and the sender must be a neighbour (otherwise Python raises and nothing
      changes); its RTP port is recorded only if none is recorded yet. */
  function NeighborInfoReceived(s: SourceState, f: FloodingMessage): SourceState
    requires s.neighbors.Valid()
  {
    if |f.streamIds| > 0 && f.sourceIp in s.neighbors.m && s.neighbors.m[f.sourceIp].rtpPort.None? then
      s.(neighbors := s.neighbors.Put(f.sourceIp, s.neighbors.m[f.sourceIp].(rtpPort := Some(f.rtpPort))))
    else s
  }

  /** The first activation from a neighbour fixes its RTP port: a later one, whatever
      port it carries, changes nothing. */
  lemma FirstRtpPortWins(s: SourceState, f1: FloodingMessage, f2: FloodingMessage)
    requires s.neighbors.Valid() && f1.sourceIp == f2.sourceIp && |f1.streamIds| > 0
    requires f1.sourceIp in s.neighbors.m && s.neighbors.m[f1.sourceIp].rtpPort.None?
    ensures var s1 := NeighborInfoReceived(s, f1);
      s1.neighbors.m[f1.sourceIp].rtpPort == Some(f1.rtpPort)
      && (forall ip | ip in s.neighbors.m && ip != f1.sourceIp :: s1.neighbors.m[ip] == s.neighbors.m[ip])
      && NeighborInfoReceived(s1, f2) == s1
  {
  }

  /** A port once recorded never changes. */
  lemma RtpPortKept(s: SourceState, f: FloodingMessage, ip: IP)
    requires s.neighbors.Valid() && ip in s.neighbors.m && s.neighbors.m[ip].rtpPort.Some?
    ensures NeighborInfoReceived(s, f).neighbors.m[ip] == s.neighbors.m[ip]
  {
  }

  /** The three lines of an `ACTIVE` request: the film, the neighbour's IP, its RTP
      port. A request that does not start with "ACTIVE" is not one (it takes the RTSP
      path); a missing line or field, or a port `int()` rejects, raises and is `None`. */
  function ParseActive(data: string): Option<(string, IP, int)> {
    if !StartsWith(data, "ACTIVE") then None
    else
      var lines := SplitLines(data);
      if |lines| < 3 then None
      else
        var l0 := Split(lines[0], ' ');
        var l1 := Split(lines[1], ' ');
        var l2 := Split(lines[2], ' ');
        if |l0| < 2 || |l1| < 2 || |l2| < 2 then None
        else
          match ParseInt(l2[1])
          case Some(port) => Some((l0[1], l1[1], port))
          case None => None
  }

  /** The request a relay sends (`etapa3/Node.py`, `RelaySpec.ActiveRequest`) parses
      back to its film, IP and port when the film and IP hold no space or line break. */
  lemma ActiveRoundTrip(f: string, ip: IP, port: int)
    requires ' ' !in f && '\n' !in f && ' ' !in ip && '\n' !in ip
    ensures ParseActive(RelaySpec.ActiveRequest(f, ip, port)) == Some((f, ip, port))
  {
    var n := IntToString(port);
    ActiveLines(f, ip, n, port);
    SpacePair("ACTIVE", f);
    SpacePair("IP", ip);
    SpacePair("RTP_PORT", n);
    ParseIntToString(port);
  }

  /** The request's three lines, each a keyword, a space and a value. */
  lemma ActiveLines(f: string, ip: IP, n: string, port: int)
    requires ' ' !in f && '\n' !in f && ' ' !in ip && '\n' !in ip && n == IntToString(port)
    ensures var data := RelaySpec.ActiveRequest(f, ip, port);
      StartsWith(data, "ACTIVE") && SplitLines(data) == ["ACTIVE" + " " + f, "IP" + " " + ip, "RTP_PORT" + " " + n]
  {
    var l0, l1, l2 := "ACTIVE" + " " + f, "IP" + " " + ip, "RTP_PORT" + " " + n;
    var data := RelaySpec.ActiveRequest(f, ip, port);
    ActiveText(f, ip, n, port);
    assert StartsWith(data, "ACTIVE") by {
      assert data[..6] == "ACTIVE";
    }
    NoBreak(l0, "ACTIVE ", f);
    NoBreak(l1, "IP ", ip);
    NoBreak(l2, "RTP_PORT ", n);
    var parts := [l0, l1, l2, ""];
    SplitJoin(parts, '\n');
    var p := Split(data, '\n');
    assert p == parts && p[..|p| - 1] == [l0, l1, l2];
  }

  /** The request is its three lines, each ended by a line break. */
  lemma ActiveText(f: string, ip: IP, n: string, port: int)
    requires n == IntToString(port)
    ensures RelaySpec.ActiveRequest(f, ip, port) ==
      Join(["ACTIVE" + " " + f, "IP" + " " + ip, "RTP_PORT" + " " + n, ""], "\n")
  {
    var l0, l1, l2 := "ACTIVE" + " " + f, "IP" + " " + ip, "RTP_PORT" + " " + n;
    assert "ACTIVE" + " " == "ACTIVE " && "\n" + "IP" + " " == "\nIP " && "\n" + "RTP_PORT" + " " == "\nRTP_PORT ";
    JoinLinesEnded(l0, l1, l2);
    var a := "ACTIVE " + f;
    var b := a + "\nIP " + ip;
    var c := b + "\nRTP_PORT " + n;
    assert a == l0;
    assert b == l0 + "\n" + l1;
    assert c == l0 + "\n" + l1 + "\n" + l2;
  }

  /** A line made of a fixed word and a value without line breaks has none either. */
  lemma NoBreak(line: string, head: string, value: string)
    requires line == head + value && '\n' !in head && '\n' !in value
    ensures '\n' !in line
  {
  }

  /** `handle_rtsp_connection2`: a film that already has a worker keeps it (the update
      call it then makes is not a method of the worker, so it raises and is logged);
      otherwise a worker for the requesting neighbour is stored under the film. */
  function WorkerFor(s: SourceState, film: string, ip: IP, rtpPort: int): (r: SourceState)
    ensures film in r.workers && r.neighbors == s.neighbors && r.outbox == s.outbox
  {
    if film in s.workers then s else s.(workers := s.workers[film := Worker(ip, rtpPort)])
  }

  /** The first neighbour to ask for a film creates its worker and every later request
      for the film finds that same worker; other films are not affected. */
  lemma OneWorkerPerFilm(s: SourceState, film: string, ip: IP, port: int, ip2: IP, port2: int, other: string)
    ensures film !in s.workers ==> WorkerFor(s, film, ip, port).workers[film] == Worker(ip, port)
    ensures film in s.workers ==> WorkerFor(s, film, ip, port) == s
    ensures WorkerFor(WorkerFor(s, film, ip, port), film, ip2, port2) == WorkerFor(s, film, ip, port)
    ensures other != film ==>
      (other in WorkerFor(s, film, ip, port).workers <==> other in s.workers) &&
      (other in s.workers ==> WorkerFor(s, film, ip, port).workers[other] == s.workers[other])
  {
  }

  /** A text connection on the RTSP port: an `ACTIVE` request reaches the worker
      registry; anything else does not change it here. */
  function RtspReceived(s: SourceState, data: string): SourceState {
    match ParseActive(data)
    case Some((film, ip, port)) => WorkerFor(s, film, ip, port)
    case None => s
  }

  // ---------------------------------------------------------------------------------
  // The control server

  /** `handle_control_connection` for one message: UPDATE_NEIGHBORS and PING on the
      control side, ACTIVATE_ROUTE on the flooding side; every other message is logged
      and ignored. */
  function ControlServer(cfg: SourceConfig, s: SourceState, p: Payload): SourceState
    requires s.neighbors.Valid()
  {
    match p
    case ControlMsg(c) =>
      if c.ctype == UpdateNeighbors then s.(neighbors := Announce(s.neighbors, c.nodeIp, Newcomer(c)))
      else if c.ctype == Ping then s.(outbox := s.outbox + [Send(c.nodeIp, ControlMsg(PongMessage(cfg)))])
      else s
    case FloodingMsg(f) =>
      if f.ftype == ActivateRoute then NeighborInfoReceived(s, f) else s
    case Text(_) => s
  }

  /** A PING never changes the server's table: it is only answered. */
  lemma PingOnlyAnswered(cfg: SourceConfig, s: SourceState, c: ControlMessage)
    requires s.neighbors.Valid() && c.ctype == Ping
    ensures ControlServer(cfg, s, ControlMsg(c)) ==
      s.(outbox := s.outbox + [Send(c.nodeIp, ControlMsg(PongMessage(cfg)))])
    ensures ControlServer(cfg, s, ControlMsg(c)).neighbors == s.neighbors
  {
  }

  // ---------------------------------------------------------------------------------
  // The server object

  class Source {
    /** The IP, id, ports and film order the server was started with. */
    const config: SourceConfig
    /** `self.neighbors` */
    var neighbors: Table
    /** `self.active_workers` */
    var workers: map<string, Worker>
    /** Every message the server has sent, in order. */
    var outbox: seq<Send>

    function State(): SourceState
      reads this
    {
      SourceState(neighbors, workers, outbox)
    }

    /** The neighbour table lists each IP once, and the film order lists every film. */
    predicate Valid()
      reads this
    {
      neighbors.Valid() && ListsMovies(config.movieOrder)
    }

    /** `Server.__init__`: no neighbours and no workers. */
    constructor (cfg: SourceConfig)
      requires ListsMovies(cfg.movieOrder)
      ensures config == cfg && Valid()
      ensures State() == SourceState(Empty(), map[], [])
    {
      config := cfg;
      neighbors := Empty();
      workers := map[];
      outbox := [];
    }

    /** `register_with_bootstrapper`: `request` is the REGISTER the server sends; `k` and
        `reply` are the frame the bootstrapper answers with. */
    method RegisterWithBootstrapper(k: Kind, reply: ControlMessage) returns (request: ControlMessage)
      requires Valid()
      modifies this
      ensures request == SelfMessage(config, Register)
      ensures State() == RegisterReply(config, old(State()), k, reply)
      ensures Valid()
    {
      request := SelfMessage(config, Register);
      if k == ControlKind && reply.ctype == RegisterResponse {
        neighbors := Liveness.Register(reply.neighbors, Listed);
        NotifyNeighbors();
      }
    }

    /** `notify_neighbors_registration`: one UPDATE_NEIGHBORS to each neighbour, in table
        order. */
    method NotifyNeighbors()
      modifies this
      ensures outbox == old(outbox) + Notifications(config, neighbors.keys)
      ensures neighbors == old(neighbors) && workers == old(workers)
    {
      var keys := neighbors.keys;
      var i := 0;
      while i < |keys|
        invariant 0 <= i <= |keys|
        invariant outbox == old(outbox) + Notifications(config, keys[..i])
        invariant neighbors == old(neighbors) && workers == old(workers)
      {
        assert keys[..i + 1][..i] == keys[..i];
        outbox := outbox + [Send(keys[i], ControlMsg(SelfMessage(config, UpdateNeighbors)))];
        i := i + 1;
      }
      assert keys[..i] == keys;
    }

    /** `handle_update_neighbors`: a known neighbour is active again, a new one is added. */
    method HandleUpdateNeighbors(c: ControlMessage)
      requires Valid()
      modifies this
      ensures State() == old(State()).(neighbors := Announce(old(neighbors), c.nodeIp, Newcomer(c)))
      ensures Valid()
    {
      if c.nodeIp in neighbors.m {
        neighbors := neighbors.Put(c.nodeIp, neighbors.m[c.nodeIp].(status := Some(Active)));
      } else {
        neighbors := neighbors.Put(c.nodeIp, Newcomer(c));
      }
    }

    /** `handle_ping`: answer with a PONG naming the server. */
    method HandlePing(c: ControlMessage)
      modifies this
      ensures State() == old(State()).(outbox := old(outbox) + [Send(c.nodeIp, ControlMsg(PongMessage(config)))])
    {
      outbox := outbox + [Send(c.nodeIp, ControlMsg(PongMessage(config)))];
    }

    /** `receive_neighbors_info` */
    method ReceiveNeighborsInfo(f: FloodingMessage)
      requires Valid()
      modifies this
      ensures State() == NeighborInfoReceived(old(State()), f)
      ensures Valid()
    {
      if |f.streamIds| > 0 && f.sourceIp in neighbors.m && neighbors.m[f.sourceIp].rtpPort.None? {
        neighbors := neighbors.Put(f.sourceIp, neighbors.m[f.sourceIp].(rtpPort := Some(f.rtpPort)));
      }
    }

    /** `handle_control_connection`, for one message on the control port. */
    method ReceiveControl(p: Payload)
      requires Valid()
      modifies this
      ensures State() == ControlServer(config, old(State()), p)
      ensures Valid()
    {
      match p {
        case ControlMsg(c) =>
          if c.ctype == UpdateNeighbors {
            HandleUpdateNeighbors(c);
          } else if c.ctype == Ping {
            HandlePing(c);
          }
        case FloodingMsg(f) =>
          if f.ftype == ActivateRoute {
            ReceiveNeighborsInfo(f);
          }
        case Text(_) =>
      }
    }

    /** `openRTSP_socket` and `handle_rtsp_connection2` for one connection. */
    method ReceiveRtsp(data: string)
      modifies this
      ensures State() == RtspReceived(old(State()), data)
    {
      var parsed := ParseActive(data);
      if parsed.Some? {
        var (film, ip, port) := parsed.value;
        if film !in workers {
          workers := workers[film := Worker(ip, port)];
        }
      }
    }

    /** One iteration of `send_flood_to_neighbors`. */
    method FloodNeighbors()
      modifies this
      ensures State() == FloodRound(config, old(State()))
    {
      var keys := neighbors.keys;
      var i := 0;
      while i < |keys|
        invariant 0 <= i <= |keys|
        invariant State() == old(State()).(outbox := old(outbox) + Floods(config, keys[..i], neighbors.m))
      {
        assert keys[..i + 1][..i] == keys[..i];
        var ip := keys[i];
        if ip in neighbors.m && neighbors.m[ip].status == Some(Active) {
          outbox := outbox + [Send(ip, FloodingMsg(FloodMessage(config)))];
        }
        i := i + 1;
      }
      assert keys[..i] == keys;
    }

    /** One iteration of `send_ping_to_neighbors` over a snapshot of the table, with
        `probes` what each probe gave. */
    method SweepNeighbors(probes: IP -> Probe)
      requires Valid()
      modifies this
      ensures State() == SweepRound(config, old(State()), probes)
      ensures Valid()
    {
      ghost var s0 := State();
      SweepKeys(probes, neighbors.keys);
      SweepRoundIs(config, s0, probes);
    }

    /** The sweep loop over the snapshot `keys`, in order. */
    method SweepKeys(probes: IP -> Probe, keys: seq<IP>)
      modifies this
      ensures State() == SweepOver(config, old(State()), probes, keys)
    {
      ghost var s0 := State();
      var i := 0;
      while i < |keys|
        invariant 0 <= i <= |keys|
        invariant State() == SweepOver(config, s0, probes, keys[..i])
      {
        assert keys[..i + 1][..i] == keys[..i];
        SweepOne(probes, keys[i]);
        i := i + 1;
      }
      assert keys[..i] == keys;
    }

    /** One iteration of the sweep, for the neighbour at `ip`: an inactive neighbour is
        skipped, two failures make it inactive, any other is pinged and its counter
        follows the probe. */
    method SweepOne(probes: IP -> Probe, ip: IP)
      modifies this
      ensures State() == SweepStep(config, old(State()), probes, ip)
    {
      if ip !in neighbors.m {
        return;
      }
      var n := neighbors.m[ip];
      var n' := n;
      var sent: seq<Send> := [];
      if n.status == Some(Inactive) {
      } else if n.failed.GetOr(0) >= 2 {
        n' := n.(status := Some(Inactive));
      } else {
        sent := [Send(ip, ControlMsg(PingMessage(config)))];
        match probes(ip) {
          case Pong(_) =>
            n' := n.(failed := Some(0), status := Some(Active));
          case Silent =>
          case Lost =>
            n' := n.(failed := Some(n.failed.GetOr(0) + 1));
        }
      }
      neighbors := neighbors.Put(ip, n');
      outbox := outbox + sent;
    }
  }
}
