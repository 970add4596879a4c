/** The hop-count relay of `etapa3/ESR-TP2/Node.py`: its neighbour table and liveness
    sweep, the flood it re-sends with one more hop, the route it activates for a
    requester, and the `client_session` table of who receives which stream. Messages
    the node sends are appended to `outbox`. */
module HopNode {
  import opened Common
  import opened OrdMap
  import opened Messages
  import opened Liveness
  import opened HopRouting

  /** The node's IP, id, type and ports, as given to `Node.__init__`. */
  datatype NodeConfig = NodeConfig(
    nodeIp: IP, nodeId: string, nodeType: string,
    controlPort: int, dataPort: int, rtspPort: int, rtpPort: int)

  /** One receiver's dictionary in `client_session[stream]`; keys never written are
      `None`. */
  datatype Receiver = Receiver(rtpPort: Option<int>, rtspPort: Option<int>, session: Option<string>)

  /** The empty dictionary `{}` a new receiver starts as. */
  const NoReceiver := Receiver(None, None, None)

  /** `client_session`: stream name, then receiver IP. The stream key is an `Option`
      because `activate_best_route` can write the key `None`. */
  type Sessions = map<Option<string>, map<IP, Receiver>>

  /** Everything the handlers change. */
  datatype HopState = HopState(neighbors: Table, routing: HopTable, sessions: Sessions, outbox: seq<Send>)

  // ---------------------------------------------------------------------------------
  // Messages the node builds

  /** The REGISTER and UPDATE_NEIGHBORS the node sends about itself. */
  function SelfMessage(cfg: NodeConfig, t: ControlType): (c: ControlMessage)
    ensures c.ctype == t && c.nodeId == cfg.nodeId && c.nodeIp == cfg.nodeIp && c.nodeType == cfg.nodeType
    ensures c.controlPort == cfg.controlPort && c.dataPort == cfg.dataPort && c.rtspPort == 0
  {
    Control(t).(nodeId := cfg.nodeId, nodeIp := cfg.nodeIp, controlPort := cfg.controlPort,
                dataPort := cfg.dataPort, nodeType := cfg.nodeType)
  }

  /** The PING of a sweep: the node's IP and id. */
  function PingMessage(cfg: NodeConfig): (c: ControlMessage)
    ensures c.ctype == Ping && c.nodeIp == cfg.nodeIp && c.nodeId == cfg.nodeId
  {
    Control(Ping).(nodeIp := cfg.nodeIp, nodeId := cfg.nodeId)
  }

  /** The answer to a PING: a PONG that names the node. */
  function PongMessage(cfg: NodeConfig): (c: ControlMessage)
    ensures c.ctype == ControlType.Pong && c.nodeId == cfg.nodeId && c.nodeIp == ""
  {
    Control(ControlType.Pong).(nodeId := cfg.nodeId)
  }

  /** The FLOODING_UPDATE as this node re-sends it: one more hop, and this node's IP, id
      and ports as the source; the streams and their state are passed on unchanged. */
  function Relayed(cfg: NodeConfig, f: FloodingMessage): (r: FloodingMessage)
    ensures r.hops == f.hops + 1 && r.sourceIp == cfg.nodeIp && r.sourceId == cfg.nodeId
    ensures r.controlPort == cfg.controlPort && r.rtspPort == cfg.rtspPort
    ensures r.ftype == f.ftype && r.streamIds == f.streamIds && r.routeState == f.routeState
  {
    f.(sourceIp := cfg.nodeIp, sourceId := cfg.nodeId, hops := f.hops + 1,
       controlPort := cfg.controlPort, rtspPort := cfg.rtspPort)
  }

  /** The ACTIVATE_ROUTE sent upstream for stream `sid`: this node's IP and ports. */
  function ActivateMessage(cfg: NodeConfig, sid: string): (r: FloodingMessage)
    ensures r.ftype == ActivateRoute && r.streamIds == [sid] && r.sourceIp == cfg.nodeIp
    ensures r.rtpPort == cfg.rtpPort && r.rtspPort == cfg.rtspPort
  {
    Flooding(ActivateRoute).(streamIds := [sid], sourceIp := cfg.nodeIp, rtpPort := cfg.rtpPort, rtspPort := cfg.rtspPort)
  }

  // ---------------------------------------------------------------------------------
  // The neighbour table

  /** The bootstrapper's reply to the REGISTER: a REGISTER_RESPONSE replaces the table
      and the node announces itself to each neighbour; anything else changes nothing. */
  function RegisterReply(cfg: NodeConfig, s: HopState, reply: ControlMessage): HopState {
    if reply.ctype == RegisterResponse then
      var t := Rebuild(reply.neighbors, ListedActive);
      s.(neighbors := t, outbox := s.outbox + Broadcast(SelfMessage(cfg, UpdateNeighbors), t.keys))
    else s
  }

  /** After a REGISTER_RESPONSE the table holds exactly the listed IPs, each active with
      no failed attempts, and each is sent one announcement; routes and sessions stay. */
  lemma RegisterReplyEffect(cfg: NodeConfig, s: HopState, reply: ControlMessage)
    requires reply.ctype == RegisterResponse
    ensures var r := RegisterReply(cfg, s, reply);
      && (forall ip :: ip in r.neighbors.m <==> exists i | 0 <= i < |reply.neighbors| :: reply.neighbors[i].nodeIp == ip)
      && (forall ip | ip in r.neighbors.m :: r.neighbors.m[ip].status == Some(Active) && r.neighbors.m[ip].failed == Some(0))
      && r.routing == s.routing && r.sessions == s.sessions
      && r.outbox == s.outbox + Broadcast(SelfMessage(cfg, UpdateNeighbors), r.neighbors.keys)
  {
    RebuildKeys(reply.neighbors, ListedActive);
    RebuildEntries(reply.neighbors, ListedActive);
  }

  /** One sweep of `send_ping_to_neighbors`: the table swept with the "failed-attempts"
      counter, and a PING to every neighbour probed. */
  function SweepRound(cfg: NodeConfig, s: HopState, probes: IP -> Probe): HopState
    requires s.neighbors.Valid()
  {
    s.(neighbors := SweepTable(s.neighbors, probes, FailedAttempts),
       outbox := s.outbox + Pings(PingMessage(cfg), Events(s.neighbors.keys, s.neighbors.m, FailedAttempts)))
  }

  /** A sweep keeps the neighbours, sweeps each one by the shared rule, and pings exactly
      the neighbours that are neither inactive nor at two failures. */
  lemma SweepRoundEffect(cfg: NodeConfig, s: HopState, probes: IP -> Probe, ip: IP)
    requires s.neighbors.Valid()
    ensures var r := SweepRound(cfg, s, probes);
      && r.neighbors.keys == s.neighbors.keys
      && (ip in s.neighbors.m ==> r.neighbors.m[ip] == SweepEntry(s.neighbors.m[ip], probes(ip), FailedAttempts))
      && (Send(ip, ControlMsg(PingMessage(cfg))) in r.outbox[|s.outbox|..] <==>
            ip in s.neighbors.m && !IsInactive(s.neighbors.m[ip]) && Count(s.neighbors.m[ip], FailedAttempts) < 2)
      && r.routing == s.routing && r.sessions == s.sessions
  {
    var r := SweepRound(cfg, s, probes);
    var events := Events(s.neighbors.keys, s.neighbors.m, FailedAttempts);
    assert r.outbox[|s.outbox|..] == Pings(PingMessage(cfg), events);
    PingsContents(PingMessage(cfg), events, ip);
    EventsContents(s.neighbors.keys, s.neighbors.m, FailedAttempts, ip);
  }

  // ---------------------------------------------------------------------------------
  // The flood

  /** The re-send loop of `handle_flooding_message` over `keys`, after the table has been
      updated to `rt`: the messages sent, and whether the message object has been
      rewritten yet. A neighbour gets the flood unless it is the message's current
      source or already a destination in `rt`; `reachable` says whether connecting to
      it succeeds. The message is rewritten in place at the first successful
      connection, so from then on the test compares with this node's own IP. */
  function Reflood(cfg: NodeConfig, rt: HopTable, f: FloodingMessage, reachable: IP -> bool, keys: seq<IP>): (r: (seq<Send>, bool))
    ensures |r.0| <= |keys|
    ensures forall i | 0 <= i < |r.0| :: r.0[i].payload == FloodingMsg(Relayed(cfg, f)) && r.0[i].to in keys
    ensures r.1 <==> r.0 != []
  {
    if keys == [] then ([], false)
    else
      var prev := Reflood(cfg, rt, f, reachable, keys[..|keys| - 1]);
      var ip := keys[|keys| - 1];
      var source := if prev.1 then cfg.nodeIp else f.sourceIp;
      if ip != source && ip !in rt.m && reachable(ip) then (prev.0 + [Send(ip, FloodingMsg(Relayed(cfg, f)))], true)
      else prev
  }

  /** `handle_flooding_message`: the hop rule for every advertised stream, then the flood
      to the neighbours, in table order. */
  function Flood(cfg: NodeConfig, s: HopState, f: FloodingMessage, reachable: IP -> bool): HopState {
    var rt := AddHops(s.routing, f, f.streamIds);
    s.(routing := rt, outbox := s.outbox + Reflood(cfg, rt, f, reachable, s.neighbors.keys).0)
  }

  /** When the sender is already a destination of `rt` and this node is not its own
      neighbour, the flood reaches exactly the reachable neighbours that are not yet
      destinations, and never the sender. */
  lemma {:induction false} RefloodTargets(cfg: NodeConfig, rt: HopTable, f: FloodingMessage, reachable: IP -> bool, keys: seq<IP>, ip: IP)
    requires f.sourceIp in rt.m && cfg.nodeIp !in keys
    ensures Send(ip, FloodingMsg(Relayed(cfg, f))) in Reflood(cfg, rt, f, reachable, keys).0 <==>
      ip in keys && ip !in rt.m && reachable(ip)
    ensures Send(f.sourceIp, FloodingMsg(Relayed(cfg, f))) !in Reflood(cfg, rt, f, reachable, keys).0
  {
    if keys != [] {
      var front := keys[..|keys| - 1];
      assert keys == front + [keys[|keys| - 1]];
      RefloodTargets(cfg, rt, f, reachable, front, ip);
    }
  }

  /** A flood with at least one stream updates the table by the hop rule and is re-sent,
      with one more hop and this node as the source, to exactly the reachable neighbours
      that are not destinations of the updated table; the sender, now a destination,
      never gets it back. */
  lemma FloodEffect(cfg: NodeConfig, s: HopState, f: FloodingMessage, reachable: IP -> bool, ip: IP)
    requires s.neighbors.Valid() && cfg.nodeIp !in s.neighbors.m && f.streamIds != []
    ensures var r := Flood(cfg, s, f, reachable);
      && r.routing == AddHops(s.routing, f, f.streamIds)
      && r.neighbors == s.neighbors && r.sessions == s.sessions
      && r.outbox[..|s.outbox|] == s.outbox
      && (forall i | |s.outbox| <= i < |r.outbox| :: r.outbox[i].payload == FloodingMsg(Relayed(cfg, f)))
      && (Send(ip, FloodingMsg(Relayed(cfg, f))) in r.outbox[|s.outbox|..] <==>
            ip in s.neighbors.m && ip !in r.routing.m && reachable(ip))
      && Send(f.sourceIp, FloodingMsg(Relayed(cfg, f))) !in r.outbox[|s.outbox|..]
  {
    var rt := AddHops(s.routing, f, f.streamIds);
    AddHopsEffect(s.routing, f, f.streamIds, f.sourceIp, f.streamIds[0]);
    RefloodTargets(cfg, rt, f, reachable, s.neighbors.keys, ip);
    var sent := Reflood(cfg, rt, f, reachable, s.neighbors.keys).0;
    assert Flood(cfg, s, f, reachable).outbox[|s.outbox|..] == sent;
    forall i | |s.outbox| <= i < |s.outbox| + |sent|
      ensures Flood(cfg, s, f, reachable).outbox[i] == sent[i - |s.outbox|]
    {
    }
  }

  /** An advertisement with no stream leaves the sender out of the table, so once the
      message has been rewritten for a first neighbour, the sender gets its own flood
      back. */
  lemma EmptyFloodEchoes(cfg: NodeConfig, f: FloodingMessage, other: IP)
    requires f.streamIds == [] && other != f.sourceIp && cfg.nodeIp != f.sourceIp
    ensures Reflood(cfg, Empty(), f, _ => true, [other, f.sourceIp]).0 ==
      [Send(other, FloodingMsg(Relayed(cfg, f))), Send(f.sourceIp, FloodingMsg(Relayed(cfg, f)))]
  {
    assert [other, f.sourceIp][..1] == [other];
    assert [other][..0] == [];
  }

  // ---------------------------------------------------------------------------------
  // Route activation

  /** A receiver entry once the requester is recorded for stream `sid`: its RTP port, its
      RTSP port when the message carries one (a client sends 0), and the session name. */
  function Recorded(e: Receiver, f: FloodingMessage, sid: string): (r: Receiver)
    ensures r.rtpPort == Some(f.rtpPort) && r.session == Some(sid)
    ensures f.rtspPort == 0 ==> r.rtspPort == e.rtspPort
  {
    Receiver(Some(f.rtpPort), if f.rtspPort != 0 then Some(f.rtspPort) else e.rtspPort, Some(sid))
  }

  /** The recording step of `activate_best_route`: `setdefault(key, {})`, then the
      requester's entry in `client_session[sid]` is created if needed and updated. The
      flag is false when `client_session[sid]` raises KeyError, after the `setdefault`. */
  function Enrol(ss: Sessions, key: Option<string>, sid: string, f: FloodingMessage): (r: (Sessions, bool))
    ensures r.1 <==> Some(sid) in ss || key == Some(sid)
  {
    var ss1 := if key in ss then ss else ss[key := map[]];
    if Some(sid) !in ss1 then (ss1, false)
    else
      var rs := ss1[Some(sid)];
      var e := if f.sourceIp in rs then rs[f.sourceIp] else NoReceiver;
      (ss1[Some(sid) := rs[f.sourceIp := Recorded(e, f, sid)]], true)
  }

  /** What recording does: `key` now exists; on success the requester's entry under
      `sid` is the recorded one and every other entry is as before. */
  lemma EnrolEffect(ss: Sessions, key: Option<string>, sid: string, f: FloodingMessage)
    ensures var r := Enrol(ss, key, sid, f);
      var before := if Some(sid) in ss && f.sourceIp in ss[Some(sid)] then ss[Some(sid)][f.sourceIp] else NoReceiver;
      && r.0.Keys == ss.Keys + {key}
      && (forall k | k in ss && k != Some(sid) :: r.0[k] == ss[k])
      && (key !in ss && key != Some(sid) ==> r.0[key] == map[])
      && (r.1 ==> f.sourceIp in r.0[Some(sid)])
      && (r.1 ==> r.0[Some(sid)][f.sourceIp] == Recorded(before, f, sid))
      && (r.1 ==> forall ip | ip != f.sourceIp && Some(sid) in ss && ip in ss[Some(sid)] ::
            ip in r.0[Some(sid)] && r.0[Some(sid)][ip] == ss[Some(sid)][ip])
  {
  }

  /** An activation that reuses an "active" row of stream `sid`: the requester is
      recorded after `setdefault(key, {})`, and nothing else changes. */
  function Reuse(s: HopState, f: FloodingMessage, key: Option<string>, sid: string): HopState {
    s.(sessions := Enrol(s.sessions, key, sid, f).0)
  }

  /** An activation of the chosen row `b`: its status becomes "active", the requester is
      recorded under `recordAs` after `setdefault` of `b`'s stream, and when that
      succeeds an ACTIVATE_ROUTE for `b`'s stream goes to `b`'s destination. */
  function Choose(cfg: NodeConfig, s: HopState, f: FloodingMessage, b: HopCand, recordAs: string): HopState
    requires RowAt(s.routing, b.dest, b.sid).Some?
  {
    var recorded := Enrol(s.sessions, Some(b.sid), recordAs, f);
    s.(routing := WithStatus(s.routing, b.dest, b.sid, "active"), sessions := recorded.0,
       outbox := if recorded.1 then s.outbox + [Send(b.dest, FloodingMsg(ActivateMessage(cfg, b.sid)))] else s.outbox)
  }

  /** `activate_best_route`, as written when `asWritten` holds, corrected otherwise.
      The search stops at the first row already "active" and records the requester
      there; otherwise the row with the fewest hops becomes "active", the requester is
      recorded, and an ACTIVATE_ROUTE goes to its destination. As written, line 339
      creates the key `filename` (the best stream so far, or `None`) where it means the
      stream being recorded, and line 363 records under the loop's last `stream_id`
      where it means `filename`; either lookup can then raise KeyError, which ends the
      handler before anything is recorded or sent. */
  function ActivateAs(cfg: NodeConfig, s: HopState, f: FloodingMessage, asWritten: bool): HopState {
    match ScanHop(Cands(s.routing, s.routing.keys, f.streamIds))
    case Reused(filename, c) => Reuse(s, f, if asWritten then filename else Some(c.sid), c.sid)
    case Chosen(best) =>
      if best.None? || f.streamIds == [] || RowAt(s.routing, best.value.dest, best.value.sid).None? then s
      else Choose(cfg, s, f, best.value, if asWritten then f.streamIds[|f.streamIds| - 1] else best.value.sid)
  }

  /** Once the search has chosen `b`, the corrected activation is that of `b`. */
  lemma ActivateChosen(cfg: NodeConfig, s: HopState, f: FloodingMessage, b: HopCand)
    requires ScanHop(Cands(s.routing, s.routing.keys, f.streamIds)) == Chosen(Some(b))
    requires f.streamIds != [] && RowAt(s.routing, b.dest, b.sid).Some?
    ensures ActivateAs(cfg, s, f, false) == Choose(cfg, s, f, b, b.sid)
  {
  }

  /** `activate_best_route` with lines 339 and 363 corrected; the node uses this one. */
  function Activate(cfg: NodeConfig, s: HopState, f: FloodingMessage): HopState {
    ActivateAs(cfg, s, f, false)
  }

  /** `activate_best_route` exactly as written. */
  function ActivateAsWritten(cfg: NodeConfig, s: HopState, f: FloodingMessage): HopState {
    ActivateAs(cfg, s, f, true)
  }

  /** When some requested row is already "active", the first one in search order is
      reused: the requester is recorded under its stream, and the routes, the neighbours
      and the messages sent stay as they were. */
  lemma ActivateReuses(cfg: NodeConfig, s: HopState, f: FloodingMessage)
    requires exists j | 0 <= j < |Cands(s.routing, s.routing.keys, f.streamIds)| ::
      Cands(s.routing, s.routing.keys, f.streamIds)[j].active
    ensures var r := Activate(cfg, s, f);
      var cs := Cands(s.routing, s.routing.keys, f.streamIds);
      && r.routing == s.routing && r.neighbors == s.neighbors && r.outbox == s.outbox
      && exists k | 0 <= k < |cs| :: (
        && cs[k].active && (forall j | 0 <= j < k :: !cs[j].active)
        && cs[k].sid in f.streamIds && RowAt(s.routing, cs[k].dest, cs[k].sid).Some?
        && RowAt(s.routing, cs[k].dest, cs[k].sid).value.status == "active"
        && Some(cs[k].sid) in r.sessions && f.sourceIp in r.sessions[Some(cs[k].sid)]
        && r.sessions[Some(cs[k].sid)][f.sourceIp].rtpPort == Some(f.rtpPort)
        && r.sessions[Some(cs[k].sid)][f.sourceIp].session == Some(cs[k].sid))
  {
    var cs := Cands(s.routing, s.routing.keys, f.streamIds);
    ScanHopResult(cs);
    var k :| 0 <= k < |cs| && cs[k] == ScanHop(cs).at && cs[k].active && (forall j | 0 <= j < k :: !cs[j].active)
      && ScanHop(cs).filename == (if Least(cs[..k]).None? then None else Some(Least(cs[..k]).value.sid));
    CandsExist(s.routing, s.routing.keys, f.streamIds, k);
    EnrolEffect(s.sessions, Some(cs[k].sid), cs[k].sid, f);
  }

  /** Activating a row changes that row's status to "active" and no other row; recorded
      under its own stream, the requester always gets an entry and one ACTIVATE_ROUTE
      goes to the row's destination. */
  lemma ChooseEffect(cfg: NodeConfig, s: HopState, f: FloodingMessage, b: HopCand, d: IP, g: string)
    requires RowAt(s.routing, b.dest, b.sid).Some?
    ensures var r := Choose(cfg, s, f, b, b.sid);
      && RowAt(r.routing, b.dest, b.sid) == Some(RowAt(s.routing, b.dest, b.sid).value.(status := "active"))
      && ((d, g) != (b.dest, b.sid) ==> RowAt(r.routing, d, g) == RowAt(s.routing, d, g))
      && r.outbox == s.outbox + [Send(b.dest, FloodingMsg(ActivateMessage(cfg, b.sid)))]
      && Some(b.sid) in r.sessions && f.sourceIp in r.sessions[Some(b.sid)]
      && r.sessions[Some(b.sid)][f.sourceIp].rtpPort == Some(f.rtpPort)
      && r.neighbors == s.neighbors
  {
    EnrolEffect(s.sessions, Some(b.sid), b.sid, f);
  }

  /** With no requested row "active", the activation is that of the first row with the
      fewest hops among the requested rows, recorded under that row's own stream. */
  lemma ActivateChooses(cfg: NodeConfig, s: HopState, f: FloodingMessage)
    requires var cs := Cands(s.routing, s.routing.keys, f.streamIds);
      cs != [] && forall j | 0 <= j < |cs| :: !cs[j].active
    ensures var cs := Cands(s.routing, s.routing.keys, f.streamIds);
      exists k | 0 <= k < |cs| :: (
        && (forall j | 0 <= j < |cs| :: cs[k].hops <= cs[j].hops)
        && (forall j | 0 <= j < k :: cs[k].hops < cs[j].hops)
        && cs[k].sid in f.streamIds
        && RowAt(s.routing, cs[k].dest, cs[k].sid).Some?
        && Activate(cfg, s, f) == Choose(cfg, s, f, cs[k], cs[k].sid))
  {
    var cs := Cands(s.routing, s.routing.keys, f.streamIds);
    ScanHopResult(cs);
    LeastIsFirstLeast(cs);
    var b := Least(cs).value;
    var k :| 0 <= k < |cs| && cs[k] == b
      && (forall j | 0 <= j < |cs| :: b.hops <= cs[j].hops)
      && (forall j | 0 <= j < k :: b.hops < cs[j].hops);
    CandsExist(s.routing, s.routing.keys, f.streamIds, k);
    ActivateChosen(cfg, s, f, b);
  }

  /** With no requested row at all, nothing changes and nothing is sent. */
  lemma ActivateNone(cfg: NodeConfig, s: HopState, f: FloodingMessage)
    requires Cands(s.routing, s.routing.keys, f.streamIds) == []
    ensures Activate(cfg, s, f) == s && ActivateAsWritten(cfg, s, f) == s
  {
  }

  /** A one-row table whose only row, for stream "m" at destination "d", is `status`. */
  function OneRoute(status: string): HopTable {
    OMap(["d"], map["d" := OMap(["m"], map["m" := HopRoute("d", "n1", 1, status, 0, 0, "inactive")])])
  }

  /** The rows a request for `ids` finds in `OneRoute(status)`, given that `ids` holds
      "m" once, first. */
  lemma OneRouteCands(status: string, ids: seq<string>)
    requires ids == ["m"] || ids == ["m", "x"]
    ensures Cands(OneRoute(status), OneRoute(status).keys, ids) == [HopCand("d", "m", 1, status == "active")]
  {
    var rt := OneRoute(status);
    var c := HopCand("d", "m", 1, status == "active");
    assert RowCands("d", rt.m["d"], ["m"]) == [c] by {
      assert ["m"][..0] == [];
    }
    if ids == ["m", "x"] {
      assert ids[..1] == ["m"] && "x" !in rt.m["d"].m;
    }
    assert ["d"][..0] == [];
  }

  /** A search over a single row stops there if it is "active" and chooses it otherwise. */
  lemma ScanOne(c: HopCand)
    ensures ScanHop([c]) == if c.active then Reused(None, c) else Chosen(Some(c))
  {
    assert [c][..0] == [];
    assert ScanHopFrom(Chosen(None), []) == Chosen(None);
  }

  /** Marking the row of `OneRoute("inactive")` "active" gives `OneRoute("active")`. */
  lemma OneRouteActivated()
    ensures WithStatus(OneRoute("inactive"), "d", "m", "active") == OneRoute("active")
  {
    var row := OneRoute("inactive").m["d"].m["m"].(status := "active");
    assert OneRoute("inactive").m["d"].Put("m", row) == OneRoute("active").m["d"];
  }

  /** Line 339: a request for "m" when the row of "m" is already "active" and no session
      exists creates the key `None` and then fails; the requester is never recorded. The
      corrected handler records it under "m". */
  lemma ReuseWithoutSession(cfg: NodeConfig, t: Table, f: FloodingMessage)
    requires f.streamIds == ["m"]
    ensures var s := HopState(t, OneRoute("active"), map[], []);
      && ActivateAsWritten(cfg, s, f).sessions == map[None := map[]]
      && Some("m") in Activate(cfg, s, f).sessions && f.sourceIp in Activate(cfg, s, f).sessions[Some("m")]
  {
    var s := HopState(t, OneRoute("active"), map[], []);
    OneRouteCands("active", f.streamIds);
    ScanOne(HopCand("d", "m", 1, true));
    assert ActivateAsWritten(cfg, s, f) == Reuse(s, f, None, "m");
    assert Activate(cfg, s, f) == Reuse(s, f, Some("m"), "m");
  }

  /** Line 363: a request for "m" and "x" whose best row is "m" marks it "active" and
      creates the session of "m", but records under "x", which has no session; the
      handler fails and no ACTIVATE_ROUTE is sent. The corrected handler sends it. */
  lemma ChosenUnderLastStream(cfg: NodeConfig, t: Table, f: FloodingMessage)
    requires f.streamIds == ["m", "x"]
    ensures var s := HopState(t, OneRoute("inactive"), map[], []);
      && ActivateAsWritten(cfg, s, f).outbox == []
      && ActivateAsWritten(cfg, s, f).routing == OneRoute("active")
      && Activate(cfg, s, f).outbox == [Send("d", FloodingMsg(ActivateMessage(cfg, "m")))]
  {
    var s := HopState(t, OneRoute("inactive"), map[], []);
    var c := HopCand("d", "m", 1, false);
    OneRouteCands("inactive", f.streamIds);
    ScanOne(c);
    assert RowAt(s.routing, "d", "m").Some?;
    assert ActivateAsWritten(cfg, s, f) == Choose(cfg, s, f, c, "x");
    assert Activate(cfg, s, f) == Choose(cfg, s, f, c, "m");
    OneRouteActivated();
  }

  // ---------------------------------------------------------------------------------
  // The control port

  /** `handle_control_connection`, for one message: UPDATE_NEIGHBORS and PING as control
      messages, FLOODING_UPDATE and ACTIVATE_ROUTE as flooding messages; anything else is
      ignored. `reachable` decides which neighbours a flood reaches. */
  function ControlServer(cfg: NodeConfig, s: HopState, p: Payload, reachable: IP -> bool): HopState
    requires s.neighbors.Valid()
  {
    match p
    case ControlMsg(c) =>
      if c.ctype == UpdateNeighbors then s.(neighbors := Announce(s.neighbors, c.nodeIp, AnnouncedActive(c)))
      else if c.ctype == Ping then
        s.(neighbors := PingedBy(s.neighbors, c.nodeIp, FailedAttempts),
           outbox := s.outbox + [Send(c.nodeIp, ControlMsg(PongMessage(cfg)))])
      else s
    case FloodingMsg(f) =>
      if f.ftype == FloodingUpdate then Flood(cfg, s, f, reachable)
      else if f.ftype == ActivateRoute then Activate(cfg, s, f)
      else s
    case Text(_) => s
  }

  /** A PING from a known neighbour resets its failed attempts and makes it active; it is
      answered with a PONG whether or not the sender is known, and nothing else changes. */
  lemma PingEffect(cfg: NodeConfig, s: HopState, c: ControlMessage, reachable: IP -> bool)
    requires s.neighbors.Valid() && c.ctype == Ping
    ensures var r := ControlServer(cfg, s, ControlMsg(c), reachable);
      && r.outbox == s.outbox + [Send(c.nodeIp, ControlMsg(PongMessage(cfg)))]
      && r.neighbors.keys == s.neighbors.keys
      && (c.nodeIp in s.neighbors.m ==> r.neighbors.m[c.nodeIp].failed == Some(0) && r.neighbors.m[c.nodeIp].status == Some(Active))
      && (forall k | k in s.neighbors.m && k != c.nodeIp :: r.neighbors.m[k] == s.neighbors.m[k])
      && r.routing == s.routing && r.sessions == s.sessions
  {
    PingedByEffect(s.neighbors, c.nodeIp, FailedAttempts);
  }

  // ---------------------------------------------------------------------------------
  // The node

  class Node {
    /** The IP, id, type and ports the node was started with. */
    const config: NodeConfig
    /** `self.neighbors` */
    var neighbors: Table
    /** `self.routing_table` */
    var routing: HopTable
    /** `self.client_session` */
    var sessions: Sessions
    /** Every message the node has sent, in order. */
    var outbox: seq<Send>

    function State(): HopState
      reads this
    {
      HopState(neighbors, routing, sessions, outbox)
    }

    /** Both tables list each key once. */
    predicate Valid()
      reads this
    {
      neighbors.Valid() && TableValid(routing)
    }

    /** `Node.__init__`: no neighbours, routes or sessions. */
    constructor (cfg: NodeConfig)
      ensures config == cfg && Valid()
      ensures State() == HopState(Empty(), Empty(), map[], [])
    {
      config := cfg;
      neighbors := Empty();
      routing := Empty();
      sessions := map[];
      outbox := [];
    }

    /** `register_with_bootstrapper`: `request` is the REGISTER the node sends and `reply`
        the bootstrapper's answer. */
    method RegisterWithBootstrapper(reply: ControlMessage) returns (request: ControlMessage)
      requires Valid()
      modifies this
      ensures request == SelfMessage(config, Register)
      ensures State() == RegisterReply(config, old(State()), reply)
      ensures Valid()
    {
      request := SelfMessage(config, Register);
      if reply.ctype == RegisterResponse {
        neighbors := Liveness.Register(reply.neighbors, ListedActive);
        outbox := Notify(outbox, SelfMessage(config, UpdateNeighbors), neighbors.keys);
      }
    }

    /** `handle_update_neighbors`: a known neighbour is active again, a new one is added. */
    method HandleUpdateNeighbors(c: ControlMessage)
      requires Valid()
      modifies this
      ensures State() == old(State()).(neighbors := Announce(old(neighbors), c.nodeIp, AnnouncedActive(c)))
      ensures Valid()
    {
      if c.nodeIp in neighbors.m {
        neighbors := neighbors.Put(c.nodeIp, neighbors.m[c.nodeIp].(status := Some(Active)));
      } else {
        neighbors := neighbors.Put(c.nodeIp, AnnouncedActive(c));
      }
    }

    /** `handle_ping`: answer with a PONG, then reset a known sender. */
    method HandlePing(c: ControlMessage)
      requires Valid()
      modifies this
      ensures State() == old(State()).(neighbors := PingedBy(old(neighbors), c.nodeIp, FailedAttempts),
                                       outbox := old(outbox) + [Send(c.nodeIp, ControlMsg(PongMessage(config)))])
      ensures Valid()
    {
      outbox := outbox + [Send(c.nodeIp, ControlMsg(PongMessage(config)))];
      if c.nodeIp in neighbors.m {
        neighbors := neighbors.Put(c.nodeIp, neighbors.m[c.nodeIp].(failed := Some(0), status := Some(Active)));
      }
    }

    /** One iteration of `send_ping_to_neighbors`; `probes` gives each probe's outcome. */
    method SweepNeighbors(probes: IP -> Probe)
      requires Valid()
      modifies this
      ensures State() == SweepRound(config, old(State()), probes)
      ensures Valid()
    {
      var t, events := Sweep(neighbors, probes, FailedAttempts);
      neighbors := t;
      outbox := outbox + Pings(PingMessage(config), events);
    }

    /** `handle_flooding_message`; `reachable` says which connections succeed. */
    method HandleFloodingMessage(f: FloodingMessage, reachable: IP -> bool)
      requires Valid()
      modifies this
      ensures State() == Flood(config, old(State()), f, reachable)
      ensures Valid()
    {
      AddHopsValid(routing, f, f.streamIds);
      routing := UpdateRoutes(routing, f);
      ResendFlood(f, reachable);
    }

    /** The re-send loop of `handle_flooding_message`, after the table update. The
        message object is rewritten in place at the first successful connection. */
    method ResendFlood(f: FloodingMessage, reachable: IP -> bool)
      modifies this
      ensures outbox == old(outbox) + Reflood(config, routing, f, reachable, neighbors.keys).0
      ensures neighbors == old(neighbors) && routing == old(routing) && sessions == old(sessions)
    {
      var keys := neighbors.keys;
      var message := f;
      var i := 0;
      while i < |keys|
        invariant 0 <= i <= |keys|
        invariant neighbors == old(neighbors) && sessions == old(sessions) && routing == old(routing)
        invariant outbox == old(outbox) + Reflood(config, routing, f, reachable, keys[..i]).0
        invariant message == if Reflood(config, routing, f, reachable, keys[..i]).1 then Relayed(config, f) else f
      {
        var ip := keys[i];
        ghost var prev := Reflood(config, routing, f, reachable, keys[..i]);
        assert Reflood(config, routing, f, reachable, keys[..i + 1]) ==
          if ip != message.sourceIp && ip !in routing.m && reachable(ip)
          then (prev.0 + [Send(ip, FloodingMsg(Relayed(config, f)))], true) else prev
        by {
          assert keys[..i + 1][..i] == keys[..i];
        }
        if ip != message.sourceIp && ip !in routing.m && reachable(ip) {
          message := message.(sourceIp := config.nodeIp, sourceId := config.nodeId, hops := f.hops + 1,
                              controlPort := config.controlPort, rtspPort := config.rtspPort);
          AppendAssoc(old(outbox), prev.0, [Send(ip, FloodingMsg(message))]);
          outbox := outbox + [Send(ip, FloodingMsg(message))];
        }
        i := i + 1;
      }
      assert keys[..i] == keys;
    }

    /** The recording step: `setdefault(key, {})`, then the requester's entry under
        `sid`; `ok` is false where the lookup of `sid` would raise. */
    method EnrolRequester(key: Option<string>, sid: string, f: FloodingMessage) returns (ok: bool)
      modifies this
      ensures (sessions, ok) == Enrol(old(sessions), key, sid, f)
      ensures neighbors == old(neighbors) && routing == old(routing) && outbox == old(outbox)
    {
      if key !in sessions {
        sessions := sessions[key := map[]];
      }
      if Some(sid) !in sessions {
        return false;
      }
      var rs := sessions[Some(sid)];
      var e := if f.sourceIp in rs then rs[f.sourceIp] else NoReceiver;
      e := e.(rtpPort := Some(f.rtpPort));
      if f.rtspPort != 0 {
        e := e.(rtspPort := Some(f.rtspPort));
      }
      e := e.(session := Some(sid));
      sessions := sessions[Some(sid) := rs[f.sourceIp := e]];
      return true;
    }

    /** `activate_best_route`, with lines 339 and 363 corrected. */
    method ActivateBestRoute(f: FloodingMessage)
      requires Valid()
      modifies this
      ensures State() == Activate(config, old(State()), f)
      ensures Valid()
    {
      ghost var s0 := State();
      var scan := SearchRoutes(routing, f.streamIds);
      match scan {
        case Reused(filename, c) =>
          assert Activate(config, s0, f) == Reuse(s0, f, Some(c.sid), c.sid);
          var _ := EnrolRequester(Some(c.sid), c.sid, f);
        case Chosen(best) =>
          if best.Some? && f.streamIds != [] && RowAt(routing, best.value.dest, best.value.sid).Some? {
            ActivateChosen(config, s0, f, best.value);
            ActivateRow(best.value, f);
          } else {
            assert Activate(config, s0, f) == s0;
          }
      }
    }

    /** Lines 358-386: the chosen row becomes "active", the requester is recorded under
        its stream, and the ACTIVATE_ROUTE is sent upstream. */
    method ActivateRow(b: HopCand, f: FloodingMessage)
      requires Valid() && RowAt(routing, b.dest, b.sid).Some?
      modifies this
      ensures State() == Choose(config, old(State()), f, b, b.sid)
      ensures Valid()
    {
      routing := WithStatus(routing, b.dest, b.sid, "active");
      var ok := EnrolRequester(Some(b.sid), b.sid, f);
      if ok {
        outbox := outbox + [Send(b.dest, FloodingMsg(ActivateMessage(config, b.sid)))];
      }
    }

    /** `get_route_with_stream`: the first route of `sid` whose flow is "active". */
    method GetRouteWithStream(sid: string) returns (r: Option<(IP, HopRoute)>)
      ensures r == FirstOn(routing, routing.keys, sid, Flow)
    {
      r := FindRoute(routing, sid, Flow);
    }

    /** `get_active_route`: the first route of `sid` whose status is "active". */
    method GetActiveRoute(sid: string) returns (r: Option<(IP, HopRoute)>)
      ensures r == FirstOn(routing, routing.keys, sid, Status)
    {
      r := FindRoute(routing, sid, Status);
    }

    /** `handle_control_connection`, for one message on the control port. */
    method ReceiveControl(p: Payload, reachable: IP -> bool)
      requires Valid()
      modifies this
      ensures State() == ControlServer(config, old(State()), p, reachable)
      ensures Valid()
    {
      match p {
        case ControlMsg(c) =>
          if c.ctype == UpdateNeighbors {
            HandleUpdateNeighbors(c);
          } else if c.ctype == Ping {
            HandlePing(c);
          }
        case FloodingMsg(f) =>
          if f.ftype == FloodingUpdate {
            HandleFloodingMessage(f, reachable);
          } else if f.ftype == ActivateRoute {
            ActivateBestRoute(f);
          }
        case Text(_) =>
      }
    }
  }
}
