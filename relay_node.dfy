/** The overlay relay node of `etapa3/Node.py` as an object: its neighbour table, routing
    table and sessions are fields that the handlers update in place, loop by loop, as
    the Python methods do. Every method is proved to leave the node in the state the
    matching `RelaySpec` function describes, where the properties of those updates are
    proved. Messages the node sends are appended to `outbox`. */
module RelayNode {
  import opened Common
  import opened OrdMap
  import opened Messages
  import opened Liveness
  import opened RelaySpec

  class Relay {
    /** The IP, id, type and ports the node was started with. */
    const config: Config
    /** `self.neighbors` */
    var neighbors: Table
    /** `self.routing_table` */
    var routing: Routing
    /** `self.sessions` */
    var sessions: Sessions
    /** Every message the node has sent, in order. */
    var outbox: seq<Send>

    function State(): RelayState
      reads this
    {
      RelayState(neighbors, routing, sessions, outbox)
    }

    /** The tables each list their keys once. */
    predicate Valid()
      reads this
    {
      RelaySpec.Valid(State())
    }

    /** `Node.__init__`: empty tables. */
    constructor (cfg: Config)
      ensures config == cfg && Valid()
      ensures State() == RelayState(Empty(), Empty(), Empty(), [])
    {
      config := cfg;
      neighbors := Empty();
      routing := Empty();
      sessions := Empty();
      outbox := [];
    }

    // -------------------------------------------------------------------------------
    // Registration and neighbour announcements

    /** `register_with_bootstrapper`: `request` is the REGISTER the node sends; `k` and
        `reply` are the frame the bootstrapper answers with. A REGISTER_RESPONSE
        replaces the table and the node announces itself to every new neighbour. */
    method RegisterWithBootstrapper(k: Kind, reply: ControlMessage) returns (request: ControlMessage)
      requires Valid()
      modifies this
      ensures request == SelfMessage(config, Register)
      ensures State() == RegisterReply(config, old(State()), k, reply)
      ensures Valid()
    {
      request := SelfMessage(config, Register);
      if k == ControlKind && reply.ctype == RegisterResponse {
        neighbors := Liveness.Register(reply.neighbors, Registered);
        NotifyNeighbors();
      }
    }

    /** `notify_neighbors_registration`: one UPDATE_NEIGHBORS to each neighbour, in table
        order. */
    method NotifyNeighbors()
      modifies this
      ensures outbox == old(outbox) + Notifications(config, neighbors.keys)
      ensures neighbors == old(neighbors) && routing == old(routing) && sessions == old(sessions)
    {
      var keys := neighbors.keys;
      var i := 0;
      while i < |keys|
        invariant 0 <= i <= |keys|
        invariant outbox == old(outbox) + Notifications(config, keys[..i])
        invariant neighbors == old(neighbors) && routing == old(routing) && sessions == old(sessions)
      {
        assert keys[..i + 1][..i] == keys[..i];
        outbox := outbox + [Send(keys[i], ControlMsg(SelfMessage(config, UpdateNeighbors)))];
        i := i + 1;
      }
      assert keys[..i] == keys;
    }

    /** `handle_update_neighbors`: a known neighbour is active again, a new one is added. */
    method HandleUpdateNeighbors(c: ControlMessage)
      requires Valid()
      modifies this
      ensures State() == old(State()).(neighbors := Announce(old(neighbors), c.nodeIp, Newcomer(c)))
      ensures Valid()
    {
      if c.nodeIp in neighbors.m {
        neighbors := neighbors.Put(c.nodeIp, neighbors.m[c.nodeIp].(status := Some(Active)));
      } else {
        neighbors := neighbors.Put(c.nodeIp, Newcomer(c));
      }
    }

    /** `handle_ping`: store the sender's accumulated time if it is a neighbour, answer
        with a PONG. */
    method HandlePing(c: ControlMessage)
      requires Valid()
      modifies this
      ensures State() == old(State()).(neighbors := PingReceived(old(neighbors), c),
                                       outbox := old(outbox) + [Send(c.nodeIp, ControlMsg(PongFor(config)))])
      ensures Valid()
    {
      if c.nodeIp in neighbors.m {
        neighbors := neighbors.Put(c.nodeIp, neighbors.m[c.nodeIp].(accTime := Some(c.accumulatedTime)));
      }
      outbox := outbox + [Send(c.nodeIp, ControlMsg(PongFor(config)))];
    }

    /** The loop of `manage_neighbor_communication` (and the `min` of `handle_ack`) that
        finds the smallest accumulated time any neighbour has reported. */
    method BestAccumulated() returns (best: Cost)
      ensures best == MinAcc(neighbors.keys, neighbors.m)
    {
      var keys := neighbors.keys;
      best := Inf;
      var i := 0;
      while i < |keys|
        invariant 0 <= i <= |keys|
        invariant best == MinAcc(keys[..i], neighbors.m)
      {
        assert keys[..i + 1][..i] == keys[..i];
        var acc := if keys[i] in neighbors.m then neighbors.m[keys[i]].accTime.GetOr(Inf) else Inf;
        if acc.Less(best) {
          best := acc;
        }
        i := i + 1;
      }
      assert keys[..i] == keys;
    }

    /** `handle_ack`: answer a client's ACK with this node's best accumulated time; with
        no neighbour the `min` raises and nothing is sent. */
    method HandleAck(c: ControlMessage)
      modifies this
      ensures State() == old(State()).(outbox := old(outbox) + AckReply(config, old(neighbors), c))
    {
      if neighbors.m == map[] {
        return;
      }
      var best := BestAccumulated();
      outbox := outbox + [Send(c.nodeIp, ControlMsg(Control(Ack).(nodeIp := config.nodeIp, nodeId := config.nodeId,
                                                                  accumulatedTime := best)))];
    }

    // -------------------------------------------------------------------------------
    // Flooding

    /** `update_route_table` */
    method UpdateRouteTable(msg: FloodingMessage)
      modifies this
      ensures routing == AddRoutes(old(routing), msg, msg.streamIds)
      ensures neighbors == old(neighbors) && sessions == old(sessions) && outbox == old(outbox)
    {
      var ids := msg.streamIds;
      var i := 0;
      while i < |ids|
        invariant 0 <= i <= |ids|
        invariant routing == AddRoutes(old(routing), msg, ids[..i])
        invariant neighbors == old(neighbors) && sessions == old(sessions) && outbox == old(outbox)
      {
        assert ids[..i + 1][..i] == ids[..i];
        AddRouteRow(msg, ids[i]);
        i := i + 1;
      }
      assert ids[..i] == ids;
    }

    /** One iteration of `update_route_table`: the advertiser gets a row table if it has
        none, and a row for `sid` if it has none for that stream. */
    method AddRouteRow(msg: FloodingMessage, sid: string)
      modifies this
      ensures routing == AddRoute(old(routing), msg, sid)
      ensures neighbors == old(neighbors) && sessions == old(sessions) && outbox == old(outbox)
    {
      var d := msg.sourceIp;
      if d !in routing.m {
        routing := routing.Put(d, Empty());
      }
      if sid !in routing.m[d].m {
        routing := routing.Put(d, routing.m[d].Put(sid, FloodRoute(msg)));
      }
    }

    /** `handle_flooding_message`: record the advertisement, then re-send it, rewritten,
        to every active non-client neighbour that is neither its sender nor a routing
        destination and accepts the connection (`reachable`). */
    method HandleFloodingMessage(msg: FloodingMessage, reachable: IP -> bool)
      requires Valid()
      modifies this
      ensures State() == Flood(config, old(State()), msg, reachable)
      ensures Valid()
    {
      ghost var s0 := State();
      UpdateRouteTable(msg);
      ResendFlood(msg, reachable);
      FloodKeepsValid(config, s0, msg, reachable);
    }

    /** The re-send loop of `handle_flooding_message`. The message is rewritten once the
        connection succeeds, before each re-send, so after the first re-send the sender
        test compares against this node's own IP. */
    method ResendFlood(msg: FloodingMessage, reachable: IP -> bool)
      modifies this
      ensures outbox == old(outbox) + Reflood(config, neighbors, routing, msg, reachable, neighbors.keys).0
      ensures neighbors == old(neighbors) && routing == old(routing) && sessions == old(sessions)
    {
      var keys := neighbors.keys;
      var cur := msg;
      var i := 0;
      while i < |keys|
        invariant 0 <= i <= |keys|
        invariant neighbors == old(neighbors) && routing == old(routing) && sessions == old(sessions)
        invariant outbox == old(outbox) + Reflood(config, neighbors, routing, msg, reachable, keys[..i]).0
        invariant cur == Reflood(config, neighbors, routing, msg, reachable, keys[..i]).1
      {
        assert keys[..i + 1][..i] == keys[..i];
        var ip := keys[i];
        if ip != cur.sourceIp && ip !in routing.m && ip in neighbors.m && neighbors.m[ip].status == Some(Active) {
          if !StartsWith(neighbors.m[ip].nodeId, "client") && reachable(ip) {
            cur := cur.(sourceIp := config.nodeIp, sourceId := config.nodeId,
                        controlPort := config.controlPort, rtspPort := config.rtspPort);
            outbox := outbox + [Send(ip, FloodingMsg(cur))];
          }
        }
        i := i + 1;
      }
      assert keys[..i] == keys;
    }

    // -------------------------------------------------------------------------------
    // Activation and deactivation of routes

    /** `deactivate_routes(dest, f)`: every other route carrying `f` is switched off and
        sent a DEACTIVATE_ROUTE. */
    method DeactivateRoutes(dest: IP, f: string)
      modifies this
      ensures State() == Deactivate(config, old(State()), dest, f)
    {
      ghost var s0 := State();
      var keys := routing.keys;
      var i := 0;
      while i < |keys|
        invariant 0 <= i <= |keys|
        invariant State() == DeactivateOver(config, s0, dest, f, keys[..i])
      {
        assert keys[..i + 1][..i] == keys[..i];
        DeactivateRouteAt(dest, f, keys[i]);
        i := i + 1;
      }
      assert keys[..i] == keys;
    }

    /** One iteration of `deactivate_routes(dest, f)`, at destination `ip`. */
    method DeactivateRouteAt(dest: IP, f: string, ip: IP)
      modifies this
      ensures State() == DeactivateAt(config, old(State()), dest, f, ip)
    {
      if ip != dest && ip in routing.m && f in routing.m[ip].m {
        var row := routing.m[ip].m[f];
        if row.stream == On || row.flow == On {
          routing := routing.Put(ip, routing.m[ip].Put(f, row.(stream := Off, flow := Off)));
          outbox := outbox + [Send(ip, FloodingMsg(DeactivateMsg(config, f)))];
        }
      }
    }

    /** The search loops of `activate_best_route` over the rows of the streams `ids`:
        destinations in table order, then streams in the order requested. A destination
        with no neighbour entry raises `KeyError`, which ends the search. */
    method SearchBestRoute(ids: seq<string>) returns (st: Search)
      requires routing.Valid()
      ensures st == BestRoute(neighbors, routing, ids)
    {
      var keys := routing.keys;
      st := Searching(None, Inf);
      var i := 0;
      while i < |keys|
        invariant 0 <= i <= |keys|
        invariant st == ScanFrom(neighbors, Searching(None, Inf), Candidates(routing, keys[..i], ids))
        invariant st.Searching?
      {
        var d := keys[i];
        ghost var done := Candidates(routing, keys[..i], ids);
        assert Candidates(routing, keys[..i + 1], ids) == done + RowCandidates(d, routing.m[d], ids) by {
          assert keys[..i + 1][..i] == keys[..i];
        }
        ScanAppend(neighbors, Searching(None, Inf), done, RowCandidates(d, routing.m[d], ids));
        st := ScanRow(st, d, routing.m[d], ids);
        if st.KeyMissing? {
          var j :| 0 <= j < |ids| && ids[j] in routing.m[d].m;
          CandidatesComplete(routing, keys, ids, d, ids[j]);
          ScanRaisesAt(neighbors, Candidates(routing, keys, ids), (d, ids[j]));
          return;
        }
        i := i + 1;
      }
      assert keys[..i] == keys;
    }

    /** The inner loop of the search, over the streams `ids` of destination `d`'s rows,
        from `st`. It raises at the first row it finds when `d` has no neighbour entry. */
    method ScanRow(st: Search, d: IP, rows: Routes, ids: seq<string>) returns (st': Search)
      requires st.Searching?
      ensures st' == ScanFrom(neighbors, st, RowCandidates(d, rows, ids))
      ensures st'.KeyMissing? ==> Unknown(neighbors, d) && exists j | 0 <= j < |ids| :: ids[j] in rows.m
    {
      st' := st;
      var j := 0;
      while j < |ids|
        invariant 0 <= j <= |ids|
        invariant st' == ScanFrom(neighbors, st, RowCandidates(d, rows, ids[..j]))
        invariant st'.Searching?
      {
        assert ids[..j + 1][..j] == ids[..j];
        if ids[j] in rows.m {
          if Unknown(neighbors, d) {
            RowCandidatesComplete(d, rows, ids, ids[j]);
            ScanRaisesFrom(neighbors, st, RowCandidates(d, rows, ids), d, ids[j]);
            return KeyMissing;
          }
          assert RowCandidates(d, rows, ids[..j + 1]) == RowCandidates(d, rows, ids[..j]) + [(d, ids[j])];
          st' := Examine(neighbors, st', (d, ids[j]));
        } else {
          assert RowCandidates(d, rows, ids[..j + 1]) == RowCandidates(d, rows, ids[..j]);
        }
        j := j + 1;
      }
      assert ids[..j] == ids;
    }

    /** `activate_best_route(msg, sender)`, `fromClient` being `sender == "client"`: find
        the row of a requested stream whose destination has the least accumulated time,
        and activate it. */
    method ActivateBestRoute(msg: FloodingMessage, fromClient: bool)
      requires Valid()
      modifies this
      ensures State() == Activate(config, old(State()), msg, fromClient)
      ensures Valid()
    {
      ActivateKeepsValid(config, State(), msg, fromClient);
      var st := SearchBestRoute(msg.streamIds);
      if st.KeyMissing? || st.best.None? {
        return;
      }
      var (d, f) := st.best.value;
      ScanFindsFirstLeast(neighbors, Candidates(routing, routing.keys, msg.streamIds));
      CandidatesExist(routing, routing.keys, msg.streamIds, (d, f));
      SwitchOnRoute(msg, fromClient, d, f);
    }

    /** The second half of `activate_best_route`, once the row (`d`, `f`) is chosen: switch
        it on unless it already carries the stream, join the requester to the stream's
        session, prune the other routes, then ask for the stream. */
    method SwitchOnRoute(msg: FloodingMessage, fromClient: bool, d: IP, f: string)
      requires d in routing.m && f in routing.m[d].m
      modifies this
      ensures State() == Activated(config, old(State()), msg, fromClient, d, f)
    {
      ghost var s0 := State();
      var row := routing.m[d].m[f];
      if row.stream != On {
        routing := routing.Put(d, routing.m[d].Put(f, row.(stream := On, flow := On)));
      }
      sessions := JoinSession(sessions, f, msg, fromClient);
      assert State() == BeforePrune(s0, msg, fromClient, d, f);
      DeactivateRoutes(d, f);
      RequestStream(row, d, f);
    }

    /** The sends that end `activate_best_route`: the ACTIVATE_ROUTE to the chosen
        destination if its row was switched on, and the `ACTIVE` request over RTSP if
        the row leads to a server. */
    method RequestStream(row: Route, d: IP, f: string)
      modifies this
      ensures State() == old(State()).(outbox := old(outbox) + ActivationSends(config, row, d, f))
    {
      if row.stream != On {
        outbox := outbox + [Send(d, FloodingMsg(ActivateMsg(config, f)))];
      }
      if StartsWith(row.sourceId, "server") {
        outbox := outbox + [Send(d, Text(ActiveRequest(f, config.nodeIp, config.rtpPort)))];
      }
    }

    /** DEACTIVATE_ROUTE received: the sender leaves the stream's session, and when nobody
        is left the node prunes its own routes of the stream. A message without a
        stream, or a sender or stream without a session, raises and changes nothing. */
    method HandleDeactivateRoute(msg: FloodingMessage)
      requires Valid()
      modifies this
      ensures State() == DeactivateReceived(config, old(State()), msg)
      ensures Valid()
    {
      DeactivateReceivedKeepsValid(config, State(), msg);
      if |msg.streamIds| == 0 {
        return;
      }
      var f := msg.streamIds[0];
      if f !in sessions.m || msg.sourceIp !in sessions.m[f].m {
        return;
      }
      var rs := sessions.m[f].Remove(msg.sourceIp);
      sessions := sessions.Put(f, rs);
      if |rs.m| == 0 {
        DeactivateRoutes(msg.sourceIp, f);
      }
    }

    // -------------------------------------------------------------------------------
    // The liveness sweep

    /** One probe of `manage_neighbor_communication`: the PING goes out, and its outcome
        `p` updates the entry. */
    method ProbeNeighbor(ip: IP, p: Probe)
      requires ip in neighbors.m
      modifies this
      ensures State() == RelaySpec.ProbeNeighbor(config, old(State()), ip, p)
    {
      var n := neighbors.m[ip];
      var best := BestAccumulated();
      var ping := Control(Ping).(nodeIp := config.nodeIp, nodeId := config.nodeId,
                                 accumulatedTime := best.Plus(n.bestTime.GetOr(Inf)));
      outbox := outbox + [Send(ip, ControlMsg(ping))];
      match p {
        case Pong(rtt) =>
          neighbors := neighbors.Put(ip, n.(bestTime := Some(Fin(rtt)), failed := Some(0), status := Some(Active)));
        case Silent =>
        case Lost =>
          neighbors := neighbors.Put(ip, n.(failed := Some(n.failed.GetOr(0) + 1)));
      }
    }

    /** The expiry branch of `send_ping_to_neighbors`: mark the neighbour inactive, drop
        its routes, remove it from every session, and prune the routes of any stream
        left without receivers. */
    method ExpireNeighbor(ip: IP)
      requires ip in neighbors.m
      modifies this
      ensures State() == Expire(config, old(State()), ip)
    {
      var n := neighbors.m[ip];
      neighbors := neighbors.Put(ip, n.(status := Some(Inactive), accTime := Some(Inf)));
      routing := routing.Remove(ip);
      ghost var s1 := State();
      assert s1 == old(State()).(neighbors := old(neighbors).Put(ip, n.(status := Some(Inactive), accTime := Some(Inf))),
                                 routing := old(routing).Remove(ip));
      LeaveSessionsLoop(ip);
    }

    /** The session loop of the expiry branch, over a snapshot of the session table. */
    method LeaveSessionsLoop(ip: IP)
      modifies this
      ensures State() == LeaveSessions(config, old(State()), ip, old(sessions.keys))
    {
      ghost var s1 := State();
      var fs := sessions.keys;
      var i := 0;
      while i < |fs|
        invariant 0 <= i <= |fs|
        invariant State() == LeaveSessions(config, s1, ip, fs[..i])
      {
        assert fs[..i + 1][..i] == fs[..i];
        LeaveSession(ip, fs[i]);
        i := i + 1;
      }
      assert fs[..i] == fs;
    }

    /** One iteration of the session loop of the expiry branch: the neighbour leaves the
        session of stream `f`, and a session left empty has its routes deactivated. */
    method LeaveSession(ip: IP, f: string)
      modifies this
      ensures State() == LeaveStream(config, old(State()), ip, f)
    {
      if f in sessions.m {
        var rs := sessions.m[f];
        if ip in rs.m {
          rs := rs.Remove(ip);
        }
        sessions := sessions.Put(f, rs);
        if |rs.m| == 0 {
          DeactivateRoutes(ip, f);
        }
      }
    }

    /** One round of `send_ping_to_neighbors`, `probes` giving the outcome of each
        neighbour's probe. */
    method SweepNeighbors(probes: IP -> Probe)
      requires Valid()
      modifies this
      ensures State() == SweepRound(config, old(State()), probes)
      ensures Valid()
    {
      ghost var s0 := State();
      SweepLoop(probes);
      SweepKeepsValid(config, s0, probes);
    }

    /** The loop of `send_ping_to_neighbors` over a snapshot of the neighbour table. */
    method SweepLoop(probes: IP -> Probe)
      modifies this
      ensures State() == SweepRound(config, old(State()), probes)
    {
      ghost var s0 := State();
      var keys := neighbors.keys;
      var i := 0;
      while i < |keys|
        invariant 0 <= i <= |keys|
        invariant State() == SweepOver(config, s0, probes, keys[..i])
      {
        assert keys[..i + 1][..i] == keys[..i];
        SweepNeighbor(probes, keys[i]);
        i := i + 1;
      }
      assert keys[..i] == keys;
    }

    /** One iteration of the sweep: inactive neighbours and clients are skipped, a
        neighbour with two failures expires, any other is probed. */
    method SweepNeighbor(probes: IP -> Probe, ip: IP)
      modifies this
      ensures State() == SweepStep(config, old(State()), probes, ip)
    {
      if ip in neighbors.m {
        var n := neighbors.m[ip];
        if ExpireDue(n) {
          ExpireNeighbor(ip);
        } else if ProbeDue(n) {
          ProbeNeighbor(ip, probes(ip));
        }
      }
    }

    // -------------------------------------------------------------------------------
    // The two servers

    /** `handle_control_connection`, for one message on the TCP control port. */
    method ReceiveControl(p: Payload, reachable: IP -> bool)
      requires Valid()
      modifies this
      ensures State() == ControlServer(config, old(State()), p, reachable)
      ensures Valid()
    {
      match p {
        case ControlMsg(c) =>
          if c.ctype == UpdateNeighbors {
            HandleUpdateNeighbors(c);
          } else if c.ctype == Ping {
            HandlePing(c);
          }
        case FloodingMsg(m) =>
          if m.ftype == FloodingUpdate {
            HandleFloodingMessage(m, reachable);
          } else if m.ftype == ActivateRoute {
            ActivateBestRoute(m, false);
          } else {
            HandleDeactivateRoute(m);
          }
        case Text(_) =>
      }
    }

    /** `handle_data_message`, for one datagram on the UDP data port. */
    method ReceiveData(p: Payload, reachable: IP -> bool)
      requires Valid()
      modifies this
      ensures State() == DataServer(config, old(State()), p, reachable)
      ensures Valid()
    {
      match p {
        case ControlMsg(c) =>
          if c.ctype == UpdateNeighbors {
            HandleUpdateNeighbors(c);
          } else if c.ctype == Ack {
            HandleAck(c);
          }
        case FloodingMsg(m) =>
          if m.ftype == FloodingUpdate {
            HandleFloodingMessage(m, reachable);
          } else if m.ftype == ActivateRoute {
            ActivateBestRoute(m, true);
          } else {
            HandleDeactivateRoute(m);
          }
        case Text(_) =>
      }
    }
  }

  /** Every existing row of a requested stream is a candidate of the search. */
  lemma {:induction false} CandidatesComplete(routing: Routing, keys: seq<IP>, ids: seq<string>, d: IP, f: string)
    requires d in keys && d in routing.m && f in ids && f in routing.m[d].m
    ensures (d, f) in Candidates(routing, keys, ids)
  {
    var last := keys[|keys| - 1];
    if d == last {
      RowCandidatesComplete(d, routing.m[d], ids, f);
    } else {
      assert d in keys[..|keys| - 1] by {
        var k :| 0 <= k < |keys| && keys[k] == d;
        assert keys[..|keys| - 1][k] == d;
      }
      CandidatesComplete(routing, keys[..|keys| - 1], ids, d, f);
    }
  }

  lemma {:induction false} RowCandidatesComplete(d: IP, rows: Routes, ids: seq<string>, f: string)
    requires f in ids && f in rows.m
    ensures (d, f) in RowCandidates(d, rows, ids)
  {
    if ids[|ids| - 1] != f {
      assert f in ids[..|ids| - 1] by {
        var k :| 0 <= k < |ids| && ids[k] == f;
        assert ids[..|ids| - 1][k] == f;
      }
      RowCandidatesComplete(d, rows, ids[..|ids| - 1], f);
    }
  }

  /** A search from any point over candidates one of which names an unknown destination
      raises. */
  lemma {:induction false} ScanRaisesFrom(nb: Table, st: Search, cs: seq<(IP, string)>, d: IP, f: string)
    requires (d, f) in cs && Unknown(nb, d)
    ensures ScanFrom(nb, st, cs) == KeyMissing
  {
    var front := cs[..|cs| - 1];
    if cs[|cs| - 1] != (d, f) {
      assert (d, f) in front by {
        var k :| 0 <= k < |cs| && cs[k] == (d, f);
        assert front[k] == (d, f);
      }
      ScanRaisesFrom(nb, st, front, d, f);
    }
  }

  /** A search over candidates one of which names an unknown destination raises. */
  lemma ScanRaisesAt(nb: Table, cs: seq<(IP, string)>, c: (IP, string))
    requires c in cs && Unknown(nb, c.0)
    ensures ScanFrom(nb, Searching(None, Inf), cs) == KeyMissing
  {
    ScanRaises(nb, cs);
    var j :| 0 <= j < |cs| && cs[j] == c;
  }
}
