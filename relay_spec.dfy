/** The state of an overlay relay node (`etapa3/Node.py`) as a value, and what each of
    its handlers does to that value: the neighbour table, the routing table of flooded
    stream advertisements, the per-stream sessions of downstream receivers, and the
    messages the node has sent. The `RelayNode.Relay` class performs these updates in
    place; the functions here say what the updates are. */
module RelaySpec {
  import opened Common
  import opened OrdMap
  import opened Messages
  import opened Liveness
  import opened Text

  /** The two values the node writes under a row's "stream" and "flow" keys and a
      receiver's "flow" key: "active", and "inactive" (for a row) or "deactive" (for a
      receiver). */
  datatype Flag = On | Off

  /** One row of the routing table: how to reach the node that advertised a stream.
      `stream` says whether the route may carry the stream, `flow` whether it does;
      `request` is the last RTSP request forwarded on it, if any. */
  datatype Route = Route(
    sourceIp: IP, sourceId: string, status: string, controlPort: int, rtspPort: int,
    stream: Flag, flow: Flag, request: Option<string>)

  /** The rows learned from one advertising neighbour, by stream name. */
  type Routes = OMap<string, Route>

  /** `routing_table`: destination IP, then stream name. */
  type Routing = OMap<IP, Routes>

  /** One downstream receiver of a stream: where its RTP goes and whether it is playing
      (`flow` is unset until the receiver's first PLAY or PAUSE, or set to "deactive"
      for a client that has only activated the route). */
  datatype Receiver = Receiver(rtpPort: int, flow: Option<Flag>, rtspPort: Option<int>)

  /** The receivers of one stream, by IP. */
  type Receivers = OMap<IP, Receiver>

  /** `sessions`: stream name, then receiver IP. */
  type Sessions = OMap<string, Receivers>

  /** What the node was started with. */
  datatype Config = Config(
    nodeIp: IP, nodeId: string, nodeType: string,
    controlPort: int, dataPort: int, rtspPort: int, rtpPort: int)

  /** Everything the handlers change. */
  datatype RelayState = RelayState(
    neighbors: Table, routing: Routing, sessions: Sessions, outbox: seq<Send>)

  predicate RoutingValid(r: Routing) {
    r.Valid() && forall d | d in r.m :: r.m[d].Valid()
  }

  predicate SessionsValid(ss: Sessions) {
    ss.Valid() && forall f | f in ss.m :: ss.m[f].Valid()
  }

  /** The three tables of the state list each of their keys once. */
  predicate Valid(s: RelayState) {
    s.neighbors.Valid() && s.routing.Valid() && s.sessions.Valid()
  }

  // ---------------------------------------------------------------------------------
  // Neighbour table

  /** The entry a REGISTER_RESPONSE creates for a listed neighbour. */
  function Registered(info: NeighborInfo): (n: Neighbor)
    ensures n.status == Some(Active) && n.failed == Some(0) && n.accTime == Some(Inf)
    ensures n.bestTime == None && n.nodeId == info.nodeId && n.controlPort == info.controlPort
  {
    Neighbor(info.nodeId, info.controlPort, info.dataPort, info.nodeType, info.rtspPort,
             Some(Active), Some(0), None, None, Some(Inf), None)
  }

  /** The control message this node sends about itself: the REGISTER to the
      bootstrapper, and the UPDATE_NEIGHBORS that announces it to its neighbours. */
  function SelfMessage(cfg: Config, t: ControlType): (c: ControlMessage)
    ensures c.ctype == t && c.nodeId == cfg.nodeId && c.nodeIp == cfg.nodeIp && c.nodeType == cfg.nodeType
    ensures c.controlPort == cfg.controlPort && c.dataPort == cfg.dataPort && c.rtspPort == cfg.rtspPort
    ensures c.neighbors == []
  {
    Control(t).(nodeId := cfg.nodeId, nodeIp := cfg.nodeIp, controlPort := cfg.controlPort,
                dataPort := cfg.dataPort, nodeType := cfg.nodeType, rtspPort := cfg.rtspPort)
  }

  /** `notify_neighbors_registration` over the neighbours `ips`: one UPDATE_NEIGHBORS
      each, in table order (to the data port of a client, the control port of any other
      node; ports are not part of a send here). */
  function Notifications(cfg: Config, ips: seq<IP>): (r: seq<Send>)
    ensures |r| == |ips|
    ensures forall i | 0 <= i < |ips| :: r[i] == Send(ips[i], ControlMsg(SelfMessage(cfg, UpdateNeighbors)))
  {
    if ips == [] then []
    else Notifications(cfg, ips[..|ips| - 1]) + [Send(ips[|ips| - 1], ControlMsg(SelfMessage(cfg, UpdateNeighbors)))]
  }

  /** The reply to the node's REGISTER: only a control frame holding a REGISTER_RESPONSE
      replaces the table, and then the node announces itself to each new neighbour;
      anything else leaves the state as it was. */
  function RegisterReply(cfg: Config, s: RelayState, k: Kind, reply: ControlMessage): RelayState {
    if k == ControlKind && reply.ctype == RegisterResponse then
      var t := Rebuild(reply.neighbors, Registered);
      s.(neighbors := t, outbox := s.outbox + Notifications(cfg, t.keys))
    else s
  }

  /** After a REGISTER_RESPONSE the table holds exactly the listed IPs, each active, with
      no failed probe and an infinite accumulated time, built from the last listing of
      its IP; each of them is sent one announcement. Any other reply changes nothing. */
  lemma RegisterReplyEffect(cfg: Config, s: RelayState, k: Kind, reply: ControlMessage)
    ensures !(k == ControlKind && reply.ctype == RegisterResponse) ==> RegisterReply(cfg, s, k, reply) == s
    ensures k == ControlKind && reply.ctype == RegisterResponse ==>
      var r := RegisterReply(cfg, s, k, reply);
      && r.neighbors.Valid()
      && (forall ip :: ip in r.neighbors.m <==> exists i | 0 <= i < |reply.neighbors| :: reply.neighbors[i].nodeIp == ip)
      && (forall ip | ip in r.neighbors.m ::
            r.neighbors.m[ip].status == Some(Active) && r.neighbors.m[ip].failed == Some(0)
            && r.neighbors.m[ip].accTime == Some(Inf))
      && (forall i | 0 <= i < |reply.neighbors| && (forall j | i < j < |reply.neighbors| :: reply.neighbors[j].nodeIp != reply.neighbors[i].nodeIp) ::
            r.neighbors.m[reply.neighbors[i].nodeIp] == Registered(reply.neighbors[i]))
      && r.routing == s.routing && r.sessions == s.sessions
      && r.outbox == s.outbox + Notifications(cfg, r.neighbors.keys)
  {
    if k == ControlKind && reply.ctype == RegisterResponse {
      RebuildKeys(reply.neighbors, Registered);
      RebuildEntries(reply.neighbors, Registered);
      forall i | 0 <= i < |reply.neighbors| && (forall j | i < j < |reply.neighbors| :: reply.neighbors[j].nodeIp != reply.neighbors[i].nodeIp) {
        RebuildLast(reply.neighbors, Registered, i);
      }
    }
  }

  /** The entry UPDATE_NEIGHBORS creates for a node that is not yet a neighbour. */
  function Newcomer(msg: ControlMessage): (n: Neighbor)
    ensures n.status == Some(Active) && n.failed == Some(0)
    ensures n.bestTime == Some(Inf) && n.accTime == Some(Inf)
  {
    Neighbor(msg.nodeId, msg.controlPort, msg.dataPort, msg.nodeType, msg.rtspPort,
             Some(Active), Some(0), None, Some(Inf), Some(Inf), None)
  }

  /** A PING carries the sender's accumulated time to the server; it is stored only for
      a sender that is already a neighbour. */
  function PingReceived(t: Table, msg: ControlMessage): (r: Table)
    requires t.Valid()
    ensures r.Valid() && r.keys == t.keys
  {
    if msg.nodeIp in t.m then t.Put(msg.nodeIp, t.m[msg.nodeIp].(accTime := Some(msg.accumulatedTime)))
    else t
  }

  /** The PONG that answers every PING. */
  function PongFor(cfg: Config): (c: ControlMessage)
    ensures c.ctype == ControlType.Pong && c.nodeId == cfg.nodeId
  {
    Control(ControlType.Pong).(nodeId := cfg.nodeId)
  }

  /** The smallest accumulated time any neighbour has reported (infinity when none has),
      the first neighbour winning a tie. */
  function MinAcc(keys: seq<IP>, m: map<IP, Neighbor>): (c: Cost)
    ensures forall i | 0 <= i < |keys| && keys[i] in m :: !m[keys[i]].accTime.GetOr(Inf).Less(c)
    ensures c == Inf || exists i | 0 <= i < |keys| :: keys[i] in m && m[keys[i]].accTime.GetOr(Inf) == c
  {
    if keys == [] then Inf
    else
      var rest := MinAcc(keys[..|keys| - 1], m);
      var ip := keys[|keys| - 1];
      var a := if ip in m then m[ip].accTime.GetOr(Inf) else Inf;
      if a.Less(rest) then a else rest
  }

  /** The PING sent to a neighbour: the best accumulated time reported by any neighbour
      plus the neighbour's own best round-trip time. */
  function PingFor(cfg: Config, t: Table, n: Neighbor): (c: ControlMessage)
    ensures c.ctype == Ping && c.nodeIp == cfg.nodeIp && c.nodeId == cfg.nodeId
  {
    Control(Ping).(nodeIp := cfg.nodeIp, nodeId := cfg.nodeId,
                   accumulatedTime := MinAcc(t.keys, t.m).Plus(n.bestTime.GetOr(Inf)))
  }

  // ---------------------------------------------------------------------------------
  // Routing table: FLOODING_UPDATE

  /** The row a flood creates: the advertiser's details, the route state it announced,
      neither carrying nor receiving the stream. */
  function FloodRoute(msg: FloodingMessage): (r: Route)
    ensures r.stream == Off && r.flow == Off && r.status == msg.routeState
    ensures r.sourceIp == msg.sourceIp && r.sourceId == msg.sourceId && r.request == None
  {
    Route(msg.sourceIp, msg.sourceId, msg.routeState, msg.controlPort, msg.rtspPort,
          Off, Off, None)
  }

  /** One iteration of `update_route_table`: make sure the advertiser has a row set, then
      add the stream's row unless one is there already. */
  function AddRoute(r: Routing, msg: FloodingMessage, sid: string): Routing {
    var d := msg.sourceIp;
    if d in r.m && sid in r.m[d].m then r
    else
      var rows: Routes := if d in r.m then r.m[d] else Empty();
      r.Put(d, rows.Put(sid, FloodRoute(msg)))
  }

  /** Recording one advertised stream keeps the tables well formed and makes the
      advertiser a destination, appended last if it was not one. */
  lemma AddRouteValid(r: Routing, msg: FloodingMessage, sid: string)
    ensures var r' := AddRoute(r, msg, sid);
      && (r.Valid() ==> r'.Valid())
      && (RoutingValid(r) ==> RoutingValid(r'))
      && r'.m.Keys == r.m.Keys + {msg.sourceIp}
      && (msg.sourceIp in r.m ==> r'.keys == r.keys)
  {
  }

  /** Going from routing map `a` to `b`, destinations other than `src` keep their rows,
      and `src`'s rows, when it has any, are its rows in `a` together with one new row
      `fr` for each stream of `ids` it had no row for. */
  ghost predicate RowsAdded(a: map<IP, Routes>, b: map<IP, Routes>, src: IP, ids: seq<string>, fr: Route) {
    && (forall d | d in a && d != src :: d in b && b[d] == a[d])
    && (src in b ==>
          forall sid :: sid in b[src].m <==> (src in a && sid in a[src].m) || sid in ids)
    && (src in b ==>
          forall sid | sid in b[src].m ::
            b[src].m[sid] == if src in a && sid in a[src].m then a[src].m[sid] else fr)
  }

  /** Recording one advertised stream leaves the other destinations alone, and gives the
      advertiser a row for `sid` unless it had one, which then stays as it was. */
  lemma AddRouteRows(r: Routing, msg: FloodingMessage, sid: string)
    ensures msg.sourceIp in AddRoute(r, msg, sid).m
    ensures RowsAdded(r.m, AddRoute(r, msg, sid).m, msg.sourceIp, [sid], FloodRoute(msg))
  {
  }

  /** Two rounds of added rows make one. */
  lemma RowsAddedCompose(a: map<IP, Routes>, b: map<IP, Routes>, c: map<IP, Routes>, src: IP,
                         ids1: seq<string>, ids2: seq<string>, fr: Route)
    requires RowsAdded(a, b, src, ids1, fr) && RowsAdded(b, c, src, ids2, fr)
    requires a.Keys <= b.Keys <= c.Keys && (|ids1| > 0 ==> src in b)
    ensures RowsAdded(a, c, src, ids1 + ids2, fr)
  {
    if src in c {
      forall sid
        ensures sid in c[src].m <==> (src in a && sid in a[src].m) || sid in ids1 + ids2
      {
        assert sid in ids1 + ids2 <==> sid in ids1 || sid in ids2;
      }
    }
  }

  /** `update_route_table` over the advertised streams `ids`. */
  function AddRoutes(r: Routing, msg: FloodingMessage, ids: seq<string>): Routing {
    if ids == [] then r
    else AddRoute(AddRoutes(r, msg, ids[..|ids| - 1]), msg, ids[|ids| - 1])
  }

  /** `update_route_table` keeps the routing table well formed; the advertiser becomes a
      destination (the last one, if it was not one) as soon as it advertises a stream,
      and no other destination comes or goes. */
  lemma {:induction false} AddRoutesValid(r: Routing, msg: FloodingMessage, ids: seq<string>)
    ensures var r' := AddRoutes(r, msg, ids);
      && (r.Valid() ==> r'.Valid())
      && (RoutingValid(r) ==> RoutingValid(r'))
      && r'.m.Keys == r.m.Keys + (if |ids| > 0 then {msg.sourceIp} else {})
      && (msg.sourceIp in r.m ==> r'.keys == r.keys)
  {
    if ids != [] {
      var front := ids[..|ids| - 1];
      AddRoutesValid(r, msg, front);
      AddRouteValid(AddRoutes(r, msg, front), msg, ids[|ids| - 1]);
    }
  }

  /** `update_route_table`: the advertiser's rows gain one row per advertised stream it
      did not have, and no existing row, of any destination, is changed: the first
      advertisement of a (destination, stream) wins. */
  lemma {:induction false} AddRoutesRows(r: Routing, msg: FloodingMessage, ids: seq<string>)
    ensures RowsAdded(r.m, AddRoutes(r, msg, ids).m, msg.sourceIp, ids, FloodRoute(msg))
  {
    if ids != [] {
      var front := ids[..|ids| - 1];
      var sid := ids[|ids| - 1];
      var mid := AddRoutes(r, msg, front);
      assert ids == front + [sid];
      AddRoutesValid(r, msg, front);
      AddRoutesRows(r, msg, front);
      AddRouteValid(mid, msg, sid);
      AddRouteRows(mid, msg, sid);
      RowsAddedCompose(r.m, mid.m, AddRoute(mid, msg, sid).m, msg.sourceIp, front, [sid], FloodRoute(msg));
    }
  }

  /** `flooding_message` after the node has rewritten it for re-sending. */
  function Relayed(cfg: Config, msg: FloodingMessage): (r: FloodingMessage)
    ensures r.sourceIp == cfg.nodeIp && r.sourceId == cfg.nodeId
    ensures r.streamIds == msg.streamIds && r.ftype == msg.ftype && r.routeState == msg.routeState
  {
    msg.(sourceIp := cfg.nodeIp, sourceId := cfg.nodeId,
         controlPort := cfg.controlPort, rtspPort := cfg.rtspPort)
  }

  /** A neighbour that may receive a re-sent flood, besides not being its sender: it is
      active, not a client, and not yet a destination in the routing table. */
  predicate FloodEligible(nb: Table, routing: Routing, ip: IP) {
    ip in nb.m && ip !in routing.m && nb.m[ip].status == Some(Active)
    && !StartsWith(nb.m[ip].nodeId, "client")
  }

  /** The re-send loop of `handle_flooding_message` over the neighbours `keys`;
      `reachable` says which neighbours accept the TCP connection. The message is
      rewritten only once a connection succeeds, and the loop compares against the
      rewritten message, so after the first re-send the sender test compares with this
      node's own IP. */
  function Reflood(cfg: Config, nb: Table, routing: Routing, msg: FloodingMessage, reachable: IP -> bool, keys: seq<IP>)
    : (r: (seq<Send>, FloodingMessage))
    ensures r.1 == msg || r.1 == Relayed(cfg, msg)
    ensures forall i | 0 <= i < |r.0| :: r.0[i].payload == FloodingMsg(Relayed(cfg, msg))
    ensures r.0 != [] ==> r.1 == Relayed(cfg, msg)
    ensures r.0 == [] ==> r.1 == msg
  {
    if keys == [] then ([], msg)
    else
      var (sends, cur) := Reflood(cfg, nb, routing, msg, reachable, keys[..|keys| - 1]);
      var ip := keys[|keys| - 1];
      if FloodEligible(nb, routing, ip) && ip != cur.sourceIp && reachable(ip)
      then (sends + [Send(ip, FloodingMsg(Relayed(cfg, cur)))], Relayed(cfg, cur))
      else (sends, cur)
  }

  /** `handle_flooding_message`: record the advertisement, then pass it on. */
  function Flood(cfg: Config, s: RelayState, msg: FloodingMessage, reachable: IP -> bool): RelayState {
    var routing := AddRoutes(s.routing, msg, msg.streamIds);
    s.(routing := routing,
       outbox := s.outbox + Reflood(cfg, s.neighbors, routing, msg, reachable, s.neighbors.keys).0)
  }

  /** The neighbours, in table order, that are eligible for a re-sent flood and accept
      the connection. */
  function EligibleIn(nb: Table, routing: Routing, reachable: IP -> bool, keys: seq<IP>): seq<IP> {
    if keys == [] then []
    else EligibleIn(nb, routing, reachable, keys[..|keys| - 1])
         + (if FloodEligible(nb, routing, keys[|keys| - 1]) && reachable(keys[|keys| - 1]) then [keys[|keys| - 1]] else [])
  }

  /** When the sender is already a routing destination (it is after advertising at least
      one stream) and this node is not its own neighbour, the flood goes, rewritten, to
      exactly the eligible neighbours that accept the connection, in table order; the
      sender never gets it back. */
  lemma {:induction false} RefloodTargets(cfg: Config, nb: Table, routing: Routing, msg: FloodingMessage, reachable: IP -> bool, keys: seq<IP>)
    requires msg.sourceIp in routing.m && cfg.nodeIp !in nb.m
    ensures |Reflood(cfg, nb, routing, msg, reachable, keys).0| == |EligibleIn(nb, routing, reachable, keys)|
    ensures forall i | 0 <= i < |EligibleIn(nb, routing, reachable, keys)| ::
      Reflood(cfg, nb, routing, msg, reachable, keys).0[i]
        == Send(EligibleIn(nb, routing, reachable, keys)[i], FloodingMsg(Relayed(cfg, msg)))
    ensures forall i | 0 <= i < |EligibleIn(nb, routing, reachable, keys)| ::
      EligibleIn(nb, routing, reachable, keys)[i] != msg.sourceIp
  {
    if keys != [] {
      RefloodTargets(cfg, nb, routing, msg, reachable, keys[..|keys| - 1]);
    }
  }

  /** A neighbour is listed by `EligibleIn` exactly when it is one of `keys`, eligible
      and reachable. */
  lemma {:induction false} EligibleInMembers(nb: Table, routing: Routing, reachable: IP -> bool, keys: seq<IP>, ip: IP)
    ensures ip in EligibleIn(nb, routing, reachable, keys) <==> ip in keys && FloodEligible(nb, routing, ip) && reachable(ip)
  {
    if keys != [] {
      var front := keys[..|keys| - 1];
      EligibleInMembers(nb, routing, reachable, front, ip);
      assert keys == front + [keys[|keys| - 1]];
    }
  }

  // ---------------------------------------------------------------------------------
  // deactivate_routes

  /** A row of stream `f` that may carry or does receive it. */
  predicate Carrying(rows: Routes, f: string) {
    f in rows.m && (rows.m[f].stream == On || rows.m[f].flow == On)
  }

  /** The row switched off. */
  function SwitchedOff(r: Route): (r': Route)
    ensures r'.stream == Off && r'.flow == Off
    ensures r'.sourceIp == r.sourceIp && r'.controlPort == r.controlPort && r'.request == r.request
  {
    r.(stream := Off, flow := Off)
  }

  /** The DEACTIVATE_ROUTE this node sends for stream `f`. */
  function DeactivateMsg(cfg: Config, f: string): (m: FloodingMessage)
    ensures m.ftype == DeactivateRoute && m.streamIds == [f] && m.sourceIp == cfg.nodeIp
  {
    Flooding(DeactivateRoute).(streamIds := [f], sourceIp := cfg.nodeIp,
                               rtpPort := cfg.rtpPort, rtspPort := cfg.rtspPort)
  }

  /** One iteration of `deactivate_routes(dest, f)` at destination `ip`. */
  function DeactivateAt(cfg: Config, s: RelayState, dest: IP, f: string, ip: IP): RelayState {
    if ip != dest && ip in s.routing.m && Carrying(s.routing.m[ip], f) then
      var rows := s.routing.m[ip];
      s.(routing := s.routing.Put(ip, rows.Put(f, SwitchedOff(rows.m[f]))),
         outbox := s.outbox + [Send(ip, FloodingMsg(DeactivateMsg(cfg, f)))])
    else s
  }

  /** `deactivate_routes(dest, f)` over the destinations `keys`, in order. */
  function DeactivateOver(cfg: Config, s: RelayState, dest: IP, f: string, keys: seq<IP>): (r: RelayState)
    ensures r.neighbors == s.neighbors && r.sessions == s.sessions
    ensures r.routing.keys == s.routing.keys && r.routing.m.Keys == s.routing.m.Keys
  {
    if keys == [] then s
    else DeactivateAt(cfg, DeactivateOver(cfg, s, dest, f, keys[..|keys| - 1]), dest, f, keys[|keys| - 1])
  }

  /** `deactivate_routes(dest, f)`: every route of `f` other than the one through `dest`
      stops carrying it. */
  function Deactivate(cfg: Config, s: RelayState, dest: IP, f: string): RelayState {
    DeactivateOver(cfg, s, dest, f, s.routing.keys)
  }

  /** The destinations, in `keys` order, whose route of `f` is carrying it and is not
      the route through `dest`. */
  function CarryingExcept(routing: Routing, dest: IP, f: string, keys: seq<IP>): seq<IP> {
    if keys == [] then []
    else
      CarryingExcept(routing, dest, f, keys[..|keys| - 1]) + HitAt(routing, dest, f, keys[|keys| - 1])
  }

  /** One DEACTIVATE_ROUTE for each destination of `ips`. */
  function DeactivateSends(cfg: Config, ips: seq<IP>, f: string): seq<Send> {
    if ips == [] then []
    else DeactivateSends(cfg, ips[..|ips| - 1], f) + [Send(ips[|ips| - 1], FloodingMsg(DeactivateMsg(cfg, f)))]
  }

  lemma {:induction false} DeactivateSendsAppend(cfg: Config, a: seq<IP>, b: seq<IP>, f: string)
    ensures DeactivateSends(cfg, a + b, f) == DeactivateSends(cfg, a, f) + DeactivateSends(cfg, b, f)
    decreases |b|
  {
    if b != [] {
      var front := b[..|b| - 1];
      assert (a + b)[..|a + b| - 1] == a + front;
      DeactivateSendsAppend(cfg, a, front, f);
    } else {
      assert a + b == a;
    }
  }

  /** The row of destination `d` after `deactivate_routes(dest, f)`. */
  function AfterDeactivate(routing: Routing, dest: IP, f: string, d: IP): Routes
    requires d in routing.m
  {
    if d != dest && Carrying(routing.m[d], f)
    then routing.m[d].Put(f, SwitchedOff(routing.m[d].m[f]))
    else routing.m[d]
  }

  /** One iteration changes at most the row of `ip`, as `AfterDeactivate` says. */
  lemma DeactivateAtEffect(cfg: Config, s: RelayState, dest: IP, f: string, ip: IP)
    ensures forall d | d in s.routing.m && d != ip :: DeactivateAt(cfg, s, dest, f, ip).routing.m[d] == s.routing.m[d]
    ensures ip in s.routing.m ==> DeactivateAt(cfg, s, dest, f, ip).routing.m[ip] == AfterDeactivate(s.routing, dest, f, ip)
  {
  }

  lemma DeactivateAtOutbox(cfg: Config, s: RelayState, dest: IP, f: string, ip: IP)
    ensures DeactivateAt(cfg, s, dest, f, ip).outbox
      == s.outbox + DeactivateSends(cfg, HitAt(s.routing, dest, f, ip), f)
  {
  }

  /** `[ip]` when the loop switches off the route through `ip`, else nothing. */
  function HitAt(routing: Routing, dest: IP, f: string, ip: IP): seq<IP> {
    if ip != dest && ip in routing.m && Carrying(routing.m[ip], f) then [ip] else []
  }

  /** The loop over distinct destinations touches each one once, judged on its row as it
      was before the loop. */
  lemma {:induction false} DeactivateOverRows(cfg: Config, s: RelayState, dest: IP, f: string, keys: seq<IP>)
    requires forall i, j | 0 <= i < j < |keys| :: keys[i] != keys[j]
    ensures forall d | d in s.routing.m && d in keys ::
      DeactivateOver(cfg, s, dest, f, keys).routing.m[d] == AfterDeactivate(s.routing, dest, f, d)
    ensures forall d | d in s.routing.m && d !in keys ::
      DeactivateOver(cfg, s, dest, f, keys).routing.m[d] == s.routing.m[d]
  {
    if keys != [] {
      var front := keys[..|keys| - 1];
      var ip := keys[|keys| - 1];
      DeactivateOverRows(cfg, s, dest, f, front);
      assert ip !in front;
      assert keys == front + [ip];
      DeactivateAtEffect(cfg, DeactivateOver(cfg, s, dest, f, front), dest, f, ip);
    }
  }

  /** A destination the loop has not reached yet keeps its rows. */
  lemma {:induction false} DeactivateOverUntouched(cfg: Config, s: RelayState, dest: IP, f: string, keys: seq<IP>, ip: IP)
    requires ip !in keys
    ensures ip in s.routing.m ==> DeactivateOver(cfg, s, dest, f, keys).routing.m[ip] == s.routing.m[ip]
  {
    if keys != [] {
      var front := keys[..|keys| - 1];
      assert keys == front + [keys[|keys| - 1]];
      DeactivateOverUntouched(cfg, s, dest, f, front, ip);
      DeactivateAtEffect(cfg, DeactivateOver(cfg, s, dest, f, front), dest, f, keys[|keys| - 1]);
    }
  }

  /** The loop sends one deactivation per route it switches off, in order. */
  lemma {:induction false} DeactivateOverSends(cfg: Config, s: RelayState, dest: IP, f: string, keys: seq<IP>)
    requires forall i, j | 0 <= i < j < |keys| :: keys[i] != keys[j]
    ensures DeactivateOver(cfg, s, dest, f, keys).outbox
      == s.outbox + DeactivateSends(cfg, CarryingExcept(s.routing, dest, f, keys), f)
  {
    if keys != [] {
      var front := keys[..|keys| - 1];
      var ip := keys[|keys| - 1];
      DistinctFront(keys, front);
      DeactivateOverSends(cfg, s, dest, f, front);
      DeactivateOverSendsStep(cfg, s, dest, f, keys);
      var ips := CarryingExcept(s.routing, dest, f, front);
      var hit := HitAt(s.routing, dest, f, ip);
      DeactivateSendsAppend(cfg, ips, hit, f);
      assert CarryingExcept(s.routing, dest, f, keys) == ips + hit;
      AppendTwice(s.outbox, DeactivateOver(cfg, s, dest, f, front).outbox,
                  DeactivateOver(cfg, s, dest, f, keys).outbox,
                  DeactivateSends(cfg, ips, f), DeactivateSends(cfg, hit, f));
    }
  }

  /** Appending `a` and then `b` is appending `a + b`. */
  lemma AppendTwice<T>(o0: seq<T>, o1: seq<T>, o2: seq<T>, a: seq<T>, b: seq<T>)
    requires o1 == o0 + a && o2 == o1 + b
    ensures o2 == o0 + (a + b)
  {
  }

  /** The last destination of the loop adds its own DEACTIVATE_ROUTE, judged on the row
      it had before the loop, when it was not visited earlier. */
  lemma DeactivateOverSendsStep(cfg: Config, s: RelayState, dest: IP, f: string, keys: seq<IP>)
    requires keys != [] && keys[|keys| - 1] !in keys[..|keys| - 1]
    ensures DeactivateOver(cfg, s, dest, f, keys).outbox
      == DeactivateOver(cfg, s, dest, f, keys[..|keys| - 1]).outbox
         + DeactivateSends(cfg, HitAt(s.routing, dest, f, keys[|keys| - 1]), f)
  {
    var front := keys[..|keys| - 1];
    var ip := keys[|keys| - 1];
    DeactivateOverUntouched(cfg, s, dest, f, front, ip);
    var mid := DeactivateOver(cfg, s, dest, f, front);
    assert HitAt(mid.routing, dest, f, ip) == HitAt(s.routing, dest, f, ip);
    DeactivateAtOutbox(cfg, mid, dest, f, ip);
  }

  /** Dropping the last of distinct keys leaves distinct keys, none of them the last. */
  lemma DistinctFront<K>(keys: seq<K>, front: seq<K>)
    requires |keys| > 0 && front == keys[..|keys| - 1]
    requires forall i, j | 0 <= i < j < |keys| :: keys[i] != keys[j]
    ensures forall i, j | 0 <= i < j < |front| :: front[i] != front[j]
    ensures keys[|keys| - 1] !in front
  {
    assert forall i | 0 <= i < |front| :: front[i] == keys[i];
  }

  /** `deactivate_routes(dest, f)` switches off exactly the carrying routes of `f` other
      than the one through `dest`, leaves every other row alone, and sends each switched
      off destination one DEACTIVATE_ROUTE, in table order. */
  lemma DeactivateEffect(cfg: Config, s: RelayState, dest: IP, f: string)
    requires s.routing.Valid()
    ensures Deactivate(cfg, s, dest, f).routing.keys == s.routing.keys
    ensures forall d | d in s.routing.m ::
      Deactivate(cfg, s, dest, f).routing.m[d] == AfterDeactivate(s.routing, dest, f, d)
    ensures Deactivate(cfg, s, dest, f).outbox
      == s.outbox + DeactivateSends(cfg, CarryingExcept(s.routing, dest, f, s.routing.keys), f)
    ensures forall d | d in s.routing.m && d != dest :: !Carrying(Deactivate(cfg, s, dest, f).routing.m[d], f)
  {
    DeactivateOverRows(cfg, s, dest, f, s.routing.keys);
    DeactivateOverSends(cfg, s, dest, f, s.routing.keys);
  }

  // ---------------------------------------------------------------------------------
  // activate_best_route

  /** The (destination, stream) pairs of one destination's rows that were requested, in
      request order. */
  function RowCandidates(d: IP, rows: Routes, ids: seq<string>): seq<(IP, string)> {
    if ids == [] then []
    else
      RowCandidates(d, rows, ids[..|ids| - 1])
      + (if ids[|ids| - 1] in rows.m then [(d, ids[|ids| - 1])] else [])
  }

  /** The pairs the search examines: destinations in table order, then requested streams. */
  function Candidates(routing: Routing, keys: seq<IP>, ids: seq<string>): seq<(IP, string)> {
    if keys == [] then []
    else
      var d := keys[|keys| - 1];
      Candidates(routing, keys[..|keys| - 1], ids)
      + (if d in routing.m then RowCandidates(d, routing.m[d], ids) else [])
  }

  /** A candidate whose destination has no neighbour entry (or no accumulated time): the
      lookup `self.neighbors[dest]["accumulated_time"]` raises `KeyError`. */
  predicate Unknown(nb: Table, d: IP) {
    d !in nb.m || nb.m[d].accTime.None?
  }

  /** The accumulated time the search compares for a destination. */
  function AccOf(nb: Table, d: IP): Cost {
    if d in nb.m && nb.m[d].accTime.Some? then nb.m[d].accTime.value else Inf
  }

  /** Where the search is: it has raised, or it holds the best pair so far and its time. */
  datatype Search = KeyMissing | Searching(best: Option<(IP, string)>, min: Cost)

  /** One comparison: a strictly smaller time replaces the best pair. */
  function Examine(nb: Table, st: Search, c: (IP, string)): Search {
    match st
    case KeyMissing => KeyMissing
    case Searching(_, min) =>
      if Unknown(nb, c.0) then KeyMissing
      else if AccOf(nb, c.0).Less(min) then Searching(Some(c), AccOf(nb, c.0))
      else st
  }

  /** The search over `cs`, from `st`. */
  function ScanFrom(nb: Table, st: Search, cs: seq<(IP, string)>): Search {
    if cs == [] then st else Examine(nb, ScanFrom(nb, st, cs[..|cs| - 1]), cs[|cs| - 1])
  }

  /** The search of `activate_best_route`, from "nothing found, time infinite". */
  function BestRoute(nb: Table, routing: Routing, ids: seq<string>): Search {
    ScanFrom(nb, Searching(None, Inf), Candidates(routing, routing.keys, ids))
  }

  /** Searching a concatenation is searching the second part from where the first left. */
  lemma {:induction false} ScanAppend(nb: Table, st: Search, a: seq<(IP, string)>, b: seq<(IP, string)>)
    ensures ScanFrom(nb, st, a + b) == ScanFrom(nb, ScanFrom(nb, st, a), b)
    decreases |b|
  {
    if b == [] {
      assert a + b == a;
    } else {
      assert (a + b)[..|a + b| - 1] == a + b[..|b| - 1];
      ScanAppend(nb, st, a, b[..|b| - 1]);
    }
  }

  /** The search raises exactly when some candidate's destination is not a neighbour. */
  lemma {:induction false} ScanRaises(nb: Table, cs: seq<(IP, string)>)
    ensures ScanFrom(nb, Searching(None, Inf), cs) == KeyMissing <==>
      exists j | 0 <= j < |cs| :: Unknown(nb, cs[j].0)
  {
    if cs != [] {
      var front := cs[..|cs| - 1];
      ScanRaises(nb, front);
      if exists j | 0 <= j < |front| :: Unknown(nb, front[j].0) {
        var j :| 0 <= j < |front| && Unknown(nb, front[j].0);
        assert cs[j] == front[j];
      }
    }
  }

  /** Without a raise, the search ends with the least time of all candidates, and with
      the first candidate that has it, unless every time is infinite; then it found
      nothing. */
  lemma {:induction false} ScanFindsFirstLeast(nb: Table, cs: seq<(IP, string)>)
    requires ScanFrom(nb, Searching(None, Inf), cs).Searching?
    ensures var r := ScanFrom(nb, Searching(None, Inf), cs);
      && (forall j | 0 <= j < |cs| :: !AccOf(nb, cs[j].0).Less(r.min))
      && (r.best.None? <==> forall j | 0 <= j < |cs| :: AccOf(nb, cs[j].0) == Inf)
      && (r.best.None? ==> r.min == Inf)
      && (r.best.Some? ==>
            exists k | 0 <= k < |cs| :: cs[k] == r.best.value && AccOf(nb, cs[k].0) == r.min
              && r.min != Inf && forall j | 0 <= j < k :: r.min.Less(AccOf(nb, cs[j].0)))
  {
    if cs != [] {
      var front := cs[..|cs| - 1];
      var c := cs[|cs| - 1];
      var prev := ScanFrom(nb, Searching(None, Inf), front);
      assert prev.Searching?;
      ScanFindsFirstLeast(nb, front);
      var r := ScanFrom(nb, Searching(None, Inf), cs);
      forall j | 0 <= j < |front| ensures cs[j] == front[j] { }
      if AccOf(nb, c.0).Less(prev.min) {
        assert r.best.value == c;
        forall j | 0 <= j < |cs| - 1 ensures r.min.Less(AccOf(nb, cs[j].0)) {
          assert !AccOf(nb, front[j].0).Less(prev.min);
          CostOrder(r.min, prev.min, AccOf(nb, front[j].0));
        }
      } else {
        CostOrder(AccOf(nb, c.0), prev.min, prev.min);
        if prev.best.Some? {
          var k :| 0 <= k < |front| && front[k] == prev.best.value && AccOf(nb, front[k].0) == prev.min
              && prev.min != Inf && forall j | 0 <= j < k :: prev.min.Less(AccOf(nb, front[j].0));
          assert cs[k] == front[k];
        }
      }
    }
  }

  /** A candidate pair names a row that exists. */
  lemma {:induction false} CandidatesExist(routing: Routing, keys: seq<IP>, ids: seq<string>, c: (IP, string))
    requires c in Candidates(routing, keys, ids)
    ensures c.0 in routing.m && c.1 in routing.m[c.0].m && c.1 in ids
  {
    var front := keys[..|keys| - 1];
    var d := keys[|keys| - 1];
    if c in Candidates(routing, front, ids) {
      CandidatesExist(routing, front, ids, c);
    } else {
      RowCandidatesExist(d, routing.m[d], ids, c);
    }
  }

  lemma {:induction false} RowCandidatesExist(d: IP, rows: Routes, ids: seq<string>, c: (IP, string))
    requires c in RowCandidates(d, rows, ids)
    ensures c.0 == d && c.1 in rows.m && c.1 in ids
  {
    var front := ids[..|ids| - 1];
    if c in RowCandidates(d, rows, front) {
      RowCandidatesExist(d, rows, front, c);
    }
  }

  /** The ACTIVATE_ROUTE this node sends upstream for stream `f`. */
  function ActivateMsg(cfg: Config, f: string): (m: FloodingMessage)
    ensures m.ftype == ActivateRoute && m.streamIds == [f] && m.sourceIp == cfg.nodeIp && m.rtpPort == cfg.rtpPort
  {
    Flooding(ActivateRoute).(streamIds := [f], sourceIp := cfg.nodeIp,
                             rtpPort := cfg.rtpPort, rtspPort := cfg.rtspPort)
  }

  /** The text request a node sends the server when its chosen route leads to it. */
  function ActiveRequest(f: string, ip: IP, rtpPort: int): string {
    "ACTIVE " + f + "\nIP " + ip + "\nRTP_PORT " + IntToString(rtpPort) + "\n"
  }

  /** `sessions.setdefault(f, {}).setdefault(src, {'rtp_port': ...})`, then the "deactive"
      flow for a client that has none, then the RTSP port when the message gives one. */
  function JoinSession(ss: Sessions, f: string, msg: FloodingMessage, fromClient: bool): (r: Sessions)
    ensures ss.Valid() ==> r.Valid()
    ensures SessionsValid(ss) ==> SessionsValid(r)
    ensures f in r.m && msg.sourceIp in r.m[f].m
    ensures r.m.Keys == ss.m.Keys + {f}
    ensures forall g | g in ss.m && g != f :: r.m[g] == ss.m[g]
  {
    var rs := if f in ss.m then ss.m[f] else Empty();
    var rec0 := if msg.sourceIp in rs.m then rs.m[msg.sourceIp] else Receiver(msg.rtpPort, None, None);
    var rec1 := if fromClient && rec0.flow.None? then rec0.(flow := Some(Off)) else rec0;
    var rec2 := if msg.rtspPort != 0 then rec1.(rtspPort := Some(msg.rtspPort)) else rec1;
    ss.Put(f, rs.Put(msg.sourceIp, rec2))
  }

  /** What `activate_best_route` does once it has chosen the row (`d`, `f`). */
  function Activated(cfg: Config, s: RelayState, msg: FloodingMessage, fromClient: bool, d: IP, f: string): RelayState
    requires d in s.routing.m && f in s.routing.m[d].m
  {
    var p := Deactivate(cfg, BeforePrune(s, msg, fromClient, d, f), d, f);
    p.(outbox := p.outbox + ActivationSends(cfg, s.routing.m[d].m[f], d, f))
  }

  /** `activate_best_route(msg, sender)`; `fromClient` is `sender == "client"`. A raised
      `KeyError` or finding no route leaves the state as it was. */
  function Activate(cfg: Config, s: RelayState, msg: FloodingMessage, fromClient: bool): RelayState {
    match BestRoute(s.neighbors, s.routing, msg.streamIds)
    case Searching(Some((d, f)), _) =>
      if d in s.routing.m && f in s.routing.m[d].m then Activated(cfg, s, msg, fromClient, d, f) else s
    case _ => s
  }

  /** Two routing tables that differ at most at `dest` agree on which routes other than
      the one through `dest` are carrying a stream. */
  lemma {:induction false} CarryingExceptIgnoresDest(r1: Routing, r2: Routing, dest: IP, f: string, keys: seq<IP>)
    requires r1.m.Keys == r2.m.Keys
    requires forall d | d in r1.m && d != dest :: r1.m[d] == r2.m[d]
    ensures CarryingExcept(r1, dest, f, keys) == CarryingExcept(r2, dest, f, keys)
  {
    if keys != [] {
      CarryingExceptIgnoresDest(r1, r2, dest, f, keys[..|keys| - 1]);
    }
  }

  /** The routing table after `deactivate_routes`, before it: the chosen row set to
      carry the stream unless it already did. */
  function Chosen(s: RelayState, d: IP, f: string): (r: Routing)
    requires d in s.routing.m && f in s.routing.m[d].m
    ensures RoutingValid(s.routing) ==> RoutingValid(r)
    ensures s.routing.Valid() ==> r.Valid()
    ensures r.keys == s.routing.keys && r.m.Keys == s.routing.m.Keys
    ensures forall e | e in s.routing.m && e != d :: r.m[e] == s.routing.m[e]
    ensures var row := s.routing.m[d].m[f];
      f in r.m[d].m && r.m[d].m[f] == if row.stream == On then row else row.(stream := On, flow := On)
  {
    var row := s.routing.m[d].m[f];
    if row.stream != On then s.routing.Put(d, s.routing.m[d].Put(f, row.(stream := On, flow := On)))
    else s.routing
  }

  /** The state between the choice and `deactivate_routes`. */
  function BeforePrune(s: RelayState, msg: FloodingMessage, fromClient: bool, d: IP, f: string): RelayState
    requires d in s.routing.m && f in s.routing.m[d].m
  {
    s.(routing := Chosen(s, d, f), sessions := JoinSession(s.sessions, f, msg, fromClient))
  }

  /** `deactivate_routes(dest, f)` keeps the rows through `dest` and leaves no other route
      of `f` carrying it. */
  lemma DeactivatePrunes(cfg: Config, s: RelayState, dest: IP, f: string)
    requires s.routing.Valid()
    ensures dest in s.routing.m ==> Deactivate(cfg, s, dest, f).routing.m[dest] == s.routing.m[dest]
    ensures forall e | e in s.routing.m && e != dest :: !Carrying(Deactivate(cfg, s, dest, f).routing.m[e], f)
  {
    DeactivateOverRows(cfg, s, dest, f, s.routing.keys);
  }

  /** The messages `activate_best_route` sends after pruning: the ACTIVATE_ROUTE to the
      chosen destination exactly when its row was not yet carrying the stream, then the
      `ACTIVE` request when the row leads to a server. */
  function ActivationSends(cfg: Config, row: Route, d: IP, f: string): (r: seq<Send>)
    ensures Send(d, FloodingMsg(ActivateMsg(cfg, f))) in r <==> row.stream != On
    ensures |r| == (if row.stream != On then 1 else 0) + (if StartsWith(row.sourceId, "server") then 1 else 0)
    ensures forall i | 0 <= i < |r| :: r[i].to == d
  {
    (if row.stream != On then [Send(d, FloodingMsg(ActivateMsg(cfg, f)))] else [])
    + (if StartsWith(row.sourceId, "server") then [Send(d, Text(ActiveRequest(f, cfg.nodeIp, cfg.rtpPort)))] else [])
  }

  /** Once the row (`d`, `f`) is chosen, it ends up carrying and receiving the stream (it
      is left as it was if it already carried it), every other route of `f` stops
      carrying it, and the neighbour table does not change. */
  lemma ActivatedRoutes(cfg: Config, s: RelayState, msg: FloodingMessage, fromClient: bool, d: IP, f: string)
    requires s.routing.Valid() && d in s.routing.m && f in s.routing.m[d].m
    ensures var row := s.routing.m[d].m[f];
            var r := Activated(cfg, s, msg, fromClient, d, f);
      && r.neighbors == s.neighbors
      && r.routing.keys == s.routing.keys
      && d in r.routing.m && f in r.routing.m[d].m
      && r.routing.m[d].m[f] == (if row.stream == On then row else row.(stream := On, flow := On))
      && (forall e | e in s.routing.m && e != d :: !Carrying(r.routing.m[e], f))
  {
    var mid := BeforePrune(s, msg, fromClient, d, f);
    var p := Deactivate(cfg, mid, d, f);
    assert Activated(cfg, s, msg, fromClient, d, f).routing == p.routing;
    var c := Chosen(s, d, f);
    assert mid.routing == c;
    DeactivatePrunes(cfg, mid, d, f);
    assert p.routing.m[d] == c.m[d];
  }

  /** The requester joins the stream's session without disturbing an entry it already
      had (its RTP port stays) or any other receiver. */
  lemma ActivatedSessions(cfg: Config, s: RelayState, msg: FloodingMessage, fromClient: bool, d: IP, f: string)
    requires d in s.routing.m && f in s.routing.m[d].m
    ensures var r := Activated(cfg, s, msg, fromClient, d, f);
      && f in r.sessions.m && msg.sourceIp in r.sessions.m[f].m
      && (f in s.sessions.m && msg.sourceIp in s.sessions.m[f].m ==>
            r.sessions.m[f].m[msg.sourceIp].rtpPort == s.sessions.m[f].m[msg.sourceIp].rtpPort)
      && (f !in s.sessions.m || msg.sourceIp !in s.sessions.m[f].m ==>
            r.sessions.m[f].m[msg.sourceIp].rtpPort == msg.rtpPort)
      && (forall x | f in s.sessions.m && x in s.sessions.m[f].m && x != msg.sourceIp ::
            x in r.sessions.m[f].m && r.sessions.m[f].m[x] == s.sessions.m[f].m[x])
      && (forall g | g in s.sessions.m && g != f :: r.sessions.m[g] == s.sessions.m[g])
  {
    assert Activated(cfg, s, msg, fromClient, d, f).sessions == JoinSession(s.sessions, f, msg, fromClient);
  }

  /** The messages sent: one DEACTIVATE_ROUTE per other carrying route of `f`, in table
      order, then the activation messages for the chosen row. */
  lemma ActivatedSends(cfg: Config, s: RelayState, msg: FloodingMessage, fromClient: bool, d: IP, f: string)
    requires s.routing.Valid() && d in s.routing.m && f in s.routing.m[d].m
    ensures Activated(cfg, s, msg, fromClient, d, f).outbox == s.outbox
        + DeactivateSends(cfg, CarryingExcept(s.routing, d, f, s.routing.keys), f)
        + ActivationSends(cfg, s.routing.m[d].m[f], d, f)
  {
    var mid := BeforePrune(s, msg, fromClient, d, f);
    var c := Chosen(s, d, f);
    assert mid.routing == c && mid.outbox == s.outbox;
    assert c.keys == s.routing.keys && c.Valid();
    var p := Deactivate(cfg, mid, d, f);
    DeactivateOverSends(cfg, mid, d, f, c.keys);
    CarryingExceptIgnoresDest(c, s.routing, d, f, s.routing.keys);
    var ds := DeactivateSends(cfg, CarryingExcept(s.routing, d, f, s.routing.keys), f);
    assert p.outbox == s.outbox + ds;
    assert Activated(cfg, s, msg, fromClient, d, f).outbox == p.outbox + ActivationSends(cfg, s.routing.m[d].m[f], d, f);
  }

  /** Which row `activate_best_route` acts on: none when a candidate's destination is not
      a neighbour or every candidate's time is infinite; otherwise the first requested row
      with the least accumulated time, which exists and holds a requested stream. */
  lemma ActivateChoice(cfg: Config, s: RelayState, msg: FloodingMessage, fromClient: bool)
    ensures var cs := Candidates(s.routing, s.routing.keys, msg.streamIds);
      (exists j | 0 <= j < |cs| :: Unknown(s.neighbors, cs[j].0)) ==> Activate(cfg, s, msg, fromClient) == s
    ensures var cs := Candidates(s.routing, s.routing.keys, msg.streamIds);
      (forall j | 0 <= j < |cs| :: AccOf(s.neighbors, cs[j].0) == Inf) ==> Activate(cfg, s, msg, fromClient) == s
    ensures var b := BestRoute(s.neighbors, s.routing, msg.streamIds);
      b.Searching? && b.best.Some? ==>
        var (d, f) := b.best.value;
        d in s.routing.m && f in s.routing.m[d].m && f in msg.streamIds
        && Activate(cfg, s, msg, fromClient) == Activated(cfg, s, msg, fromClient, d, f)
  {
    var cs := Candidates(s.routing, s.routing.keys, msg.streamIds);
    ScanRaises(s.neighbors, cs);
    var b := BestRoute(s.neighbors, s.routing, msg.streamIds);
    if b.Searching? {
      ScanFindsFirstLeast(s.neighbors, cs);
      if b.best.Some? {
        var k :| 0 <= k < |cs| && cs[k] == b.best.value;
        CandidatesExist(s.routing, s.routing.keys, msg.streamIds, cs[k]);
      }
    }
  }

  // ---------------------------------------------------------------------------------
  // A DEACTIVATE_ROUTE received

  /** The sender stops receiving the stream the message names; when no receiver is left,
      the node prunes its own routes of that stream. A message without a stream, a
      stream without sessions or a sender that is not a receiver raises, and the state
      stays as it was. */
  function DeactivateReceived(cfg: Config, s: RelayState, msg: FloodingMessage): RelayState {
    if |msg.streamIds| == 0 then s
    else
      var f := msg.streamIds[0];
      if f !in s.sessions.m || msg.sourceIp !in s.sessions.m[f].m then s
      else
        var rs := s.sessions.m[f].Remove(msg.sourceIp);
        var s1 := s.(sessions := s.sessions.Put(f, rs));
        if |rs.m| == 0 then Deactivate(cfg, s1, msg.sourceIp, f) else s1
  }

  lemma DeactivateReceivedEffect(cfg: Config, s: RelayState, msg: FloodingMessage)
    requires Valid(s)
    ensures |msg.streamIds| == 0 ==> DeactivateReceived(cfg, s, msg) == s
    ensures |msg.streamIds| > 0 ==>
      var f := msg.streamIds[0];
      var r := DeactivateReceived(cfg, s, msg);
      && (f !in s.sessions.m || msg.sourceIp !in s.sessions.m[f].m ==> r == s)
      && (f in s.sessions.m && msg.sourceIp in s.sessions.m[f].m ==>
            && r.neighbors == s.neighbors
            && r.sessions.m.Keys == s.sessions.m.Keys
            && r.sessions.m[f].m == s.sessions.m[f].m - {msg.sourceIp}
            && (forall g | g in s.sessions.m && g != f :: r.sessions.m[g] == s.sessions.m[g])
            && (s.sessions.m[f].m.Keys != {msg.sourceIp} ==> r.routing == s.routing && r.outbox == s.outbox)
            && (s.sessions.m[f].m.Keys == {msg.sourceIp} ==>
                  r == Deactivate(cfg, s.(sessions := s.sessions.Put(f, s.sessions.m[f].Remove(msg.sourceIp))), msg.sourceIp, f)))
  {
    if |msg.streamIds| > 0 {
      var f := msg.streamIds[0];
      if f in s.sessions.m && msg.sourceIp in s.sessions.m[f].m {
        var rs := s.sessions.m[f].Remove(msg.sourceIp);
        if s.sessions.m[f].m.Keys == {msg.sourceIp} {
          assert rs.m == map[];
        } else {
          var x :| x in s.sessions.m[f].m && x != msg.sourceIp;
          assert x in rs.m;
        }
      }
    }
  }

  // ---------------------------------------------------------------------------------
  // The liveness sweep of `send_ping_to_neighbors` and `manage_neighbor_communication`

  /** A live neighbour that is not a client and has failed fewer than two probes: the
      sweep probes it. */
  predicate ProbeDue(n: Neighbor) {
    !IsInactive(n) && !StartsWith(n.nodeId, "client") && Count(n, FailedAttempts) < 2
  }

  /** A live neighbour that is not a client and has failed two probes or more: the sweep
      expires it. */
  predicate ExpireDue(n: Neighbor) {
    !IsInactive(n) && !StartsWith(n.nodeId, "client") && Count(n, FailedAttempts) >= 2
  }

  /** The entry after a probe: a PONG records the round-trip time and revives the
      neighbour; a reply that is empty or not a PONG changes nothing; an exception adds
      one to the failures the entry had. */
  function AfterProbe(n: Neighbor, p: Probe): (r: Neighbor)
    ensures r.nodeId == n.nodeId && r.controlPort == n.controlPort && r.accTime == n.accTime
    ensures p.Pong? ==> r.bestTime == Some(Fin(p.rtt)) && Count(r, FailedAttempts) == 0 && r.status == Some(Active)
    ensures p == Lost ==> Count(r, FailedAttempts) == Count(n, FailedAttempts) + 1 && r.status == n.status
  {
    match p
    case Pong(rtt) => n.(bestTime := Some(Fin(rtt)), failed := Some(0), status := Some(Active))
    case Silent => n
    case Lost => n.(failed := Some(n.failed.GetOr(0) + 1))
  }

  /** The entry after one sweep: expired, probed, or (inactive or a client) untouched. */
  function AfterSweep(n: Neighbor, p: Probe): Neighbor {
    if ExpireDue(n) then n.(status := Some(Inactive), accTime := Some(Inf))
    else if ProbeDue(n) then AfterProbe(n, p)
    else n
  }

  /** A probe of neighbour `ip`: the PING goes out carrying this node's best cost to the
      server plus the neighbour's round-trip time, and the outcome updates the entry. */
  function ProbeNeighbor(cfg: Config, s: RelayState, ip: IP, p: Probe): (r: RelayState)
    requires ip in s.neighbors.m
    ensures r.routing == s.routing && r.sessions == s.sessions
    ensures r.neighbors.keys == s.neighbors.keys && r.neighbors.m.Keys == s.neighbors.m.Keys
    ensures s.neighbors.Valid() ==> r.neighbors.Valid()
    ensures r.outbox == s.outbox + [Send(ip, ControlMsg(PingFor(cfg, s.neighbors, s.neighbors.m[ip])))]
  {
    var n := s.neighbors.m[ip];
    s.(neighbors := s.neighbors.Put(ip, AfterProbe(n, p)),
       outbox := s.outbox + [Send(ip, ControlMsg(PingFor(cfg, s.neighbors, n)))])
  }

  /** The cascade for stream `f` when neighbour `ip` has expired: `ip` stops receiving
      `f`, and if nobody receives `f` any more the node prunes its routes of `f`. (The
      sweep only asks about streams that have a session, so the first branch is never
      taken.) */
  function LeaveStream(cfg: Config, s: RelayState, ip: IP, f: string): (r: RelayState)
    ensures r.neighbors == s.neighbors
    ensures r.routing.keys == s.routing.keys && r.routing.m.Keys == s.routing.m.Keys
    ensures r.sessions.keys == s.sessions.keys && r.sessions.m.Keys == s.sessions.m.Keys
    ensures s.routing.Valid() ==> r.routing.Valid()
  {
    if f !in s.sessions.m then s
    else
      var rs := s.sessions.m[f];
      var rs' := if ip in rs.m then rs.Remove(ip) else rs;
      var s1 := s.(sessions := s.sessions.Put(f, rs'));
      if |rs'.m| == 0 then Deactivate(cfg, s1, ip, f) else s1
  }

  /** The session loop of the cascade over the streams `fs`, in order. */
  function LeaveSessions(cfg: Config, s: RelayState, ip: IP, fs: seq<string>): (r: RelayState)
    ensures r.neighbors == s.neighbors
    ensures r.routing.keys == s.routing.keys && r.routing.m.Keys == s.routing.m.Keys
    ensures r.sessions.keys == s.sessions.keys && r.sessions.m.Keys == s.sessions.m.Keys
    ensures s.routing.Valid() ==> r.routing.Valid()
  {
    if fs == [] then s
    else LeaveStream(cfg, LeaveSessions(cfg, s, ip, fs[..|fs| - 1]), ip, fs[|fs| - 1])
  }

  /** A neighbour with two failed probes: it is marked inactive with an infinite cost,
      its routing rows are deleted, and it leaves every stream's session. */
  function Expire(cfg: Config, s: RelayState, ip: IP): (r: RelayState)
    requires ip in s.neighbors.m
    ensures r.neighbors.keys == s.neighbors.keys && r.neighbors.m.Keys == s.neighbors.m.Keys
    ensures s.neighbors.Valid() ==> r.neighbors.Valid()
  {
    var n := s.neighbors.m[ip];
    var s1 := s.(neighbors := s.neighbors.Put(ip, n.(status := Some(Inactive), accTime := Some(Inf))),
                 routing := s.routing.Remove(ip));
    LeaveSessions(cfg, s1, ip, s1.sessions.keys)
  }

  /** One iteration of the sweep at neighbour `ip`: inactive neighbours and clients are
      skipped, a neighbour with two or more failures expires without a probe, any other
      neighbour is probed. (The sweep never deletes a neighbour, so `ip` is always in
      the table.) */
  function SweepStep(cfg: Config, s: RelayState, probes: IP -> Probe, ip: IP): (r: RelayState)
    ensures r.neighbors.keys == s.neighbors.keys && r.neighbors.m.Keys == s.neighbors.m.Keys
    ensures s.neighbors.Valid() ==> r.neighbors.Valid()
  {
    if ip !in s.neighbors.m then s
    else
      var n := s.neighbors.m[ip];
      if ExpireDue(n) then Expire(cfg, s, ip)
      else if ProbeDue(n) then ProbeNeighbor(cfg, s, ip, probes(ip))
      else s
  }

  /** The sweep over the neighbours `keys`, in order. */
  function SweepOver(cfg: Config, s: RelayState, probes: IP -> Probe, keys: seq<IP>): (r: RelayState)
    ensures r.neighbors.keys == s.neighbors.keys && r.neighbors.m.Keys == s.neighbors.m.Keys
    ensures s.neighbors.Valid() ==> r.neighbors.Valid()
  {
    if keys == [] then s
    else SweepStep(cfg, SweepOver(cfg, s, probes, keys[..|keys| - 1]), probes, keys[|keys| - 1])
  }

  /** One round of `send_ping_to_neighbors`, over the neighbours the table lists when it
      starts. */
  function SweepRound(cfg: Config, s: RelayState, probes: IP -> Probe): RelayState {
    SweepOver(cfg, s, probes, s.neighbors.keys)
  }

  /** Outside clients, the relay's sweep moves the status and the failure counter exactly
      as the shared sweep rule does; a client is never touched. */
  lemma AfterSweepAgrees(n: Neighbor, p: Probe)
    ensures StartsWith(n.nodeId, "client") ==> AfterSweep(n, p) == n
    ensures !StartsWith(n.nodeId, "client") ==>
      && (IsInactive(AfterSweep(n, p)) <==> IsInactive(SweepEntry(n, p, FailedAttempts)))
      && Count(AfterSweep(n, p), FailedAttempts) == Count(SweepEntry(n, p, FailedAttempts), FailedAttempts)
  {
  }

  /** What the cascade leaves of neighbour `ip`: no routing rows, no session entry. */
  predicate Gone(s: RelayState, ip: IP) {
    ip !in s.routing.m && forall f | f in s.sessions.m :: ip !in s.sessions.m[f].m
  }

  /** No route carries a stream that nobody receives. */
  predicate Pruned(s: RelayState) {
    forall f, d | f in s.sessions.m && s.sessions.m[f].m == map[] && d in s.routing.m ::
      !Carrying(s.routing.m[d], f)
  }

  /** No route that did not carry a stream in `a` carries it in `b`. */
  ghost predicate NoneSwitchedOn(a: Routing, b: Routing) {
    forall d, g | d in a.m && d in b.m && !Carrying(a.m[d], g) :: !Carrying(b.m[d], g)
  }

  /** `b` is `a` followed by DEACTIVATE_ROUTE messages only. */
  predicate OnlyDeactivations(a: seq<Send>, b: seq<Send>) {
    |a| <= |b| && b[..|a|] == a &&
    forall i | |a| <= i < |b| :: b[i].payload.FloodingMsg? && b[i].payload.f.ftype == DeactivateRoute
  }

  /** The sends of `DeactivateSends` are DEACTIVATE_ROUTE messages to the given
      destinations, one each, in order. */
  lemma {:induction false} DeactivateSendsContents(cfg: Config, ips: seq<IP>, f: string)
    ensures |DeactivateSends(cfg, ips, f)| == |ips|
    ensures forall i | 0 <= i < |ips| ::
      DeactivateSends(cfg, ips, f)[i] == Send(ips[i], FloodingMsg(DeactivateMsg(cfg, f)))
  {
    if ips != [] {
      DeactivateSendsContents(cfg, ips[..|ips| - 1], f);
    }
  }

  /** `deactivate_routes` only switches routes off and only sends deactivations. */
  lemma DeactivateSwitchesOff(cfg: Config, s: RelayState, dest: IP, f: string)
    requires s.routing.Valid()
    ensures NoneSwitchedOn(s.routing, Deactivate(cfg, s, dest, f).routing)
    ensures OnlyDeactivations(s.outbox, Deactivate(cfg, s, dest, f).outbox)
  {
    DeactivateEffect(cfg, s, dest, f);
    AfterDeactivateOff(s.routing, dest, f);
    var ips := CarryingExcept(s.routing, dest, f, s.routing.keys);
    DeactivateSendsContents(cfg, ips, f);
    DeactivationsAppended(s.outbox, DeactivateSends(cfg, ips, f));
  }

  /** A row that did not carry a stream does not carry it after `deactivate_routes`. */
  lemma AfterDeactivateOff(routing: Routing, dest: IP, f: string)
    ensures forall d, g | d in routing.m && !Carrying(routing.m[d], g) ::
      !Carrying(AfterDeactivate(routing, dest, f, d), g)
  {
  }

  /** Appending DEACTIVATE_ROUTE messages only. */
  lemma DeactivationsAppended(a: seq<Send>, x: seq<Send>)
    requires forall i | 0 <= i < |x| :: x[i].payload.FloodingMsg? && x[i].payload.f.ftype == DeactivateRoute
    ensures OnlyDeactivations(a, a + x)
  {
    assert (a + x)[..|a|] == a;
  }

  /** `ip` is no receiver of the streams `fs` in `b`, whose sessions are otherwise those
      of `a`. */
  predicate SessionsLeft(a: Sessions, b: Sessions, ip: IP, fs: seq<string>) {
    && a.m.Keys == b.m.Keys
    && forall g | g in a.m :: b.m[g].m == if g in fs then a.m[g].m - {ip} else a.m[g].m
  }

  /** One stream of the cascade: `ip` leaves the session of `f`, and only that one. */
  lemma LeaveStreamSessions(cfg: Config, s: RelayState, ip: IP, f: string)
    ensures SessionsLeft(s.sessions, LeaveStream(cfg, s, ip, f).sessions, ip, [f])
  {
    if f in s.sessions.m {
      var rs := s.sessions.m[f];
      var rs' := if ip in rs.m then rs.Remove(ip) else rs;
      var s1 := s.(sessions := s.sessions.Put(f, rs'));
      assert LeaveStream(cfg, s, ip, f).sessions == s1.sessions;
      assert s1.sessions.m == s.sessions.m[f := rs'] && rs'.m == rs.m - {ip};
    }
  }

  /** One stream of the cascade: if `ip` leaving its session empties it, no route of the
      stream carries it any more. */
  lemma LeaveStreamEffect(cfg: Config, s: RelayState, ip: IP, f: string)
    requires s.routing.Valid() && ip !in s.routing.m
    ensures var r := LeaveStream(cfg, s, ip, f);
      && NoneSwitchedOn(s.routing, r.routing)
      && (f in s.sessions.m && r.sessions.m[f].m == map[] ==>
            forall d | d in r.routing.m :: !Carrying(r.routing.m[d], f))
      && OnlyDeactivations(s.outbox, r.outbox)
  {
    if f in s.sessions.m {
      var rs := s.sessions.m[f];
      var rs' := if ip in rs.m then rs.Remove(ip) else rs;
      assert rs'.m == rs.m - {ip};
      var s1 := s.(sessions := s.sessions.Put(f, rs'));
      if |rs'.m| == 0 {
        DeactivateSwitchesOff(cfg, s1, ip, f);
        DeactivatePrunes(cfg, s1, ip, f);
      } else {
        assert rs'.m != map[];
      }
    }
  }

  /** Switching routes off twice is switching them off. */
  lemma NoneSwitchedOnTrans(a: Routing, b: Routing, c: Routing)
    requires a.m.Keys == b.m.Keys
    requires NoneSwitchedOn(a, b) && NoneSwitchedOn(b, c)
    ensures NoneSwitchedOn(a, c)
  {
  }

  /** Deactivations followed by deactivations. */
  lemma OnlyDeactivationsTrans(a: seq<Send>, b: seq<Send>, c: seq<Send>)
    requires OnlyDeactivations(a, b) && OnlyDeactivations(b, c)
    ensures OnlyDeactivations(a, c)
  {
    assert c[..|a|] == c[..|b|][..|a|];
  }

  /** The session loop of the cascade over `fs`: `ip` leaves the sessions of `fs` and of
      no other stream. */
  lemma {:induction false} LeaveSessionsSessions(cfg: Config, s: RelayState, ip: IP, fs: seq<string>)
    ensures SessionsLeft(s.sessions, LeaveSessions(cfg, s, ip, fs).sessions, ip, fs)
  {
    if fs != [] {
      var front := fs[..|fs| - 1];
      var f := fs[|fs| - 1];
      assert fs == front + [f];
      LeaveSessionsSessions(cfg, s, ip, front);
      var mid := LeaveSessions(cfg, s, ip, front);
      LeaveStreamSessions(cfg, mid, ip, f);
      SessionsLeftStep(s.sessions, mid.sessions, LeaveSessions(cfg, s, ip, fs).sessions, ip, front, f);
    }
  }

  /** Leaving the sessions of `front` and then that of `f` is leaving those of
      `front + [f]`. */
  lemma SessionsLeftStep(a: Sessions, b: Sessions, c: Sessions, ip: IP, front: seq<string>, f: string)
    requires SessionsLeft(a, b, ip, front) && SessionsLeft(b, c, ip, [f])
    ensures SessionsLeft(a, c, ip, front + [f])
  {
    forall g | g in a.m
      ensures c.m[g].m == if g in front + [f] then a.m[g].m - {ip} else a.m[g].m
    {
      assert g in front + [f] <==> g in front || g == f;
    }
  }

  /** The session loop of the cascade over `fs`: routes are only switched off, and only
      deactivations are sent. */
  lemma {:induction false} LeaveSessionsEffect(cfg: Config, s: RelayState, ip: IP, fs: seq<string>)
    requires s.routing.Valid() && ip !in s.routing.m
    ensures var r := LeaveSessions(cfg, s, ip, fs);
      NoneSwitchedOn(s.routing, r.routing) && OnlyDeactivations(s.outbox, r.outbox)
  {
    if fs != [] {
      var front := fs[..|fs| - 1];
      var f := fs[|fs| - 1];
      LeaveSessionsEffect(cfg, s, ip, front);
      var mid := LeaveSessions(cfg, s, ip, front);
      LeaveStreamEffect(cfg, mid, ip, f);
      var r := LeaveStream(cfg, mid, ip, f);
      assert r == LeaveSessions(cfg, s, ip, fs);
      NoneSwitchedOnTrans(s.routing, mid.routing, r.routing);
      OnlyDeactivationsTrans(s.outbox, mid.outbox, r.outbox);
    }
  }

  /** A stream `g` of `fs` that the session loop leaves without receivers is carried by
      no route. */
  lemma {:induction false} LeaveSessionsPrunes(cfg: Config, s: RelayState, ip: IP, fs: seq<string>, g: string)
    requires s.routing.Valid() && ip !in s.routing.m && g in fs && g in s.sessions.m
    ensures var r := LeaveSessions(cfg, s, ip, fs);
      r.sessions.m[g].m == map[] ==> forall d | d in r.routing.m :: !Carrying(r.routing.m[d], g)
  {
    var front := fs[..|fs| - 1];
    var f := fs[|fs| - 1];
    var mid := LeaveSessions(cfg, s, ip, front);
    if g != f {
      assert g in front by { assert fs == front + [f]; }
      LeaveSessionsPrunes(cfg, s, ip, front, g);
    }
    PruneStep(cfg, mid, ip, f, g);
  }

  /** One stream of the cascade keeps an earlier stream pruned and prunes its own. */
  lemma PruneStep(cfg: Config, s: RelayState, ip: IP, f: string, g: string)
    requires s.routing.Valid() && ip !in s.routing.m && g in s.sessions.m
    requires g != f && s.sessions.m[g].m == map[] ==> forall d | d in s.routing.m :: !Carrying(s.routing.m[d], g)
    ensures var r := LeaveStream(cfg, s, ip, f);
      r.sessions.m[g].m == map[] ==> forall d | d in r.routing.m :: !Carrying(r.routing.m[d], g)
  {
    LeaveStreamEffect(cfg, s, ip, f);
    LeaveStreamSessions(cfg, s, ip, f);
    var r := LeaveStream(cfg, s, ip, f);
    if g != f && r.sessions.m[g].m == map[] {
      StillPruned(s, r, g);
    }
  }

  /** A stream whose receivers did not change and that no route carried still has no
      carrying route after routes were only switched off. */
  lemma StillPruned(a: RelayState, b: RelayState, g: string)
    requires a.routing.m.Keys == b.routing.m.Keys && NoneSwitchedOn(a.routing, b.routing)
    requires forall d | d in a.routing.m :: !Carrying(a.routing.m[d], g)
    ensures forall d | d in b.routing.m :: !Carrying(b.routing.m[d], g)
  {
  }

  /** An expired neighbour: its entry is inactive with an infinite cost and nothing else
      in the table changes; its routing rows are gone and it is nobody's receiver any
      more; routes are only switched off, and every stream left without receivers is
      carried by no route. */
  lemma ExpireEffect(cfg: Config, s: RelayState, ip: IP)
    requires s.routing.Valid() && s.sessions.Valid() && ip in s.neighbors.m
    ensures var r := Expire(cfg, s, ip);
      && r.neighbors.m == s.neighbors.m[ip := s.neighbors.m[ip].(status := Some(Inactive), accTime := Some(Inf))]
      && r.routing.m.Keys == s.routing.m.Keys - {ip}
      && r.routing.Valid() && r.sessions.Valid()
      && r.sessions.m.Keys == s.sessions.m.Keys
      && (forall f | f in s.sessions.m :: r.sessions.m[f].m == s.sessions.m[f].m - {ip})
      && Gone(r, ip) && Pruned(r)
      && NoneSwitchedOn(s.routing, r.routing)
      && OnlyDeactivations(s.outbox, r.outbox)
  {
    var n := s.neighbors.m[ip];
    var s1 := s.(neighbors := s.neighbors.Put(ip, n.(status := Some(Inactive), accTime := Some(Inf))),
                 routing := s.routing.Remove(ip));
    LeaveSessionsEffect(cfg, s1, ip, s1.sessions.keys);
    LeaveSessionsSessions(cfg, s1, ip, s1.sessions.keys);
    forall g | g in s1.sessions.m {
      LeaveSessionsPrunes(cfg, s1, ip, s1.sessions.keys, g);
    }
    var r := Expire(cfg, s, ip);
    assert r == LeaveSessions(cfg, s1, ip, s1.sessions.keys);
    assert NoneSwitchedOn(s.routing, s1.routing);
  }

  /** One iteration of the sweep changes at most the entry of `ip`, as `AfterSweep` says. */
  lemma SweepStepEntries(cfg: Config, s: RelayState, probes: IP -> Probe, ip: IP)
    ensures var r := SweepStep(cfg, s, probes, ip);
      && (forall k | k in s.neighbors.m && k != ip :: r.neighbors.m[k] == s.neighbors.m[k])
      && (ip in s.neighbors.m ==> r.neighbors.m[ip] == AfterSweep(s.neighbors.m[ip], probes(ip)))
  {
  }

  /** One iteration of the sweep keeps the tables well formed, keeps what earlier
      cascades removed removed and what they pruned pruned, and if it expires `ip`, runs
      the cascade for it. */
  lemma SweepStepCascade(cfg: Config, s: RelayState, probes: IP -> Probe, ip: IP)
    requires s.routing.Valid() && s.sessions.Valid()
    ensures var r := SweepStep(cfg, s, probes, ip);
      && r.routing.Valid() && r.sessions.Valid()
      && (forall k | Gone(s, k) :: Gone(r, k))
      && (Pruned(s) ==> Pruned(r))
      && (ip in s.neighbors.m && ExpireDue(s.neighbors.m[ip]) ==> Gone(r, ip) && Pruned(r))
  {
    if ip in s.neighbors.m && ExpireDue(s.neighbors.m[ip]) {
      ExpireEffect(cfg, s, ip);
    }
  }

  /** One iteration of the sweep only appends to the outbox, and the only control
      message it appends is the PING of a probe that is due. */
  lemma SweepStepSends(cfg: Config, s: RelayState, probes: IP -> Probe, ip: IP)
    requires s.routing.Valid() && s.sessions.Valid()
    ensures var r := SweepStep(cfg, s, probes, ip);
      && |s.outbox| <= |r.outbox| && r.outbox[..|s.outbox|] == s.outbox
      && (forall i | |s.outbox| <= i < |r.outbox| && r.outbox[i].payload.ControlMsg? ::
            r.outbox[i].to == ip && ip in s.neighbors.m && ProbeDue(s.neighbors.m[ip]))
      && (ip in s.neighbors.m && ProbeDue(s.neighbors.m[ip]) ==>
            r.outbox == s.outbox + [Send(ip, ControlMsg(PingFor(cfg, s.neighbors, s.neighbors.m[ip])))])
  {
    if ip in s.neighbors.m && ExpireDue(s.neighbors.m[ip]) {
      ExpireEffect(cfg, s, ip);
    }
  }

  /** The sweep over distinct neighbours `keys` turns each entry it reaches into
      `AfterSweep` of the entry as it was before the sweep; the others stay. */
  lemma {:induction false} SweepOverEntries(cfg: Config, s: RelayState, probes: IP -> Probe, keys: seq<IP>)
    requires forall i, j | 0 <= i < j < |keys| :: keys[i] != keys[j]
    ensures var r := SweepOver(cfg, s, probes, keys);
      forall k | k in s.neighbors.m ::
        r.neighbors.m[k] == if k in keys then AfterSweep(s.neighbors.m[k], probes(k)) else s.neighbors.m[k]
  {
    if keys != [] {
      var front := keys[..|keys| - 1];
      var ip := keys[|keys| - 1];
      assert keys == front + [ip];
      SweepOverEntries(cfg, s, probes, front);
      SweepStepEntries(cfg, SweepOver(cfg, s, probes, front), probes, ip);
    }
  }

  /** The sweep over distinct neighbours `keys`: every neighbour it expires ends with no
      routing row and no session entry, and once a neighbour has expired (or if the
      tables were already so) no route carries a stream that nobody receives. */
  lemma {:induction false} SweepOverCascade(cfg: Config, s: RelayState, probes: IP -> Probe, keys: seq<IP>)
    requires s.routing.Valid() && s.sessions.Valid()
    requires forall i, j | 0 <= i < j < |keys| :: keys[i] != keys[j]
    ensures var r := SweepOver(cfg, s, probes, keys);
      && (forall k | Gone(s, k) :: Gone(r, k))
      && (forall k | k in keys && k in s.neighbors.m && ExpireDue(s.neighbors.m[k]) :: Gone(r, k))
      && (Pruned(s) || (exists k | k in keys && k in s.neighbors.m :: ExpireDue(s.neighbors.m[k])) ==> Pruned(r))
  {
    if keys != [] {
      var front := keys[..|keys| - 1];
      var ip := keys[|keys| - 1];
      assert keys == front + [ip];
      DistinctFront(keys, front);
      var mid := SweepOver(cfg, s, probes, front);
      SweepOverCascade(cfg, s, probes, front);
      SweepOverValid(cfg, s, probes, front);
      SweepOverEntries(cfg, s, probes, front);
      SweepStepCascade(cfg, mid, probes, ip);
      CascadeStep(s, mid, SweepOver(cfg, s, probes, keys), front, ip, s.neighbors.m, mid.neighbors.m);
    }
  }

  /** A step that expires at most `ip`, whose entry is still the one the sweep started
      from, extends the cascade of the sweep over `front` to `front + [ip]`. */
  lemma CascadeStep(s: RelayState, mid: RelayState, r: RelayState, front: seq<IP>, ip: IP,
                    nb: map<IP, Neighbor>, nbMid: map<IP, Neighbor>)
    requires forall k | Gone(s, k) :: Gone(mid, k)
    requires forall k | k in front && k in nb && ExpireDue(nb[k]) :: Gone(mid, k)
    requires Pruned(s) || (exists k | k in front && k in nb :: ExpireDue(nb[k])) ==> Pruned(mid)
    requires forall k | Gone(mid, k) :: Gone(r, k)
    requires Pruned(mid) ==> Pruned(r)
    requires ip in nbMid && ExpireDue(nbMid[ip]) ==> Gone(r, ip) && Pruned(r)
    requires nbMid.Keys == nb.Keys && (ip in nb ==> nbMid[ip] == nb[ip])
    ensures forall k | Gone(s, k) :: Gone(r, k)
    ensures forall k | k in front + [ip] && k in nb && ExpireDue(nb[k]) :: Gone(r, k)
    ensures Pruned(s) || (exists k | k in front + [ip] && k in nb :: ExpireDue(nb[k])) ==> Pruned(r)
  {
  }

  /** `out` extends `out0`, and every control message it adds goes to a neighbour of
      `keys` that `nb` lists with its probe due. */
  predicate SweepSends(out0: seq<Send>, out: seq<Send>, keys: seq<IP>, nb: map<IP, Neighbor>) {
    && |out0| <= |out| && out[..|out0|] == out0
    && (forall i | |out0| <= i < |out| && out[i].payload.ControlMsg? ::
          out[i].to in keys && out[i].to in nb && ProbeDue(nb[out[i].to]))
  }

  /** The sweep over distinct neighbours `keys` only appends to the outbox, and the
      control messages it appends go to neighbours of `keys` whose probe was due. */
  lemma {:induction false} SweepOverSends(cfg: Config, s: RelayState, probes: IP -> Probe, keys: seq<IP>)
    requires s.routing.Valid() && s.sessions.Valid()
    requires forall i, j | 0 <= i < j < |keys| :: keys[i] != keys[j]
    ensures SweepSends(s.outbox, SweepOver(cfg, s, probes, keys).outbox, keys, s.neighbors.m)
  {
    if keys != [] {
      var front := keys[..|keys| - 1];
      var ip := keys[|keys| - 1];
      assert keys == front + [ip];
      DistinctFront(keys, front);
      var mid := SweepOver(cfg, s, probes, front);
      SweepOverSends(cfg, s, probes, front);
      SweepOverValid(cfg, s, probes, front);
      SweepOverEntries(cfg, s, probes, front);
      SweepStepSends(cfg, mid, probes, ip);
      SweepSendsStep(s.outbox, mid.outbox, SweepOver(cfg, s, probes, keys).outbox, front, ip,
                     s.neighbors.m, mid.neighbors.m);
    }
  }

  /** A step that adds control messages only for `ip`, whose entry is still the one the
      sweep started from, extends the sends of the sweep over `front` to `front + [ip]`. */
  lemma SweepSendsStep(out0: seq<Send>, out1: seq<Send>, out2: seq<Send>, front: seq<IP>, ip: IP,
                       nb: map<IP, Neighbor>, nbMid: map<IP, Neighbor>)
    requires SweepSends(out0, out1, front, nb)
    requires |out1| <= |out2| && out2[..|out1|] == out1
    requires forall i | |out1| <= i < |out2| && out2[i].payload.ControlMsg? ::
               out2[i].to == ip && ip in nbMid && ProbeDue(nbMid[ip])
    requires nbMid.Keys == nb.Keys && (ip in nb ==> nbMid[ip] == nb[ip])
    ensures SweepSends(out0, out2, front + [ip], nb)
  {
    SendsExtend(out0, out1, out2);
  }

  /** Two extensions of an outbox make one. */
  lemma SendsExtend(a: seq<Send>, b: seq<Send>, c: seq<Send>)
    requires |a| <= |b| <= |c| && b[..|a|] == a && c[..|b|] == b
    ensures c[..|a|] == a
    ensures forall i | |a| <= i < |b| :: c[i] == b[i]
  {
    assert c[..|a|] == c[..|b|][..|a|];
    forall i | |a| <= i < |b| ensures c[i] == b[i] {
      assert c[..|b|][i] == c[i];
    }
  }

  /** Some send of `out` from position `from` on is a PING to `k`. */
  predicate Pinged(out: seq<Send>, from: nat, k: IP) {
    exists i | from <= i < |out| :: out[i].to == k && out[i].payload.ControlMsg? && out[i].payload.c.ctype == Ping
  }

  /** A PING stays in an outbox that is only appended to. */
  lemma PingedKept(a: seq<Send>, b: seq<Send>, from: nat, k: IP)
    requires Pinged(a, from, k) && |a| <= |b| && b[..|a|] == a
    ensures Pinged(b, from, k)
  {
    var i :| from <= i < |a| && a[i].to == k && a[i].payload.ControlMsg? && a[i].payload.c.ctype == Ping;
    assert b[..|a|][i] == b[i];
  }

  /** Every neighbour of `keys` whose probe was due gets a PING from the sweep. */
  lemma {:induction false} SweepOverPingsDue(cfg: Config, s: RelayState, probes: IP -> Probe, keys: seq<IP>, k: IP)
    requires s.routing.Valid() && s.sessions.Valid()
    requires forall i, j | 0 <= i < j < |keys| :: keys[i] != keys[j]
    requires k in keys && k in s.neighbors.m && ProbeDue(s.neighbors.m[k])
    ensures Pinged(SweepOver(cfg, s, probes, keys).outbox, |s.outbox|, k)
  {
    var front := keys[..|keys| - 1];
    var ip := keys[|keys| - 1];
    assert keys == front + [ip];
    DistinctFront(keys, front);
    SweepOverValid(cfg, s, probes, front);
    SweepOverSends(cfg, s, probes, front);
    var mid := SweepOver(cfg, s, probes, front);
    SweepStepSends(cfg, mid, probes, ip);
    if k == ip {
      SweepOverEntries(cfg, s, probes, front);
      PingedAppended(s.outbox, mid.outbox, SweepOver(cfg, s, probes, keys).outbox, ip,
                     PingFor(cfg, mid.neighbors, mid.neighbors.m[ip]));
    } else {
      SweepOverPingsDue(cfg, s, probes, front, k);
      PingedKept(mid.outbox, SweepOver(cfg, s, probes, keys).outbox, |s.outbox|, k);
    }
  }

  /** A PING appended after position `|o0|` is a PING sent from there on. */
  lemma PingedAppended(o0: seq<Send>, o1: seq<Send>, o2: seq<Send>, k: IP, c: ControlMessage)
    requires |o0| <= |o1| && o2 == o1 + [Send(k, ControlMsg(c))] && c.ctype == Ping
    ensures Pinged(o2, |o0|, k)
  {
    assert o2[|o1|] == Send(k, ControlMsg(c));
  }


  /** The sweep keeps the routing table and the sessions well formed. */
  lemma {:induction false} SweepOverValid(cfg: Config, s: RelayState, probes: IP -> Probe, keys: seq<IP>)
    requires s.routing.Valid() && s.sessions.Valid()
    ensures SweepOver(cfg, s, probes, keys).routing.Valid() && SweepOver(cfg, s, probes, keys).sessions.Valid()
  {
    if keys != [] {
      SweepOverValid(cfg, s, probes, keys[..|keys| - 1]);
      SweepStepCascade(cfg, SweepOver(cfg, s, probes, keys[..|keys| - 1]), probes, keys[|keys| - 1]);
    }
  }

  /** A round of the sweep, whole: every neighbour is swept once as `AfterSweep` says;
      an expired neighbour is left with no routing row and no session entry, and after
      an expiry no route carries a stream that nobody receives; the only control
      messages sent are PINGs, one to each neighbour whose probe was due and to no other
      (never to an inactive neighbour or a client). */
  lemma SweepRoundEffect(cfg: Config, s: RelayState, probes: IP -> Probe)
    requires s.neighbors.Valid() && s.routing.Valid() && s.sessions.Valid()
    ensures var r := SweepRound(cfg, s, probes);
      && r.neighbors.keys == s.neighbors.keys
      && (forall k | k in s.neighbors.m :: r.neighbors.m[k] == AfterSweep(s.neighbors.m[k], probes(k)))
      && (forall k | k in s.neighbors.m && ExpireDue(s.neighbors.m[k]) :: Gone(r, k))
      && ((exists k | k in s.neighbors.m :: ExpireDue(s.neighbors.m[k])) ==> Pruned(r))
      && |s.outbox| <= |r.outbox| && r.outbox[..|s.outbox|] == s.outbox
      && (forall i | |s.outbox| <= i < |r.outbox| && r.outbox[i].payload.ControlMsg? ::
            r.outbox[i].to in s.neighbors.m && ProbeDue(s.neighbors.m[r.outbox[i].to]))
      && (forall k | k in s.neighbors.m && ProbeDue(s.neighbors.m[k]) :: Pinged(r.outbox, |s.outbox|, k))
  {
    var keys := s.neighbors.keys;
    SweepOverEntries(cfg, s, probes, keys);
    SweepOverCascade(cfg, s, probes, keys);
    SweepOverValid(cfg, s, probes, keys);
    SweepOverSends(cfg, s, probes, keys);
    forall k | k in s.neighbors.m && ProbeDue(s.neighbors.m[k])
      ensures Pinged(SweepRound(cfg, s, probes).outbox, |s.outbox|, k)
    {
      SweepOverPingsDue(cfg, s, probes, keys, k);
    }
  }

  // ---------------------------------------------------------------------------------
  // The two servers that receive messages

  /** The ACK that answers a client's ACK probe on the data port: this node's best
      accumulated time. The minimum of an empty table raises, and nothing is sent. */
  function AckReply(cfg: Config, t: Table, msg: ControlMessage): (r: seq<Send>)
    ensures t.m == map[] ==> r == []
    ensures t.m != map[] ==> |r| == 1 && r[0].to == msg.nodeIp && r[0].payload.ControlMsg?
    ensures t.m != map[] ==> r[0].payload.c.ctype == Ack && r[0].payload.c.accumulatedTime == MinAcc(t.keys, t.m)
  {
    if t.m == map[] then []
    else [Send(msg.nodeIp, ControlMsg(Control(Ack).(nodeIp := cfg.nodeIp, nodeId := cfg.nodeId,
                                                    accumulatedTime := MinAcc(t.keys, t.m))))]
  }

  /** `handle_control_connection`: a message on the TCP control port. A PING is answered
      on the same connection (here: a PONG to the sender); other control types raise and
      are ignored; an activation here comes from a node. `reachable` says which
      neighbours accept a re-sent flood. */
  function ControlServer(cfg: Config, s: RelayState, p: Payload, reachable: IP -> bool): RelayState
    requires s.neighbors.Valid()
  {
    match p
    case ControlMsg(c) =>
      if c.ctype == UpdateNeighbors then s.(neighbors := Announce(s.neighbors, c.nodeIp, Newcomer(c)))
      else if c.ctype == Ping then
        s.(neighbors := PingReceived(s.neighbors, c), outbox := s.outbox + [Send(c.nodeIp, ControlMsg(PongFor(cfg)))])
      else s
    case FloodingMsg(f) =>
      if f.ftype == FloodingUpdate then Flood(cfg, s, f, reachable)
      else if f.ftype == ActivateRoute then Activate(cfg, s, f, false)
      else DeactivateReceived(cfg, s, f)
    case Text(_) => s
  }

  /** `handle_data_message`: a datagram on the UDP data port. Clients talk to the node
      here: an activation here comes from a client, and an ACK is answered. */
  function DataServer(cfg: Config, s: RelayState, p: Payload, reachable: IP -> bool): RelayState
    requires s.neighbors.Valid()
  {
    match p
    case ControlMsg(c) =>
      if c.ctype == UpdateNeighbors then s.(neighbors := Announce(s.neighbors, c.nodeIp, Newcomer(c)))
      else if c.ctype == Ack then s.(outbox := s.outbox + AckReply(cfg, s.neighbors, c))
      else s
    case FloodingMsg(f) =>
      if f.ftype == FloodingUpdate then Flood(cfg, s, f, reachable)
      else if f.ftype == ActivateRoute then Activate(cfg, s, f, true)
      else DeactivateReceived(cfg, s, f)
    case Text(_) => s
  }

  /** Every PING on the control port is answered with one PONG carrying this node's id;
      the sender's accumulated time is stored exactly when it is a neighbour, and
      nothing else changes. */
  lemma PingAnswered(cfg: Config, s: RelayState, c: ControlMessage, reachable: IP -> bool)
    requires s.neighbors.Valid() && c.ctype == Ping
    ensures var r := ControlServer(cfg, s, ControlMsg(c), reachable);
      && r.outbox == s.outbox + [Send(c.nodeIp, ControlMsg(PongFor(cfg)))]
      && r.routing == s.routing && r.sessions == s.sessions
      && r.neighbors.keys == s.neighbors.keys
      && (c.nodeIp in s.neighbors.m ==> r.neighbors.m[c.nodeIp] == s.neighbors.m[c.nodeIp].(accTime := Some(c.accumulatedTime)))
      && (forall k | k in s.neighbors.m && k != c.nodeIp :: r.neighbors.m[k] == s.neighbors.m[k])
      && (c.nodeIp !in s.neighbors.m ==> r.neighbors == s.neighbors)
  {
  }

  /** Each handler keeps every table listing its keys once. */
  lemma HandlersKeepValid(cfg: Config, s: RelayState, p: Payload, reachable: IP -> bool)
    requires Valid(s)
    ensures Valid(ControlServer(cfg, s, p, reachable)) && Valid(DataServer(cfg, s, p, reachable))
  {
    match p
    case ControlMsg(c) =>
      ControlKeepsValid(cfg, s, c, reachable);
    case FloodingMsg(f) =>
      FloodingKeepsValid(cfg, s, f, reachable);
    case Text(_) =>
  }

  lemma ControlKeepsValid(cfg: Config, s: RelayState, c: ControlMessage, reachable: IP -> bool)
    requires Valid(s)
    ensures Valid(ControlServer(cfg, s, ControlMsg(c), reachable)) && Valid(DataServer(cfg, s, ControlMsg(c), reachable))
  {
  }

  lemma FloodingKeepsValid(cfg: Config, s: RelayState, f: FloodingMessage, reachable: IP -> bool)
    requires Valid(s)
    ensures Valid(ControlServer(cfg, s, FloodingMsg(f), reachable)) && Valid(DataServer(cfg, s, FloodingMsg(f), reachable))
  {
    if f.ftype == FloodingUpdate {
      FloodKeepsValid(cfg, s, f, reachable);
    } else if f.ftype == ActivateRoute {
      ActivateKeepsValid(cfg, s, f, false);
      ActivateKeepsValid(cfg, s, f, true);
    } else {
      DeactivateReceivedKeepsValid(cfg, s, f);
    }
  }

  lemma FloodKeepsValid(cfg: Config, s: RelayState, msg: FloodingMessage, reachable: IP -> bool)
    requires Valid(s)
    ensures Valid(Flood(cfg, s, msg, reachable))
  {
    AddRoutesValid(s.routing, msg, msg.streamIds);
  }

  lemma ActivateKeepsValid(cfg: Config, s: RelayState, msg: FloodingMessage, fromClient: bool)
    requires Valid(s)
    ensures Valid(Activate(cfg, s, msg, fromClient))
  {
  }

  lemma DeactivateReceivedKeepsValid(cfg: Config, s: RelayState, msg: FloodingMessage)
    requires Valid(s)
    ensures Valid(DeactivateReceived(cfg, s, msg))
  {
  }

  /** A sweep keeps every table listing its keys once. */
  lemma SweepKeepsValid(cfg: Config, s: RelayState, probes: IP -> Probe)
    requires Valid(s)
    ensures Valid(SweepRound(cfg, s, probes))
  {
    SweepOverValid(cfg, s, probes, s.neighbors.keys);
  }
}
