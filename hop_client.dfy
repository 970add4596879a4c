/** The client of `etapa3/Client.py`: its neighbour table and liveness sweep, the
    hop-count routing table it learns from floods, and the activation of the route to
    the film it wants, retried until one succeeds. Messages the client sends are
    appended to `outbox`. */
module HopClient {
  import opened Common
  import opened OrdMap
  import opened Messages
  import opened Liveness
  import opened HopRouting

  /** The ports every client of this variant uses. */
  const CONTROL_PORT := 5001
  const DATA_PORT := 5002

  /** The client's id, IP, RTP port and the film it asks for. */
  datatype ClientConfig = ClientConfig(clientId: string, clientIp: IP, rtpPort: int, filename: string)

  /** Everything the handlers change. */
  datatype ClientState = ClientState(neighbors: Table, routing: HopTable, outbox: seq<Send>)

  // ---------------------------------------------------------------------------------
  // Messages the client builds

  /** The REGISTER and UPDATE_NEIGHBORS the client sends about itself, as a node of type
      "client". */
  function SelfMessage(cfg: ClientConfig, t: ControlType): (c: ControlMessage)
    ensures c.ctype == t && c.nodeId == cfg.clientId && c.nodeIp == cfg.clientIp && c.nodeType == "client"
    ensures c.controlPort == CONTROL_PORT && c.dataPort == DATA_PORT
  {
    Control(t).(nodeId := cfg.clientId, nodeIp := cfg.clientIp, controlPort := CONTROL_PORT,
                dataPort := DATA_PORT, nodeType := "client")
  }

  /** The PING of a sweep: the client's IP and id. */
  function PingMessage(cfg: ClientConfig): (c: ControlMessage)
    ensures c.ctype == Ping && c.nodeIp == cfg.clientIp && c.nodeId == cfg.clientId
  {
    Control(Ping).(nodeIp := cfg.clientIp, nodeId := cfg.clientId)
  }

  /** The answer to a PING: a PONG that names the client. */
  function PongMessage(cfg: ClientConfig): (c: ControlMessage)
    ensures c.ctype == ControlType.Pong && c.nodeId == cfg.clientId && c.nodeIp == ""
  {
    Control(ControlType.Pong).(nodeId := cfg.clientId)
  }

  /** The ACTIVATE_ROUTE for the film: the client's IP and RTP port; no RTSP port. */
  function ActivateMessage(cfg: ClientConfig): (r: FloodingMessage)
    ensures r.ftype == ActivateRoute && r.streamIds == [cfg.filename] && r.sourceIp == cfg.clientIp
    ensures r.rtpPort == cfg.rtpPort && r.rtspPort == 0
  {
    Flooding(ActivateRoute).(streamIds := [cfg.filename], sourceIp := cfg.clientIp, rtpPort := cfg.rtpPort)
  }

  // ---------------------------------------------------------------------------------
  // The neighbour table

  /** The bootstrapper's reply to the REGISTER: a REGISTER_RESPONSE replaces the table
      and the client announces itself to each neighbour; anything else changes nothing. */
  function RegisterReply(cfg: ClientConfig, s: ClientState, reply: ControlMessage): ClientState {
    if reply.ctype == RegisterResponse then
      var t := Rebuild(reply.neighbors, ListedActive);
      s.(neighbors := t, outbox := s.outbox + Broadcast(SelfMessage(cfg, UpdateNeighbors), t.keys))
    else s
  }

  /** After a REGISTER_RESPONSE the table holds exactly the listed IPs, each active with
      no failed attempts, and each is sent one announcement; the routes stay. */
  lemma RegisterReplyEffect(cfg: ClientConfig, s: ClientState, reply: ControlMessage)
    requires reply.ctype == RegisterResponse
    ensures var r := RegisterReply(cfg, s, reply);
      && (forall ip :: ip in r.neighbors.m <==> exists i | 0 <= i < |reply.neighbors| :: reply.neighbors[i].nodeIp == ip)
      && (forall ip | ip in r.neighbors.m :: r.neighbors.m[ip].status == Some(Active) && r.neighbors.m[ip].failed == Some(0))
      && r.routing == s.routing
      && r.outbox == s.outbox + Broadcast(SelfMessage(cfg, UpdateNeighbors), r.neighbors.keys)
  {
    RebuildKeys(reply.neighbors, ListedActive);
    RebuildEntries(reply.neighbors, ListedActive);
  }

  /** An UPDATE_NEIGHBORS from a known IP only makes it active; an unknown IP is added
      with a "tentativas" counter, which the sweep never reads, so its failures are
      counted from 0 under "failed-attempts". */
  lemma NewcomerCountsFromZero(t: Table, c: ControlMessage, p: Probe)
    requires t.Valid() && c.nodeIp !in t.m
    ensures Announce(t, c.nodeIp, AnnouncedTentativas(c)).m[c.nodeIp].tentativas == Some(0)
    ensures Count(Announce(t, c.nodeIp, AnnouncedTentativas(c)).m[c.nodeIp], FailedAttempts) == 0
    ensures p == Lost ==> SweepEntry(AnnouncedTentativas(c), p, FailedAttempts).failed == Some(1)
  {
    AnnounceEffect(t, c.nodeIp, AnnouncedTentativas(c));
  }

  /** One sweep of `send_ping_to_neighbors`: the table swept with the "failed-attempts"
      counter, and a PING to every neighbour probed. */
  function SweepRound(cfg: ClientConfig, s: ClientState, probes: IP -> Probe): ClientState
    requires s.neighbors.Valid()
  {
    s.(neighbors := SweepTable(s.neighbors, probes, FailedAttempts),
       outbox := s.outbox + Pings(PingMessage(cfg), Events(s.neighbors.keys, s.neighbors.m, FailedAttempts)))
  }

  /** A sweep keeps the neighbours, sweeps each one by the shared rule, and pings exactly
      the neighbours that are neither inactive nor at two failures. */
  lemma SweepRoundEffect(cfg: ClientConfig, s: ClientState, probes: IP -> Probe, ip: IP)
    requires s.neighbors.Valid()
    ensures var r := SweepRound(cfg, s, probes);
      && r.neighbors.keys == s.neighbors.keys
      && (ip in s.neighbors.m ==> r.neighbors.m[ip] == SweepEntry(s.neighbors.m[ip], probes(ip), FailedAttempts))
      && (Send(ip, ControlMsg(PingMessage(cfg))) in r.outbox[|s.outbox|..] <==>
            ip in s.neighbors.m && !IsInactive(s.neighbors.m[ip]) && Count(s.neighbors.m[ip], FailedAttempts) < 2)
      && r.routing == s.routing
  {
    var r := SweepRound(cfg, s, probes);
    var events := Events(s.neighbors.keys, s.neighbors.m, FailedAttempts);
    assert r.outbox[|s.outbox|..] == Pings(PingMessage(cfg), events);
    PingsContents(PingMessage(cfg), events, ip);
    EventsContents(s.neighbors.keys, s.neighbors.m, FailedAttempts, ip);
  }

  // ---------------------------------------------------------------------------------
  // Route activation

  /** The rows `activate_best_route` compares as written: at every destination whose
      rows hold `filename`, all of that destination's rows, in table order. */
  function AllCands(rt: HopTable, keys: seq<IP>, filename: string): (r: seq<HopCand>)
    ensures forall j | 0 <= j < |r| :: RowAt(rt, r[j].dest, filename).Some?
  {
    if keys == [] then []
    else
      var d := keys[|keys| - 1];
      var front := AllCands(rt, keys[..|keys| - 1], filename);
      if d in rt.m && filename in rt.m[d].m then
        RowCandsAt(d, rt.m[d], rt.m[d].keys);
        front + RowCands(d, rt.m[d], rt.m[d].keys)
      else front
  }

  /** Every row of destination `d` leads to `d`. */
  lemma {:induction false} RowCandsAt(d: IP, rows: HopRows, ids: seq<string>)
    ensures forall j | 0 <= j < |RowCands(d, rows, ids)| :: RowCands(d, rows, ids)[j].dest == d
  {
    forall j | 0 <= j < |RowCands(d, rows, ids)| ensures RowCands(d, rows, ids)[j].dest == d {
      RowCandsExist(d, rows, ids, j);
    }
  }

  /** The rows compared: as written, every row of each destination that has the film;
      corrected, only the film's own row at each destination. */
  function ClientCands(rt: HopTable, filename: string, asWritten: bool): (r: seq<HopCand>)
    ensures forall j | 0 <= j < |r| :: RowAt(rt, r[j].dest, filename).Some?
  {
    if asWritten then AllCands(rt, rt.keys, filename)
    else
      var cs := Cands(rt, rt.keys, [filename]);
      forall j | 0 <= j < |cs| ensures RowAt(rt, cs[j].dest, filename).Some? {
        CandsExist(rt, rt.keys, [filename], j);
      }
      cs
  }

  /** `activate_best_route(filename)`, as written when `asWritten` holds, corrected
      otherwise. The destination of the first row with the fewest hops is chosen, its row
      for the film becomes "active" and an ACTIVATE_ROUTE goes to it; the result is that
      row when the message is `delivered`, and `None` when it is not or when no
      destination has the film. As written (lines 350-354) the hop counts compared are
      those of every stream at a destination that has the film, where the film's own
      row is meant. */
  function ActivateAs(cfg: ClientConfig, s: ClientState, delivered: bool, asWritten: bool): (r: (ClientState, Option<HopRoute>))
  {
    var cs := ClientCands(s.routing, cfg.filename, asWritten);
    if cs == [] then (s, None)
    else
      var d := Least(cs).value.dest;
      LeastIsFirstLeast(cs);
      var rt := WithStatus(s.routing, d, cfg.filename, "active");
      (s.(routing := rt, outbox := s.outbox + [Send(d, FloodingMsg(ActivateMessage(cfg)))]),
       if delivered then RowAt(rt, d, cfg.filename) else None)
  }

  /** `activate_best_route` with the comparison corrected; the client uses this one. */
  function Activate(cfg: ClientConfig, s: ClientState, delivered: bool): (ClientState, Option<HopRoute>) {
    ActivateAs(cfg, s, delivered, false)
  }

  /** The corrected activation in terms of the first row with the fewest hops among
      the film's rows. */
  lemma ActivateByLeast(cfg: ClientConfig, s: ClientState, delivered: bool)
    ensures var b := Least(Cands(s.routing, s.routing.keys, [cfg.filename]));
      && (b.None? ==> Activate(cfg, s, delivered) == (s, None))
      && (b.Some? ==> RowAt(s.routing, b.value.dest, cfg.filename).Some?)
      && (b.Some? ==>
            var rt := WithStatus(s.routing, b.value.dest, cfg.filename, "active");
            Activate(cfg, s, delivered) ==
              (s.(routing := rt, outbox := s.outbox + [Send(b.value.dest, FloodingMsg(ActivateMessage(cfg)))]),
               if delivered then RowAt(rt, b.value.dest, cfg.filename) else None))
  {
    var cs := ClientCands(s.routing, cfg.filename, false);
    assert cs == Cands(s.routing, s.routing.keys, [cfg.filename]);
    if cs != [] {
      LeastIsFirstLeast(cs);
    }
  }

  /** `activate_best_route` exactly as written. */
  function ActivateAsWritten(cfg: ClientConfig, s: ClientState, delivered: bool): (ClientState, Option<HopRoute>) {
    ActivateAs(cfg, s, delivered, true)
  }

  /** When some destination has the film, the first destination whose film row has the
      fewest hops is chosen: that row, and no other, becomes "active", one ACTIVATE_ROUTE
      goes to the destination, and the result is the activated row exactly when the
      message is delivered. With no destination, nothing changes and the result is
      `None`. */
  lemma ActivateEffect(cfg: ClientConfig, s: ClientState, delivered: bool)
    ensures var cs := Cands(s.routing, s.routing.keys, [cfg.filename]);
      var r := Activate(cfg, s, delivered);
      && (cs == [] ==> r == (s, None))
      && (cs != [] ==> exists k | 0 <= k < |cs| :: (
            && cs[k].sid == cfg.filename
            && (forall j | 0 <= j < |cs| :: cs[k].hops <= cs[j].hops)
            && (forall j | 0 <= j < k :: cs[k].hops < cs[j].hops)
            && RowAt(s.routing, cs[k].dest, cfg.filename).Some?
            && r.0.routing == WithStatus(s.routing, cs[k].dest, cfg.filename, "active")
            && r.0.outbox == s.outbox + [Send(cs[k].dest, FloodingMsg(ActivateMessage(cfg)))]
            && r.0.neighbors == s.neighbors
            && r.1 == (if delivered then Some(RowAt(s.routing, cs[k].dest, cfg.filename).value.(status := "active")) else None)))
  {
    var cs := Cands(s.routing, s.routing.keys, [cfg.filename]);
    if cs != [] {
      LeastIsFirstLeast(cs);
      var k :| 0 <= k < |cs| && cs[k] == Least(cs).value
        && (forall j | 0 <= j < |cs| :: cs[k].hops <= cs[j].hops)
        && (forall j | 0 <= j < k :: cs[k].hops < cs[j].hops);
      CandsExist(s.routing, s.routing.keys, [cfg.filename], k);
    }
  }

  /** A two-destination table: "a" has the film "f" at 5 hops and another stream "g" at
      1 hop; "b" has "f" at 2 hops. */
  function TwoRoutes(): HopTable {
    OMap(["a", "b"], map[
      "a" := OMap(["f", "g"], map["f" := HopRoute("a", "A", 5, "inactive", 0, 0, "inactive"),
                                  "g" := HopRoute("a", "A", 1, "inactive", 0, 0, "inactive")]),
      "b" := OMap(["f"], map["f" := HopRoute("b", "B", 2, "inactive", 0, 0, "inactive")])])
  }

  /** The rows compared for "f" in `TwoRoutes()`, as written: both rows of "a", then "b"'s. */
  lemma TwoRoutesAll()
    ensures AllCands(TwoRoutes(), ["a", "b"], "f") ==
      [HopCand("a", "f", 5, false), HopCand("a", "g", 1, false), HopCand("b", "f", 2, false)]
  {
    var rt := TwoRoutes();
    assert ["f", "g"][..1] == ["f"] && ["f"][..0] == [];
    assert RowCands("a", rt.m["a"], ["f", "g"]) == [HopCand("a", "f", 5, false), HopCand("a", "g", 1, false)];
    assert RowCands("b", rt.m["b"], ["f"]) == [HopCand("b", "f", 2, false)];
    assert ["a", "b"][..1] == ["a"] && ["a"][..0] == [];
  }

  /** The rows compared for "f" in `TwoRoutes()`, corrected: "a"'s film row, then "b"'s. */
  lemma TwoRoutesFilm()
    ensures Cands(TwoRoutes(), ["a", "b"], ["f"]) == [HopCand("a", "f", 5, false), HopCand("b", "f", 2, false)]
  {
    var rt := TwoRoutes();
    assert ["f"][..0] == [];
    assert RowCands("a", rt.m["a"], ["f"]) == [HopCand("a", "f", 5, false)];
    assert RowCands("b", rt.m["b"], ["f"]) == [HopCand("b", "f", 2, false)];
    assert ["a", "b"][..1] == ["a"] && ["a"][..0] == [];
  }

  /** Lines 350-354: asking for "f" in `TwoRoutes()` activates "f" at "a", 5 hops away,
      because "a" also carries a 1-hop stream; the corrected comparison picks "b", 2 hops
      away. */
  lemma FarthestFilmChosen(cfg: ClientConfig, t: Table)
    requires cfg.filename == "f"
    ensures var s := ClientState(t, TwoRoutes(), []);
      && ActivateAsWritten(cfg, s, true).0.outbox == [Send("a", FloodingMsg(ActivateMessage(cfg)))]
      && Activate(cfg, s, true).0.outbox == [Send("b", FloodingMsg(ActivateMessage(cfg)))]
  {
    TwoRoutesAll();
    TwoRoutesFilm();
    var all := [HopCand("a", "f", 5, false), HopCand("a", "g", 1, false), HopCand("b", "f", 2, false)];
    assert Least(all) == Some(HopCand("a", "g", 1, false)) by {
      assert all[..2] == [HopCand("a", "f", 5, false), HopCand("a", "g", 1, false)];
      assert all[..2][..1] == [HopCand("a", "f", 5, false)];
      assert all[..2][..1][..0] == [];
    }
    var film := [HopCand("a", "f", 5, false), HopCand("b", "f", 2, false)];
    assert Least(film) == Some(HopCand("b", "f", 2, false)) by {
      assert film[..1] == [HopCand("a", "f", 5, false)];
      assert film[..1][..0] == [];
    }
  }

  // ---------------------------------------------------------------------------------
  // start_new_session

  /** The retry loop of `start_new_session` over the delivery outcomes of successive
      attempts: it stops at the first attempt that returns a route. The result is the
      state, the route, and the number of attempts made. */
  function Retry(cfg: ClientConfig, s: ClientState, outcomes: seq<bool>): (r: (ClientState, Option<HopRoute>, nat))
    ensures r.2 <= |outcomes|
    decreases |outcomes|
  {
    if outcomes == [] then (s, None, 0)
    else
      var step := Activate(cfg, s, outcomes[0]);
      if step.1.Some? then (step.0, step.1, 1)
      else
        var rest := Retry(cfg, step.0, outcomes[1..]);
        (rest.0, rest.1, rest.2 + 1)
  }

  /** A retry result with `n` earlier attempts added to its count. */
  function Shifted(r: (ClientState, Option<HopRoute>, nat), n: nat): (ClientState, Option<HopRoute>, nat) {
    (r.0, r.1, r.2 + n)
  }

  /** Retrying from the `i`-th outcome makes that attempt first: the retry that started
      `i` attempts earlier either ends with it or goes on from the state it leaves. */
  lemma RetryStep(cfg: ClientConfig, s: ClientState, outcomes: seq<bool>, i: nat, total: (ClientState, Option<HopRoute>, nat))
    requires i < |outcomes| && total == Shifted(Retry(cfg, s, outcomes[i..]), i)
    ensures var step := Activate(cfg, s, outcomes[i]);
      total == if step.1.Some? then (step.0, step.1, i + 1) else Shifted(Retry(cfg, step.0, outcomes[i + 1..]), i + 1)
  {
    assert outcomes[i..][1..] == outcomes[i + 1..];
  }

  /** Whether some destination has a row for the film. */
  predicate HasFilm(rt: HopTable, keys: seq<IP>, filename: string) {
    exists i | 0 <= i < |keys| :: RowAt(rt, keys[i], filename).Some?
  }

  /** A destination's rows for one stream: its row, if it has one. */
  lemma RowCandsOne(d: IP, rows: HopRows, g: string)
    ensures RowCands(d, rows, [g]) == if g in rows.m then [CandOf(d, g, rows.m[g])] else []
  {
    assert [g][..0] == [];
  }

  /** One step of the search: the next destination's film row replaces the best so far
      only with strictly fewer hops. */
  lemma FilmStep(rt: HopTable, keys: seq<IP>, f: string, i: nat)
    requires i < |keys|
    ensures var best := Least(Cands(rt, keys[..i], [f])); var d := keys[i];
      Least(Cands(rt, keys[..i + 1], [f])) ==
        if d in rt.m && f in rt.m[d].m && (best.None? || rt.m[d].m[f].hops < best.value.hops)
        then Some(CandOf(d, f, rt.m[d].m[f])) else best
  {
    var d := keys[i];
    var found := if d in rt.m then RowCands(d, rt.m[d], [f]) else [];
    if d in rt.m {
      RowCandsOne(d, rt.m[d], f);
    }
    var prefix := Cands(rt, keys[..i], [f]);
    assert Cands(rt, keys[..i + 1], [f]) == prefix + found by {
      assert keys[..i + 1][..i] == keys[..i];
    }
    if found != [] {
      assert (prefix + found)[..|prefix + found| - 1] == prefix;
    } else {
      assert prefix + found == prefix;
    }
  }

  /** The film's rows exist exactly when some destination has the film. */
  lemma {:induction false} CandsNonEmpty(rt: HopTable, keys: seq<IP>, filename: string)
    ensures Cands(rt, keys, [filename]) != [] <==> HasFilm(rt, keys, filename)
  {
    if keys != [] {
      var front := keys[..|keys| - 1];
      var d := keys[|keys| - 1];
      CandsNonEmpty(rt, front, filename);
      if d in rt.m {
        RowCandsOne(d, rt.m[d], filename);
      }
      if HasFilm(rt, front, filename) {
        var i :| 0 <= i < |front| && RowAt(rt, front[i], filename).Some?;
        assert keys[i] == front[i];
      }
      if HasFilm(rt, keys, filename) && !HasFilm(rt, front, filename) {
        var i :| 0 <= i < |keys| && RowAt(rt, keys[i], filename).Some?;
        assert i == |keys| - 1;
      }
      if RowAt(rt, d, filename).Some? {
        assert RowAt(rt, keys[|keys| - 1], filename).Some?;
      }
    }
  }

  /** An attempt changes only statuses, so whether the film has a route does not change. */
  lemma ActivateKeepsFilm(cfg: ClientConfig, s: ClientState, delivered: bool)
    ensures var r := Activate(cfg, s, delivered).0;
      r.routing.keys == s.routing.keys &&
      (HasFilm(r.routing, r.routing.keys, cfg.filename) <==> HasFilm(s.routing, s.routing.keys, cfg.filename))
  {
    var r := Activate(cfg, s, delivered).0;
    var cs := Cands(s.routing, s.routing.keys, [cfg.filename]);
    if cs != [] {
      var d := Least(ClientCands(s.routing, cfg.filename, false)).value.dest;
      LeastIsFirstLeast(cs);
      assert forall i | 0 <= i < |r.routing.keys| :: RowAt(r.routing, r.routing.keys[i], cfg.filename).Some? <==> RowAt(s.routing, s.routing.keys[i], cfg.filename).Some?;
    }
  }

  /** One attempt returns a route exactly when the film has a route and the attempt is
      delivered, and leaves the film's routes in place for the next attempt. */
  lemma AttemptOutcome(cfg: ClientConfig, s: ClientState, delivered: bool)
    ensures var step := Activate(cfg, s, delivered);
      && (step.1.Some? <==> HasFilm(s.routing, s.routing.keys, cfg.filename) && delivered)
      && (HasFilm(step.0.routing, step.0.routing.keys, cfg.filename) <==> HasFilm(s.routing, s.routing.keys, cfg.filename))
  {
    ActivateEffect(cfg, s, delivered);
    CandsNonEmpty(s.routing, s.routing.keys, cfg.filename);
    ActivateKeepsFilm(cfg, s, delivered);
  }

  /** `start_new_session` gets a route exactly when some destination has the film and
      some attempt is delivered; it then stops after the first delivered attempt, having
      made one attempt per earlier outcome. */
  lemma {:induction false} RetryStops(cfg: ClientConfig, s: ClientState, outcomes: seq<bool>)
    ensures var r := Retry(cfg, s, outcomes);
      && (r.1.Some? <==> HasFilm(s.routing, s.routing.keys, cfg.filename) && true in outcomes)
      && (r.1.Some? ==> 0 < r.2 && outcomes[r.2 - 1] && forall j | 0 <= j < r.2 - 1 :: !outcomes[j])
    decreases |outcomes|
  {
    if outcomes != [] {
      var step := Activate(cfg, s, outcomes[0]);
      AttemptOutcome(cfg, s, outcomes[0]);
      RetryStops(cfg, step.0, outcomes[1..]);
      FirstTrue(outcomes);
      var rest := Retry(cfg, step.0, outcomes[1..]);
      if step.1.None? && rest.1.Some? {
        forall j | 0 <= j < rest.2 + 1 - 1 ensures !outcomes[j] {
          if j > 0 {
            assert outcomes[j] == outcomes[1..][j - 1];
          }
        }
      }
    }
  }

  /** `true` occurs in a non-empty sequence exactly when it heads it or occurs in the rest. */
  lemma FirstTrue(outcomes: seq<bool>)
    requires outcomes != []
    ensures true in outcomes <==> outcomes[0] || true in outcomes[1..]
  {
    assert outcomes == [outcomes[0]] + outcomes[1..];
  }

  // ---------------------------------------------------------------------------------
  // The control port

  /** `handle_control_connection`, for one message: UPDATE_NEIGHBORS and PING as control
      messages; a FLOODING_UPDATE updates the routing table, after which the call to
      the missing `connectToNeighbor` raises and is caught; anything else is ignored. */
  function ControlServer(cfg: ClientConfig, s: ClientState, p: Payload): ClientState
    requires s.neighbors.Valid()
  {
    match p
    case ControlMsg(c) =>
      if c.ctype == UpdateNeighbors then s.(neighbors := Announce(s.neighbors, c.nodeIp, AnnouncedTentativas(c)))
      else if c.ctype == Ping then
        s.(neighbors := PingedBy(s.neighbors, c.nodeIp, FailedAttempts),
           outbox := s.outbox + [Send(c.nodeIp, ControlMsg(PongMessage(cfg)))])
      else s
    case FloodingMsg(f) =>
      if f.ftype == FloodingUpdate then s.(routing := AddHops(s.routing, f, f.streamIds)) else s
    case Text(_) => s
  }

  /** A FLOODING_UPDATE only updates the routing table, by the hop rule; nothing is sent. */
  lemma FloodEffect(cfg: ClientConfig, s: ClientState, f: FloodingMessage, d: IP, g: string)
    requires s.neighbors.Valid() && f.ftype == FloodingUpdate
    ensures var r := ControlServer(cfg, s, FloodingMsg(f));
      && r.neighbors == s.neighbors && r.outbox == s.outbox
      && (d == f.sourceIp && g in f.streamIds ==> RowAt(r.routing, d, g) == Some(Kept(RowAt(s.routing, d, g), f)))
      && (d != f.sourceIp || g !in f.streamIds ==> RowAt(r.routing, d, g) == RowAt(s.routing, d, g))
  {
    AddHopsRow(s.routing, f, f.streamIds, d, g);
  }

  // ---------------------------------------------------------------------------------
  // The client

  class Client {
    /** The id, IP, RTP port and film the client was started with. */
    const config: ClientConfig
    /** `self.neighbors` */
    var neighbors: Table
    /** `self.routing_table` */
    var routing: HopTable
    /** Every message the client has sent, in order. */
    var outbox: seq<Send>

    function State(): ClientState
      reads this
    {
      ClientState(neighbors, routing, outbox)
    }

    /** Both tables list each key once. */
    predicate Valid()
      reads this
    {
      neighbors.Valid() && TableValid(routing)
    }

    /** `Client.__init__`, before `background` starts: no neighbours and no routes. */
    constructor (cfg: ClientConfig)
      ensures config == cfg && Valid()
      ensures State() == ClientState(Empty(), Empty(), [])
    {
      config := cfg;
      neighbors := Empty();
      routing := Empty();
      outbox := [];
    }

    /** `register_with_bootstrapper`: `request` is the REGISTER the client sends and
        `reply` the bootstrapper's answer. */
    method RegisterWithBootstrapper(reply: ControlMessage) returns (request: ControlMessage)
      requires Valid()
      modifies this
      ensures request == SelfMessage(config, Register)
      ensures State() == RegisterReply(config, old(State()), reply)
      ensures Valid()
    {
      request := SelfMessage(config, Register);
      if reply.ctype == RegisterResponse {
        neighbors := Liveness.Register(reply.neighbors, ListedActive);
        outbox := Notify(outbox, SelfMessage(config, UpdateNeighbors), neighbors.keys);
      }
    }

    /** `handle_update_neighbors`: a known neighbour is active again, a new one is added. */
    method HandleUpdateNeighbors(c: ControlMessage)
      requires Valid()
      modifies this
      ensures State() == old(State()).(neighbors := Announce(old(neighbors), c.nodeIp, AnnouncedTentativas(c)))
      ensures Valid()
    {
      if c.nodeIp in neighbors.m {
        neighbors := neighbors.Put(c.nodeIp, neighbors.m[c.nodeIp].(status := Some(Active)));
      } else {
        neighbors := neighbors.Put(c.nodeIp, AnnouncedTentativas(c));
      }
    }

    /** `handle_ping`: answer with a PONG, then reset a known sender. */
    method HandlePing(c: ControlMessage)
      requires Valid()
      modifies this
      ensures State() == old(State()).(neighbors := PingedBy(old(neighbors), c.nodeIp, FailedAttempts),
                                       outbox := old(outbox) + [Send(c.nodeIp, ControlMsg(PongMessage(config)))])
      ensures Valid()
    {
      outbox := outbox + [Send(c.nodeIp, ControlMsg(PongMessage(config)))];
      if c.nodeIp in neighbors.m {
        neighbors := neighbors.Put(c.nodeIp, neighbors.m[c.nodeIp].(failed := Some(0), status := Some(Active)));
      }
    }

    /** One iteration of `send_ping_to_neighbors`; `probes` gives each probe's outcome. */
    method SweepNeighbors(probes: IP -> Probe)
      requires Valid()
      modifies this
      ensures State() == SweepRound(config, old(State()), probes)
      ensures Valid()
    {
      var t, events := Sweep(neighbors, probes, FailedAttempts);
      neighbors := t;
      outbox := outbox + Pings(PingMessage(config), events);
    }

    /** `update_route_table` */
    method UpdateRouteTable(f: FloodingMessage)
      requires Valid()
      modifies this
      ensures State() == old(State()).(routing := AddHops(old(routing), f, f.streamIds))
      ensures Valid()
    {
      AddHopsValid(routing, f, f.streamIds);
      routing := UpdateRoutes(routing, f);
    }

    /** The search loop of `activate_best_route`, corrected: destinations in table order,
        keeping the first film row with strictly fewer hops. */
    method SearchFilm() returns (best: Option<HopCand>)
      ensures best == Least(Cands(routing, routing.keys, [config.filename]))
    {
      var keys := routing.keys;
      var f := config.filename;
      best := None;
      var i := 0;
      while i < |keys|
        invariant 0 <= i <= |keys|
        invariant best == Least(Cands(routing, keys[..i], [f]))
      {
        var d := keys[i];
        FilmStep(routing, keys, f, i);
        if d in routing.m && f in routing.m[d].m {
          var row := routing.m[d].m[f];
          if best.None? || row.hops < best.value.hops {
            best := Some(CandOf(d, f, row));
          }
        }
        i := i + 1;
      }
      assert keys[..i] == keys;
    }

    /** `activate_best_route(filename)`, with the comparison corrected; `delivered` says
        whether the ACTIVATE_ROUTE reaches the destination. */
    method ActivateBestRoute(delivered: bool) returns (route: Option<HopRoute>)
      requires Valid()
      modifies this
      ensures (State(), route) == Activate(config, old(State()), delivered)
      ensures Valid()
    {
      var best := SearchFilm();
      ActivateByLeast(config, State(), delivered);
      if best.None? {
        return None;
      }
      route := ActivateAt(best.value.dest, delivered);
    }

    /** Marks the film's row at `d` "active" and sends ACTIVATE_ROUTE to `d`. */
    method ActivateAt(d: IP, delivered: bool) returns (route: Option<HopRoute>)
      requires Valid() && RowAt(routing, d, config.filename).Some?
      modifies this
      ensures routing == WithStatus(old(routing), d, config.filename, "active")
      ensures neighbors == old(neighbors) && outbox == old(outbox) + [Send(d, FloodingMsg(ActivateMessage(config)))]
      ensures route == if delivered then RowAt(routing, d, config.filename) else None
      ensures Valid()
    {
      routing := WithStatus(routing, d, config.filename, "active");
      outbox := outbox + [Send(d, FloodingMsg(ActivateMessage(config)))];
      route := if delivered then RowAt(routing, d, config.filename) else None;
    }

    /** `start_new_session`: attempts until one returns a route, one delivery outcome per
        attempt; `tries` is the number of attempts made. */
    method StartNewSession(outcomes: seq<bool>) returns (route: Option<HopRoute>, tries: nat)
      requires Valid()
      modifies this
      ensures (State(), route, tries) == Retry(config, old(State()), outcomes)
      ensures Valid()
    {
      ghost var total := Retry(config, State(), outcomes);
      route := None;
      tries := 0;
      while tries < |outcomes| && route.None?
        invariant 0 <= tries <= |outcomes| && Valid()
        invariant route.None? ==> total == Shifted(Retry(config, State(), outcomes[tries..]), tries)
        invariant route.Some? ==> total == (State(), route, tries)
      {
        RetryStep(config, State(), outcomes, tries, total);
        route := ActivateBestRoute(outcomes[tries]);
        tries := tries + 1;
      }
    }

    /** `handle_control_connection`, for one message on the control port. */
    method ReceiveControl(p: Payload)
      requires Valid()
      modifies this
      ensures State() == ControlServer(config, old(State()), p)
      ensures Valid()
    {
      match p {
        case ControlMsg(c) =>
          if c.ctype == UpdateNeighbors {
            HandleUpdateNeighbors(c);
          } else if c.ctype == Ping {
            HandlePing(c);
          }
        case FloodingMsg(f) =>
          if f.ftype == FloodingUpdate {
            UpdateRouteTable(f);
          }
        case Text(_) =>
      }
    }
  }
}
