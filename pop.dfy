/** `ProgEx/Python/PoP.py`: a point of presence. Its neighbour table follows the
    "failed-attempts" rules of the other overlay nodes, without a node type; towards the
    video clients it relays RTSP: each request is forwarded to the server with two lines
    naming the node's RTP port and IP, the server's response is passed back, and a SETUP
    records the client's RTP port under the client's address until the connection ends. */
module PointOfPresence {
  import opened Common
  import opened OrdMap
  import opened Messages
  import opened Liveness
  import opened Peers
  import opened Text
  import opened Rtsp

  const CONTROL_PORT := 50051
  const DATA_PORT := 50052

  /** The node as it announces itself: REGISTER and UPDATE_NEIGHBORS carry no type. */
  function PopIdentity(id: string, host: IP): (me: Identity)
    ensures me.id == id && me.ip == host && me.nodeType == ""
    ensures me.controlPort == CONTROL_PORT && me.dataPort == DATA_PORT
  {
    Identity(id, host, "", CONTROL_PORT, DATA_PORT)
  }

  /** Listed and announced neighbours start active with no failure and no type, the sweep
      counts "failed-attempts", and an expiry is not reported. */
  const PopRules := Rules(ListedUntyped, AnnouncedUntyped, FailedAttempts, None)

  /** Every neighbour the registration response lists is stored active, with no failure
      and no type, and only those. */
  lemma RegisteredUntyped(me: Identity, s: PeerState, reply: ControlMessage)
    requires reply.ctype == RegisterResponse
    ensures var t := Registered(me, PopRules, s, reply).neighbors;
      && t.Valid()
      && (forall ip | ip in t.m :: t.m[ip].status == Some(Active) && t.m[ip].failed == Some(0) && t.m[ip].nodeType == "")
      && (forall ip :: ip in t.m <==> exists i | 0 <= i < |reply.neighbors| :: reply.neighbors[i].nodeIp == ip)
  {
    RegisteredEffect(me, PopRules, s, reply);
    var t := Registered(me, PopRules, s, reply).neighbors;
    forall ip | ip in t.m
      ensures t.m[ip].status == Some(Active) && t.m[ip].failed == Some(0) && t.m[ip].nodeType == ""
    {
      var i :| 0 <= i < |reply.neighbors| && reply.neighbors[i].nodeIp == ip && t.m[ip] == ListedUntyped(reply.neighbors[i]);
    }
  }

  // ---------------------------------------------------------------------------------
  // The RTSP relay

  /** The node's address and RTP port, and where the RTSP server listens. */
  datatype Config = Config(host: IP, rtpPort: int, serverAddr: IP, serverPort: int)

  /** `main`'s values: RTP port 25001 and the server at 10.0.4.10:30000. */
  function MainConfig(host: IP): (cfg: Config)
    ensures cfg.host == host && cfg.rtpPort == 25001 && cfg.serverAddr == "10.0.4.10" && cfg.serverPort == 30000
  {
    Config(host, 25001, "10.0.4.10", 30000)
  }

  /** A client's address: IP and port of its RTSP connection. */
  datatype Addr = Addr(ip: IP, port: int)

  /** `client_info[addr]`: the client's RTP port and IP. */
  datatype ClientEntry = ClientEntry(rtpPort: int, ip: IP)

  /** `client_info` */
  type ClientTable = map<Addr, ClientEntry>

  /** The two lines the node appends: its RTP port and its IP. */
  function NodeLines(cfg: Config): string {
    "Node-RTP-Port: " + IntToString(cfg.rtpPort) + "\nNode-RTP-IP: " + cfg.host + "\n"
  }

  /** The request as forwarded: the client's text, then the node's two lines. */
  function Augmented(cfg: Config, request: string): (r: string)
    ensures |r| > |request| && r[..|request|] == request
  {
    request + NodeLines(cfg)
  }

  /** `int(request.split('\n')[2].split(' ')[3])`: `None` where Python raises
      `IndexError` or `ValueError`. */
  function RtpPortOf(request: string): Option<int> {
    ReadInt(Split(request, '\n'), 2, 3)
  }

  /** What one pass sends: the forwarded request to the server, then the server's
      response to the client. */
  function Relay(cfg: Config, addr: Addr, request: string, response: string): (r: seq<Send>)
    ensures |r| == 2 && r[0].to == cfg.serverAddr && r[1].to == addr.ip
    ensures r[0].payload == Payload.Text(Augmented(cfg, request)) && r[1].payload == Payload.Text(response)
  {
    [Send(cfg.serverAddr, Payload.Text(Augmented(cfg, request))), Send(addr.ip, Payload.Text(response))]
  }

  /** One pass of `handle_client`'s loop for a non-empty request: the forwarded request
      goes to the server, the server's `response` to the client, and a request mentioning
      SETUP records the client's RTP port; `go` is false when reading that port raised
      and ended the loop. */
  function Exchanged(cfg: Config, addr: Addr, info: ClientTable, request: string, response: string)
    : (r: (ClientTable, seq<Send>, bool))
    ensures r.1 == Relay(cfg, addr, request, response)
    ensures forall a | a != addr :: (a in r.0 <==> a in info) && (a in info ==> r.0[a] == info[a])
    ensures !r.2 ==> r.0 == info
  {
    var forwarded := Augmented(cfg, request);
    var sent := Relay(cfg, addr, request, response);
    if !Contains(forwarded, "SETUP") then (info, sent, true)
    else match RtpPortOf(forwarded)
      case None => (info, sent, false)
      case Some(port) => (info[addr := ClientEntry(port, addr.ip)], sent, true)
  }

  /** `handle_client`'s loop over the requests the client sends, each paired with the
      server's response to it: the loop ends at the first empty request (the client closed
      the connection) or at an exception. The result is `client_info` and everything sent,
      before the entry is removed. */
  function Served(cfg: Config, addr: Addr, info: ClientTable, exchanges: seq<(string, string)>)
    : (r: (ClientTable, seq<Send>))
    decreases |exchanges|
  {
    if exchanges == [] || exchanges[0].0 == "" then (info, [])
    else
      var (info1, sent, go) := Exchanged(cfg, addr, info, exchanges[0].0, exchanges[0].1);
      if !go then (info1, sent)
      else
        var rest := Served(cfg, addr, info1, exchanges[1..]);
        (rest.0, sent + rest.1)
  }

  /** The node's part of `client_info` is the only one a connection touches: once its
      entry is removed, the table is as it was before, minus this client. */
  lemma {:induction false} ServedLeavesNoTrace(cfg: Config, addr: Addr, info: ClientTable, exchanges: seq<(string, string)>)
    ensures Served(cfg, addr, info, exchanges).0 - {addr} == info - {addr}
    decreases |exchanges|
  {
    if exchanges != [] && exchanges[0].0 != "" {
      var (info1, sent, go) := Exchanged(cfg, addr, info, exchanges[0].0, exchanges[0].1);
      assert info1 - {addr} == info - {addr};
      if go {
        ServedLeavesNoTrace(cfg, addr, info1, exchanges[1..]);
      }
    }
  }

  /** Nothing after the first empty request is read. */
  lemma {:induction false} ServedStopsAtEmpty(cfg: Config, addr: Addr, info: ClientTable, exchanges: seq<(string, string)>, i: nat)
    requires i < |exchanges| && exchanges[i].0 == ""
    ensures Served(cfg, addr, info, exchanges) == Served(cfg, addr, info, exchanges[..i])
    decreases i
  {
    if i > 0 && exchanges[0].0 != "" {
      var (info1, sent, go) := Exchanged(cfg, addr, info, exchanges[0].0, exchanges[0].1);
      if go {
        ServedStopsAtEmpty(cfg, addr, info1, exchanges[1..], i - 1);
        assert exchanges[1..][..i - 1] == exchanges[..i][1..];
      }
    }
  }

  /** The loop's step, read at position `i` of the requests. */
  lemma ServedNext(cfg: Config, addr: Addr, info: ClientTable, exchanges: seq<(string, string)>, i: nat)
    requires i < |exchanges| && exchanges[i].0 != ""
    ensures var e := Exchanged(cfg, addr, info, exchanges[i].0, exchanges[i].1);
      var rest := Served(cfg, addr, e.0, exchanges[i + 1..]);
      Served(cfg, addr, info, exchanges[i..]) == if e.2 then (rest.0, e.1 + rest.1) else (e.0, e.1)
  {
    assert exchanges[i..][0] == exchanges[i];
    assert exchanges[i..][1..] == exchanges[i + 1..];
  }

  /** What the loop sends for each of `exchanges`, in order, had it read them all. */
  function RelayedAll(cfg: Config, addr: Addr, exchanges: seq<(string, string)>): (r: seq<Send>)
    ensures |r| == 2 * |exchanges|
  {
    if exchanges == [] then []
    else Relay(cfg, addr, exchanges[0].0, exchanges[0].1) + RelayedAll(cfg, addr, exchanges[1..])
  }

  /** What a connection sends is the relay of the requests read before it ended: each
      forwarded to the server with the node's lines, and its response passed back, in
      order; none of those requests is empty. */
  lemma {:induction false} ServedRelaysPrefix(cfg: Config, addr: Addr, info: ClientTable, exchanges: seq<(string, string)>)
    returns (n: nat)
    ensures n <= |exchanges| && forall k | 0 <= k < n :: exchanges[k].0 != ""
    ensures Served(cfg, addr, info, exchanges).1 == RelayedAll(cfg, addr, exchanges[..n])
    decreases |exchanges|
  {
    if exchanges == [] || exchanges[0].0 == "" {
      n := 0;
    } else {
      var (info1, first, go) := Exchanged(cfg, addr, info, exchanges[0].0, exchanges[0].1);
      assert exchanges[..1][1..] == [];
      if !go {
        n := 1;
      } else {
        var tail := exchanges[1..];
        var m := ServedRelaysPrefix(cfg, addr, info1, tail);
        n := m + 1;
        assert exchanges[..n][0] == exchanges[0];
        assert exchanges[..n][1..] == tail[..m];
        forall k | 0 <= k < n
          ensures exchanges[k].0 != ""
        {
          if k > 0 {
            assert exchanges[k] == tail[k - 1];
          }
        }
      }
    }
  }

  // ---------------------------------------------------------------------------------
  // What the relay promises about the requests of the RTSP client

  /** Four words joined by spaces split back into the four. */
  lemma FourWords(a: string, b: string, c: string, d: string)
    requires ' ' !in a && ' ' !in b && ' ' !in c && ' ' !in d
    ensures Split(a + " " + b + " " + c + " " + d, ' ') == [a, b, c, d]
  {
    assert a + " " + b + " " + c + " " + d == a + [' '] + (b + [' '] + (c + [' '] + d));
    SplitFirst(a, ' ', b + [' '] + (c + [' '] + d));
    SplitFirst(b, ' ', c + [' '] + d);
    SplitFirst(c, ' ', d);
    SplitNone(d, ' ');
  }

  /** The Transport line splits on spaces into four words, the last the port. */
  lemma TransportWords(port: string)
    requires ' ' !in port
    ensures Split("Transport: RTP/UDP; client_port= " + port, ' ') == ["Transport:", "RTP/UDP;", "client_port=", port]
  {
    assert "Transport: RTP/UDP; client_port= " == "Transport:" + " " + "RTP/UDP;" + " " + "client_port=" + " ";
    FourWords("Transport:", "RTP/UDP;", "client_port=", port);
  }

  /** Three lines ended by line breaks, then anything: the first three pieces of the
      split are the three lines. */
  lemma LinesThen(a: string, b: string, c: string, tail: string)
    requires '\n' !in a && '\n' !in b && '\n' !in c
    ensures var lines := Split(a + "\n" + b + "\n" + c + "\n" + tail, '\n');
      |lines| >= 3 && lines[..3] == [a, b, c]
  {
    assert a + "\n" + b + "\n" + c + "\n" + tail == a + ['\n'] + (b + ['\n'] + (c + ['\n'] + tail));
    SplitFirst(a, '\n', b + ['\n'] + (c + ['\n'] + tail));
    SplitFirst(b, '\n', c + ['\n'] + tail);
    SplitFirst(c, '\n', tail);
  }

  /** The forwarded request splits into the client's three lines, then the node's. */
  lemma ForwardedLines(cfg: Config, m: Method, file: string, cseq: nat, port: int, session: string)
    requires ' ' !in file && '\n' !in file && '\n' !in session
    ensures var lines := Split(Augmented(cfg, RequestText(m, file, cseq, port, session)), '\n');
      |lines| >= 3 && lines[..3] == [RequestHead(m, file), RequestSeq(cseq), RequestLast(m, port, session)]
  {
    var head := RequestHead(m, file);
    var second := RequestSeq(cseq);
    var last := RequestLast(m, port, session);
    var text := RequestText(m, file, cseq, port, session);
    RequestSplit(m, file, cseq, port, session);
    SplitNoSep(text, '\n');
    assert Split(text, '\n')[0] == head && Split(text, '\n')[1] == second && Split(text, '\n')[2] == last;
    LinesThen(head, second, last, NodeLines(cfg));
  }

  /** The SETUP the RTSP client builds is recognised, and the port read back is the
      client's RTP port: the request's own text carries it through the relay intact. */
  lemma SetupPortRoundTrip(cfg: Config, file: string, cseq: nat, port: int, session: string)
    requires ' ' !in file && '\n' !in file && '\n' !in session
    ensures var forwarded := Augmented(cfg, RequestText(Setup, file, cseq, port, session));
      Contains(forwarded, "SETUP") && RtpPortOf(forwarded) == Some(port)
  {
    SetupRecognised(cfg, file, cseq, port, session);
    SetupPortRead(cfg, file, cseq, port, session);
  }

  /** A forwarded SETUP mentions SETUP: it starts with it. */
  lemma SetupRecognised(cfg: Config, file: string, cseq: nat, port: int, session: string)
    ensures Contains(Augmented(cfg, RequestText(Setup, file, cseq, port, session)), "SETUP")
  {
    var forwarded := Augmented(cfg, RequestText(Setup, file, cseq, port, session));
    assert forwarded == "SETUP" + forwarded[5..];
    ContainsPrefix("SETUP", forwarded[5..]);
  }

  /** The fourth word of a forwarded SETUP's third line reads as the client's port. */
  lemma SetupPortRead(cfg: Config, file: string, cseq: nat, port: int, session: string)
    requires ' ' !in file && '\n' !in file && '\n' !in session
    ensures RtpPortOf(Augmented(cfg, RequestText(Setup, file, cseq, port, session))) == Some(port)
  {
    ForwardedLines(cfg, Setup, file, cseq, port, session);
    var lines := Split(Augmented(cfg, RequestText(Setup, file, cseq, port, session)), '\n');
    assert lines[2] == lines[..3][2];
    TransportWords(IntToString(port));
    ParseIntToString(port);
  }

  /** A SETUP of the RTSP client records that client's RTP port and IP, and the loop
      goes on. */
  lemma SetupRecorded(cfg: Config, addr: Addr, info: ClientTable, file: string, cseq: nat, port: int, session: string, response: string)
    requires ' ' !in file && '\n' !in file && '\n' !in session
    ensures Exchanged(cfg, addr, info, RequestText(Setup, file, cseq, port, session), response).0
         == info[addr := ClientEntry(port, addr.ip)]
    ensures Exchanged(cfg, addr, info, RequestText(Setup, file, cseq, port, session), response).2
  {
    SetupPortRoundTrip(cfg, file, cseq, port, session);
  }

  // ---------------------------------------------------------------------------------
  // The node

  class Pop {
    const config: Config
    /** The neighbour-table part of the node. */
    const peer: Peer
    /** `self.client_info` */
    var clientInfo: ClientTable
    /** Every RTSP text sent, to the server or to a client, in order. */
    var relayed: seq<Send>

    ghost predicate Valid()
      reads this, peer
    {
      peer.Valid() && peer.rules == PopRules && peer.me.ip == config.host
    }

    /** `PoP(...)`, before registration. */
    constructor (id: string, config: Config)
      ensures Valid() && fresh(peer)
      ensures this.config == config && peer.me == PopIdentity(id, config.host)
      ensures peer.State() == PeerState(Empty(), [])
      ensures clientInfo == map[] && relayed == []
    {
      this.config := config;
      peer := new Peer(PopIdentity(id, config.host), PopRules);
      clientInfo := map[];
      relayed := [];
    }

    /** `handle_client` for the client at `addr`: `exchanges` pairs each chunk the client
        sends with the server's response to it. */
    method HandleClient(addr: Addr, exchanges: seq<(string, string)>)
      modifies this
      ensures clientInfo == Served(config, addr, old(clientInfo), exchanges).0 - {addr}
      ensures relayed == old(relayed) + Served(config, addr, old(clientInfo), exchanges).1
      ensures clientInfo == old(clientInfo) - {addr}
    {
      ghost var total := Served(config, addr, clientInfo, exchanges);
      var sent: seq<Send> := [];
      var i := 0;
      var going := true;
      assert exchanges[0..] == exchanges;
      assert total.1 == sent + total.1;
      while going && i < |exchanges|
        invariant 0 <= i <= |exchanges|
        invariant going ==> total == (Served(config, addr, clientInfo, exchanges[i..]).0,
                                      sent + Served(config, addr, clientInfo, exchanges[i..]).1)
        invariant !going ==> total == (clientInfo, sent)
        invariant relayed == old(relayed)
        decreases |exchanges| - i, going
      {
        var request := exchanges[i].0;
        var response := exchanges[i].1;
        if request == "" {
          assert exchanges[i..][0] == exchanges[i];
          assert sent + [] == sent;
          going := false;
        } else {
          ServedNext(config, addr, clientInfo, exchanges, i);
          ghost var before := clientInfo;
          var pair;
          pair, going := Exchange(addr, request, response);
          assert (clientInfo, pair, going) == Exchanged(config, addr, before, request, response);
          AppendAssoc(sent, pair, Served(config, addr, clientInfo, exchanges[i + 1..]).1);
          sent := sent + pair;
          i := i + 1;
        }
      }
      if going {
        assert exchanges[i..] == [];
      }
      relayed := relayed + sent;
      ServedLeavesNoTrace(config, addr, old(clientInfo), exchanges);
      clientInfo := clientInfo - {addr};
    }

    /** One pass of the loop for a non-empty request: forward it, pass the response
        back, and record the RTP port of a SETUP; `go` is false when reading it raised. */
    method Exchange(addr: Addr, request: string, response: string) returns (pair: seq<Send>, go: bool)
      modifies this`clientInfo
      ensures (clientInfo, pair, go) == Exchanged(config, addr, old(clientInfo), request, response)
    {
      var forwarded := Augmented(config, request);
      pair := [Send(config.serverAddr, Payload.Text(forwarded)), Send(addr.ip, Payload.Text(response))];
      go := true;
      if Contains(forwarded, "SETUP") {
        var port := RtpPortOf(forwarded);
        if port.None? {
          go := false;
        } else {
          clientInfo := clientInfo[addr := ClientEntry(port.value, addr.ip)];
        }
      }
    }
  }
}
