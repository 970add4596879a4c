/** `etapa3/ESR-TP2/ServerWorkerOk.py`: a server worker that keeps one RTSP session per
    "Indice" value. A request must carry an "Indice:" line; the first request for an
    index creates its session in INIT with a random six-digit id, and each request then
    moves only that session along the state machine of `etapa3/ServerWorker.py`. The
    200 reply names the session's numeric id, and an answered SETUP also records the
    RTP port and IP of the node the request came through. */
module IndexedWorker {
  import opened Common
  import opened Text
  import opened Rtsp
  import RtspWorker
  import PointOfPresence

  /** One entry of `self.sessions`: its `state`, its `event` (`None` until a PLAY
      creates it, then whether it is set), its numeric id, and the node's RTP port and
      IP once a SETUP has read them. */
  datatype Session = Session(state: RtspState, event: Option<bool>, id: int, nodeRtpPort: Option<int>, nodeRtpIp: Option<IP>)

  /** The worker: the sessions by index and the replies sent on the RTSP socket. */
  datatype Table = Table(sessions: map<int, Session>, replies: seq<string>)

  /** `randint(100000, 999999)`'s range. */
  predicate SessionId(id: int) {
    100000 <= id <= 999999
  }

  /** A session just created. */
  function NewSession(id: int): (s: Session)
    requires SessionId(id)
    ensures s.state == Init && s.event.None? && s.id == id && s.nodeRtpPort.None? && s.nodeRtpIp.None?
  {
    Session(Init, None, id, None, None)
  }

  // ---------------------------------------------------------------------------------
  // The Node-RTP scan

  /** The loop over the request's lines after an answered SETUP: a line containing
      "Node-RTP-Port:" sets the port to `int` of its second word, and then a line
      containing "Node-RTP-IP:" sets the IP to its second word. A read that raises ends
      the loop with what was found before. */
  function NodeScan(lines: seq<string>, port: Option<int>, ip: Option<IP>): (Option<int>, Option<IP>)
    decreases |lines|
  {
    if lines == [] then (port, ip)
    else
      var line := lines[0];
      var portRead := if Contains(line, "Node-RTP-Port:") then ReadInt([line], 0, 1) else port;
      var ipRead := if Contains(line, "Node-RTP-IP:") then Field([line], 0, 1) else ip;
      if Contains(line, "Node-RTP-Port:") && portRead.None? then (port, ip)
      else if Contains(line, "Node-RTP-IP:") && ipRead.None? then (portRead, ip)
      else NodeScan(lines[1..], portRead, ipRead)
  }

  /** Lines without a capital N are passed over by the scan. */
  lemma {:induction false} NodeScanSkips(before: seq<string>, after: seq<string>, port: Option<int>, ip: Option<IP>)
    requires forall i | 0 <= i < |before| :: 'N' !in before[i]
    ensures NodeScan(before + after, port, ip) == NodeScan(after, port, ip)
    decreases |before|
  {
    if before != [] {
      MissingFirst(before[0], "Node-RTP-Port:");
      MissingFirst(before[0], "Node-RTP-IP:");
      var lines := before + after;
      assert lines != [] && lines[0] == before[0];
      assert lines[1..] == before[1..] + after;
      assert NodeScan(lines, port, ip) == NodeScan(lines[1..], port, ip);
      NodeScanSkips(before[1..], after, port, ip);
    } else {
      assert before + after == after;
    }
  }

  /** A text whose only occurrence of `sub`'s first character is its first character,
      and that does not start with `sub`, does not contain `sub`. */
  lemma OnlyAtStart(s: string, sub: string)
    requires |s| > 0 && |sub| > 0 && sub[0] !in s[1..] && !StartsWith(s, sub)
    ensures !Contains(s, sub)
  {
    MissingFirst(s[1..], sub);
  }

  /** The port line the point of presence appends: it has the port marker, not the IP
      marker, and its second word reads as the port. */
  lemma PortLine(port: int)
    ensures var line := "Node-RTP-Port: " + IntToString(port);
      && Contains(line, "Node-RTP-Port:") && !Contains(line, "Node-RTP-IP:")
      && ReadInt([line], 0, 1) == Some(port)
  {
    var line := "Node-RTP-Port: " + IntToString(port);
    assert line == "Node-RTP-Port:" + (" " + IntToString(port));
    ContainsPrefix("Node-RTP-Port:", " " + IntToString(port));
    assert line[9] == 'P';
    assert line[1..] == "ode-RTP-Port: " + IntToString(port);
    IntToStringChars(port);
    assert 'N' !in "ode-RTP-Port: ";
    OnlyAtStart(line, "Node-RTP-IP:");
    LabelWords("Node-RTP-Port: ", "Node-RTP-Port:", IntToString(port));
    ParseIntToString(port);
  }

  /** The IP line the point of presence appends: it has the IP marker, not the port
      marker, and its second word is the IP. */
  lemma IpLine(host: IP)
    requires ' ' !in host && 'N' !in host
    ensures var line := "Node-RTP-IP: " + host;
      && Contains(line, "Node-RTP-IP:") && !Contains(line, "Node-RTP-Port:")
      && Field([line], 0, 1) == Some(host)
  {
    var line := "Node-RTP-IP: " + host;
    assert line == "Node-RTP-IP:" + (" " + host);
    ContainsPrefix("Node-RTP-IP:", " " + host);
    assert line[9] == 'I';
    assert line[1..] == "ode-RTP-IP: " + host;
    assert 'N' !in "ode-RTP-IP: ";
    OnlyAtStart(line, "Node-RTP-Port:");
    LabelWords("Node-RTP-IP: ", "Node-RTP-IP:", host);
  }

  /** After lines without a capital N, the two lines the point of presence appends
      give the scan its RTP port and IP, whatever was recorded before. */
  lemma NodeLinesScanned(before: seq<string>, cfg: PointOfPresence.Config, port: Option<int>, ip: Option<IP>)
    requires forall i | 0 <= i < |before| :: 'N' !in before[i]
    requires ' ' !in cfg.host && 'N' !in cfg.host
    ensures NodeScan(before + ["Node-RTP-Port: " + IntToString(cfg.rtpPort), "Node-RTP-IP: " + cfg.host, ""], port, ip)
      == (Some(cfg.rtpPort), Some(cfg.host))
  {
    var portLine := "Node-RTP-Port: " + IntToString(cfg.rtpPort);
    var ipLine := "Node-RTP-IP: " + cfg.host;
    NodeScanSkips(before, [portLine, ipLine, ""], port, ip);
    PortLine(cfg.rtpPort);
    IpLine(cfg.host);
    MissingFirst("", "Node-RTP-Port:");
    MissingFirst("", "Node-RTP-IP:");
    var found := (Some(cfg.rtpPort), Some(cfg.host));
    assert NodeScan([""], found.0, found.1) == found by {
      assert [""][1..] == [];
    }
    assert NodeScan([ipLine, ""], found.0, ip) == found by {
      assert [ipLine, ""][1..] == [""];
    }
    assert NodeScan([portLine, ipLine, ""], port, ip) == found by {
      assert [portLine, ipLine, ""][1..] == [ipLine, ""];
    }
  }

  /** Five lines, each ended by a line break, split into the five and an empty tail. */
  lemma FiveLines(a: string, b: string, c: string, d: string, e: string)
    requires '\n' !in a && '\n' !in b && '\n' !in c && '\n' !in d && '\n' !in e
    ensures Split(a + "\n" + b + "\n" + c + "\n" + d + "\n" + e + "\n", '\n') == [a, b, c, d, e, ""]
  {
    assert a + "\n" + b + "\n" + c + "\n" + d + "\n" + e + "\n"
      == a + ['\n'] + (b + ['\n'] + (c + ['\n'] + (d + ['\n'] + (e + ['\n'] + ""))));
    SplitNone("", '\n');
    SplitFirst(e, '\n', "");
    SplitFirst(d, '\n', e + ['\n'] + "");
    SplitFirst(c, '\n', d + ['\n'] + (e + ['\n'] + ""));
    SplitFirst(b, '\n', c + ['\n'] + (d + ['\n'] + (e + ['\n'] + "")));
    SplitFirst(a, '\n', b + ['\n'] + (c + ['\n'] + (d + ['\n'] + (e + ['\n'] + ""))));
  }

  /** A SETUP built by the RTSP client and forwarded by the point of presence splits into
      the client's three lines, the node's two, and an empty tail. */
  lemma ForwardedSetupLines(cfg: PointOfPresence.Config, file: string, cseq: nat, rtpPort: int, session: string)
    requires ' ' !in file && '\n' !in file && '\n' !in cfg.host
    ensures Split(PointOfPresence.Augmented(cfg, RequestText(Setup, file, cseq, rtpPort, session)), '\n')
      == [RequestHead(Setup, file), RequestSeq(cseq), RequestLast(Setup, rtpPort, session),
          "Node-RTP-Port: " + IntToString(cfg.rtpPort), "Node-RTP-IP: " + cfg.host, ""]
  {
    var head := RequestHead(Setup, file);
    var second := RequestSeq(cseq);
    var last := RequestLast(Setup, rtpPort, session);
    var portLine := "Node-RTP-Port: " + IntToString(cfg.rtpPort);
    var ipLine := "Node-RTP-IP: " + cfg.host;
    SetupLinesUnbroken(cfg, file, cseq, rtpPort, session);
    NodeLinesText(cfg);
    Regroup(head, second, last, portLine, ipLine);
    FiveLines(head, second, last, portLine, ipLine);
  }

  /** None of the five lines of a forwarded SETUP has a line break inside. */
  lemma SetupLinesUnbroken(cfg: PointOfPresence.Config, file: string, cseq: nat, rtpPort: int, session: string)
    requires ' ' !in file && '\n' !in file && '\n' !in cfg.host
    ensures '\n' !in RequestHead(Setup, file) && '\n' !in RequestSeq(cseq) && '\n' !in RequestLast(Setup, rtpPort, session)
    ensures '\n' !in "Node-RTP-Port: " + IntToString(cfg.rtpPort) && '\n' !in "Node-RTP-IP: " + cfg.host
  {
    HeadWords(Setup, file);
    assert '\n' !in "Transport: RTP/UDP; client_port= ";
  }

  /** The node's two lines, each ended by a line break. */
  lemma NodeLinesText(cfg: PointOfPresence.Config)
    ensures PointOfPresence.NodeLines(cfg)
      == ("Node-RTP-Port: " + IntToString(cfg.rtpPort)) + "\n" + ("Node-RTP-IP: " + cfg.host) + "\n"
  {
    assert "\nNode-RTP-IP: " == "\n" + "Node-RTP-IP: ";
  }

  /** Three lines followed by two more, each ended by a line break, are the five lines. */
  lemma Regroup(a: string, b: string, c: string, d: string, e: string)
    ensures (a + "\n" + b + "\n" + c + "\n") + (d + "\n" + e + "\n") == a + "\n" + b + "\n" + c + "\n" + d + "\n" + e + "\n"
  {
  }

  /** The SETUP a client sends through the point of presence leaves the scan with that
      node's RTP port and IP: the scan reads exactly the lines the node appends. */
  lemma ForwardedSetupScanned(cfg: PointOfPresence.Config, file: string, cseq: nat, rtpPort: int, session: string,
                              port: Option<int>, ip: Option<IP>)
    requires ' ' !in file && '\n' !in file && 'N' !in file
    requires ' ' !in cfg.host && '\n' !in cfg.host && 'N' !in cfg.host
    ensures NodeScan(Split(PointOfPresence.Augmented(cfg, RequestText(Setup, file, cseq, rtpPort, session)), '\n'), port, ip)
      == (Some(cfg.rtpPort), Some(cfg.host))
  {
    ForwardedSetupLines(cfg, file, cseq, rtpPort, session);
    SetupLinesNoN(file, cseq, rtpPort, session);
    var before := [RequestHead(Setup, file), RequestSeq(cseq), RequestLast(Setup, rtpPort, session)];
    NodeLinesScanned(before, cfg, port, ip);
    assert before + ["Node-RTP-Port: " + IntToString(cfg.rtpPort), "Node-RTP-IP: " + cfg.host, ""]
      == [RequestHead(Setup, file), RequestSeq(cseq), RequestLast(Setup, rtpPort, session),
          "Node-RTP-Port: " + IntToString(cfg.rtpPort), "Node-RTP-IP: " + cfg.host, ""];
  }

  /** The SETUP request's own lines have no capital N when its file name has none. */
  lemma SetupLinesNoN(file: string, cseq: nat, rtpPort: int, session: string)
    requires 'N' !in file
    ensures 'N' !in RequestHead(Setup, file) && 'N' !in RequestSeq(cseq) && 'N' !in RequestLast(Setup, rtpPort, session)
  {
    assert 'N' !in "SETUP" && 'N' !in " RTSP/1.0" && 'N' !in "CSeq: ";
    IntToStringChars(rtpPort);
    assert 'N' !in NatToString(cseq) && 'N' !in IntToString(rtpPort);
    TransportNoN();
  }

  /** The SETUP request's third line has no capital N before the port. */
  lemma TransportNoN()
    ensures 'N' !in "Transport: RTP/UDP; client_port= "
  {
    assert "Transport: RTP/UDP; client_port= " == "Transport: " + "RTP/UDP; " + "client_port= ";
    assert 'N' !in "Transport: " && 'N' !in "RTP/UDP; " && 'N' !in "client_port= ";
  }

  // ---------------------------------------------------------------------------------
  // processRtspRequest

  /** What the handler does to the session of the request's index: the branch of
      `etapa3/ServerWorker.py` on this session's state and event, replying with the
      session's id, and after an answered SETUP the Node-RTP scan of the request's
      lines. */
  function SessionActed(s: Session, replies: seq<string>, m: Option<Method>, words: seq<string>,
                        lines: seq<string>, opens: bool): (r: (Session, seq<string>))
    ensures r.0.id == s.id
  {
    var w := RtspWorker.Acted(RtspWorker.Worker(s.state, None, s.event, replies), m, words, IntToString(s.id), opens);
    var s1 := s.(state := w.state, event := w.event);
    if m == Some(Setup) && s.state == Init && |words| >= 2 then
      var found := NodeScan(lines, s.nodeRtpPort, s.nodeRtpIp);
      (s1.(nodeRtpPort := found.0, nodeRtpIp := found.1), w.replies)
    else (s1, w.replies)
  }

  /** `processRtspRequest(data)`, with `opens` standing for whether the video file
      opens and `newId` for `randint(100000, 999999)`. A request without a readable
      "Indice:" line raises (`ValueError`, or `UnboundLocalError` when there is none)
      before anything changes; a new index gets a new session before the file name
      and the sequence number are read. */
  function Processed(t: Table, data: string, opens: bool, newId: int): Table
    requires SessionId(newId)
  {
    var request := Split(data, '\n');
    var line1 := Split(request[0], ' ');
    var scan := RtspWorker.ScanIndice(request);
    if !scan.Indice? then t
    else
      var k := scan.value;
      var sessions := if k in t.sessions then t.sessions else t.sessions[k := NewSession(newId)];
      if |line1| < 2 || |request| < 2 then t.(sessions := sessions)
      else
        var r := SessionActed(sessions[k], t.replies, RtspWorker.MethodOf(line1[0]), Split(request[1], ' '), request, opens);
        Table(sessions[k := r.0], r.1)
  }

  /** A request without an "Indice:" line, or whose index is not an integer, changes
      nothing. */
  lemma NoIndexNoChange(t: Table, data: string, opens: bool, newId: int)
    requires SessionId(newId)
    requires !RtspWorker.ScanIndice(Split(data, '\n')).Indice?
    ensures Processed(t, data, opens, newId) == t
  {
  }

  /** A request for index `k` touches only the session of `k`: the indices are those
      before and `k`, every other session is as it was, a new session has the new id,
      and an existing one keeps its id. */
  lemma SessionsIsolated(t: Table, data: string, opens: bool, newId: int, k: int)
    requires SessionId(newId)
    requires RtspWorker.ScanIndice(Split(data, '\n')) == RtspWorker.Indice(k)
    ensures var r := Processed(t, data, opens, newId);
      && r.sessions.Keys == t.sessions.Keys + {k}
      && (forall j | j in t.sessions && j != k :: r.sessions[j] == t.sessions[j])
      && r.sessions[k].id == (if k in t.sessions then t.sessions[k].id else newId)
  {
  }

  /** A first request for index `k` creates its session: in INIT with no event and no
      node recorded when the request is not a SETUP that moved it, and with an id in
      [100000, 999999] in any case. */
  lemma NewIndexStarts(t: Table, data: string, opens: bool, newId: int, k: int)
    requires SessionId(newId)
    requires RtspWorker.ScanIndice(Split(data, '\n')) == RtspWorker.Indice(k) && k !in t.sessions
    ensures var s := Processed(t, data, opens, newId).sessions[k];
      && SessionId(s.id)
      && (s.state == Init || s.state == Ready)
      && (s.state == Ready ==> Field(Split(data, '\n'), 0, 0) == Some("SETUP"))
  {
    var request := Split(data, '\n');
    var line1 := Split(request[0], ' ');
    if |line1| >= 2 && |request| >= 2 {
      var m := RtspWorker.MethodOf(line1[0]);
      var words := Split(request[1], ' ');
      var w := RtspWorker.Worker(Init, None, None, t.replies);
      var r := RtspWorker.Acted(w, m, words, IntToString(newId), opens);
      RtspWorker.ActedSteps(w, m, words, IntToString(newId), opens);
      assert Processed(t, data, opens, newId).sessions[k].state == r.state;
      if r.state == Ready {
        assert MethodName(m.value) == "SETUP";
        assert Field(request, 0, 0) == Some(line1[0]);
      }
    }
  }

  /** An answered request sends one 200 reply naming the session's numeric id, which a
      client reading the session as an integer gets back. */
  lemma ReplyNamesId(t: Table, data: string, opens: bool, newId: int, k: int)
    requires SessionId(newId)
    requires RtspWorker.ScanIndice(Split(data, '\n')) == RtspWorker.Indice(k)
    requires |Processed(t, data, opens, newId).replies| > |t.replies|
    ensures var r := Processed(t, data, opens, newId);
      && |r.replies| == |t.replies| + 1
      && r.replies[..|t.replies|] == t.replies
      && (exists cseq: string :: ' ' !in cseq && '\n' !in cseq &&
           r.replies[|t.replies|] == ReplyText(cseq, IntToString(r.sessions[k].id)))
      && ReadInt(Split(r.replies[|t.replies|], '\n'), 2, 1) == Some(r.sessions[k].id)
  {
    var request := Split(data, '\n');
    var line1 := Split(request[0], ' ');
    var sessions := if k in t.sessions then t.sessions else t.sessions[k := NewSession(newId)];
    if |line1| >= 2 && |request| >= 2 {
      var words := Split(request[1], ' ');
      var s := sessions[k];
      var r := Processed(t, data, opens, newId);
      RtspWorker.ActedSteps(RtspWorker.Worker(s.state, None, s.event, t.replies), RtspWorker.MethodOf(line1[0]), words, IntToString(s.id), opens);
      SplitNoSep(data, '\n');
      SplitNoSep(request[1], ' ');
      SplitInside(request[1], ' ', '\n');
      var reply := ReplyText(words[1], IntToString(s.id));
      assert r.replies == t.replies + [reply];
      ReplyLines(words[1], IntToString(s.id));
      ParseIntToString(s.id);
    }
  }

  /** Each request moves its session along the RTSP state machine: SETUP's INIT to
      READY, PLAY's READY to PLAYING, PAUSE's PLAYING to READY. */
  lemma SessionSteps(t: Table, data: string, opens: bool, newId: int, k: int)
    requires SessionId(newId)
    requires RtspWorker.ScanIndice(Split(data, '\n')) == RtspWorker.Indice(k) && k in t.sessions
    ensures RtspWorker.Step(t.sessions[k].state, Processed(t, data, opens, newId).sessions[k].state)
  {
    var request := Split(data, '\n');
    var line1 := Split(request[0], ' ');
    if |line1| >= 2 && |request| >= 2 {
      var s := t.sessions[k];
      RtspWorker.ActedSteps(RtspWorker.Worker(s.state, None, s.event, t.replies), RtspWorker.MethodOf(line1[0]), Split(request[1], ' '), IntToString(s.id), opens);
    }
  }

  // ---------------------------------------------------------------------------------
  // The worker

  class IndexedServerWorker {
    var sessions: map<int, Session>
    var replies: seq<string>

    function Snapshot(): Table
      reads this
    {
      Table(sessions, replies)
    }

    /** `ServerWorker(clientInfo)`: no session yet. */
    constructor ()
      ensures Snapshot() == Table(map[], [])
    {
      sessions := map[];
      replies := [];
    }

    /** `processRtspRequest(data)`, with `opens` standing for whether the video file
        opens and `newId` for the random session id. */
    method ProcessRtspRequest(data: string, opens: bool, newId: int)
      requires SessionId(newId)
      modifies this
      ensures Snapshot() == Processed(old(Snapshot()), data, opens, newId)
    {
      var request := Split(data, '\n');
      var line1 := Split(request[0], ' ');
      var requestType := line1[0];
      var scan := RtspWorker.FindIndice(request);
      if !scan.Indice? {
        return;
      }
      var indice := scan.value;
      if indice !in sessions {
        sessions := sessions[indice := NewSession(newId)];
      }
      if |line1| < 2 || |request| < 2 {
        return;
      }
      var words := Split(request[1], ' ');
      var session := ActOn(sessions[indice], RtspWorker.MethodOf(requestType), words, request, opens);
      sessions := sessions[indice := session];
    }

    /** The branch on the request type for one session; the replies go out on the
        worker's socket. */
    method ActOn(s: Session, m: Option<Method>, words: seq<string>, lines: seq<string>, opens: bool)
      returns (session: Session)
      modifies this
      ensures (session, replies) == SessionActed(s, old(replies), m, words, lines, opens)
      ensures sessions == old(sessions)
    {
      session := s;
      var name := IntToString(s.id);
      if m == Some(Setup) {
        if session.state == Init {
          if opens {
            session := session.(state := Ready);
          }
          var ok := Reply(words, name);
          if ok {
            var port, ip := ScanNode(lines, session.nodeRtpPort, session.nodeRtpIp);
            session := session.(nodeRtpPort := port, nodeRtpIp := ip);
          }
        }
      } else if m == Some(Play) {
        if session.state == Ready {
          session := session.(state := Playing);
          var ok := Reply(words, name);
          if ok {
            session := session.(event := Some(false));
          }
        }
      } else if m == Some(Pause) {
        if session.state == Playing {
          session := session.(state := Ready);
          if session.event.Some? {
            session := session.(event := Some(true));
            var ok := Reply(words, name);
          }
        }
      } else if m == Some(Teardown) {
        if session.event.Some? {
          session := session.(event := Some(true));
          var ok := Reply(words, name);
        }
      }
    }

    /** `replyRtsp(OK_200, seq[1], session)`: `ok` is false when `seq[1]` raises. */
    method Reply(cseqWords: seq<string>, name: string) returns (ok: bool)
      modifies this
      ensures ok <==> |cseqWords| >= 2
      ensures replies == if ok then old(replies) + [ReplyText(cseqWords[1], name)] else old(replies)
      ensures sessions == old(sessions)
    {
      ok := |cseqWords| >= 2;
      if ok {
        replies := replies + [ReplyText(cseqWords[1], name)];
      }
    }
  }

  /** The Node-RTP loop over the request's lines. */
  method ScanNode(lines: seq<string>, port0: Option<int>, ip0: Option<IP>) returns (port: Option<int>, ip: Option<IP>)
    ensures (port, ip) == NodeScan(lines, port0, ip0)
  {
    port, ip := port0, ip0;
    var i := 0;
    var raised := false;
    while i < |lines| && !raised
      invariant 0 <= i <= |lines|
      invariant NodeScan(lines, port0, ip0) == if raised then (port, ip) else NodeScan(lines[i..], port, ip)
      decreases |lines| - i, if raised then 0 else 1
    {
      var line := lines[i];
      assert lines[i..][0] == line && lines[i..][1..] == lines[i + 1..];
      if Contains(line, "Node-RTP-Port:") {
        var read := ReadInt([line], 0, 1);
        if read.None? {
          raised := true;
        } else {
          port := read;
        }
      }
      if !raised && Contains(line, "Node-RTP-IP:") {
        var read := Field([line], 0, 1);
        if read.None? {
          raised := true;
        } else {
          ip := read;
        }
      }
      if !raised {
        i := i + 1;
      }
    }
  }
}
