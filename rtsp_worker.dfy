/** `etapa3/ServerWorker.py`: the server side of one RTSP connection. Each request is
    read line by line; the method word and the file name come from the request line,
    the sequence number from the second line, and the requested file becomes the
    session. SETUP acts in INIT, PLAY in READY and PAUSE in PLAYING; TEARDOWN acts in
    any state and leaves the state as it is. Every request acted on is answered with a
    200 reply, and a read or a lookup that raises ends the handler with whatever it had
    already changed. */
module RtspWorker {
  import opened Common
  import opened Text
  import opened Rtsp
  import Rtp
  import RtspSession

  // ---------------------------------------------------------------------------------
  // The "Indice:" scan

  /** What the scan for an "Indice:" line finds: no such line, a line whose value is
      not an integer (`int` raises `ValueError`), or the index it carries. */
  datatype IndiceScan = NoIndice | BadIndice | Indice(value: int)

  /** One line known to contain "Indice:": `int` of what follows its first colon,
      stripped. */
  function IndiceOf(line: string): (r: IndiceScan)
    ensures r != NoIndice
  {
    var parts := Split(line, ':');
    if |parts| < 2 then BadIndice
    else match ParseInt(Strip(parts[1]))
      case None => BadIndice
      case Some(v) => Indice(v)
  }

  /** The loop over the request's lines that stops at the first one containing
      "Indice:" and reads it. */
  function ScanIndice(lines: seq<string>): (r: IndiceScan)
    ensures r == NoIndice <==> forall i | 0 <= i < |lines| :: !Contains(lines[i], "Indice:")
    ensures forall i | 0 <= i < |lines| ::
      Contains(lines[i], "Indice:") && (forall j | 0 <= j < i :: !Contains(lines[j], "Indice:"))
      ==> r == IndiceOf(lines[i])
  {
    if lines == [] then NoIndice
    else if Contains(lines[0], "Indice:") then IndiceOf(lines[0])
    else
      var r := ScanIndice(lines[1..]);
      assert forall i | 1 <= i < |lines| :: lines[i] == lines[1..][i - 1];
      r
  }

  /** Lines none of which has a capital I never fail the scan. */
  lemma NoIndiceLines(lines: seq<string>)
    requires forall i | 0 <= i < |lines| :: 'I' !in lines[i]
    ensures ScanIndice(lines) == NoIndice
  {
    forall i | 0 <= i < |lines|
      ensures !Contains(lines[i], "Indice:")
    {
      MissingFirst(lines[i], "Indice:");
    }
  }

  /** The loop over the request's lines, stopping at the first "Indice:" line. */
  method FindIndice(request: seq<string>) returns (scan: IndiceScan)
    ensures scan == ScanIndice(request)
  {
    var i := 0;
    scan := NoIndice;
    while i < |request| && scan == NoIndice
      invariant 0 <= i <= |request|
      invariant ScanIndice(request) == if scan == NoIndice then ScanIndice(request[i..]) else scan
      decreases |request| - i
    {
      assert request[i..][0] == request[i] && request[i..][1..] == request[i + 1..];
      if Contains(request[i], "Indice:") {
        scan := IndiceOf(request[i]);
      }
      i := i + 1;
    }
  }

  // ---------------------------------------------------------------------------------
  // processRtspRequest

  /** The entries of `neighborInfo` the request handler reads and writes: `state`,
      `session` (the file last requested, `None` before any), `event` (`None` until a
      PLAY creates it, then whether it is set, which stops the sender thread), and the
      replies sent on the RTSP socket. */
  datatype Worker = Worker(state: RtspState, session: Option<string>, event: Option<bool>, replies: seq<string>)

  /** A new worker: INIT, nothing else recorded, nothing sent. */
  const Fresh := Worker(Init, None, None, [])

  /** The method named by the first word of the request line, if any. */
  function MethodOf(word: string): (r: Option<Method>)
    ensures r.Some? ==> MethodName(r.value) == word
    ensures forall m :: word == MethodName(m) ==> r == Some(m)
  {
    if word == "SETUP" then Some(Setup)
    else if word == "PLAY" then Some(Play)
    else if word == "PAUSE" then Some(Pause)
    else if word == "TEARDOWN" then Some(Teardown)
    else None
  }

  /** `replyRtsp(OK_200, seq[1], session)`: the 200 reply goes out when the CSeq line
      has a second word; `seq[1]` raises `IndexError` otherwise. */
  function Answered(w: Worker, cseqWords: seq<string>, session: string): (r: Option<Worker>)
    ensures r.Some? <==> |cseqWords| >= 2
  {
    if |cseqWords| < 2 then None
    else Some(w.(replies := w.replies + [ReplyText(cseqWords[1], session)]))
  }

  /** The worker after the handler has changed `w` and then tried to reply: with the
      reply when it went out, as it was when `seq[1]` raised. */
  function AnsweredOr(w: Worker, cseqWords: seq<string>, session: string): (r: Worker)
    ensures r.(replies := w.replies) == w
    ensures r.replies == w.replies || (|cseqWords| >= 2 && r.replies == w.replies + [ReplyText(cseqWords[1], session)])
  {
    var a := Answered(w, cseqWords, session);
    if a.Some? then a.value else w
  }

  /** What the handler does once it has read `m`, the CSeq line's words and the file
      name (already made the session): SETUP in INIT moves to READY if the file opens
      and replies either way; PLAY in READY moves to PLAYING, replies and then creates
      the sender's event; PAUSE in PLAYING moves to READY, sets the event and replies;
      TEARDOWN sets the event and replies; anything else does nothing. A missing event
      (`KeyError`) or CSeq word (`IndexError`) ends the handler where it is raised. */
  function Acted(w: Worker, m: Option<Method>, words: seq<string>, filename: string, opens: bool): Worker {
    match m
    case None => w
    case Some(Setup) =>
      if w.state != Init then w
      else AnsweredOr(w.(state := if opens then Ready else Init), words, filename)
    case Some(Play) =>
      if w.state != Ready then w
      else
        var a := Answered(w.(state := Playing), words, filename);
        if a.None? then w.(state := Playing) else a.value.(event := Some(false))
    case Some(Pause) =>
      if w.state != Playing then w
      else if w.event.None? then w.(state := Ready)
      else AnsweredOr(w.(state := Ready, event := Some(true)), words, filename)
    case Some(Teardown) =>
      if w.event.None? then w
      else AnsweredOr(w.(event := Some(true)), words, filename)
  }

  /** `processRtspRequest(data)`, where `opens` says whether `VideoStream(filename)`
      opens the file. */
  function Processed(w: Worker, data: string, opens: bool): Worker {
    var request := Split(data, '\n');
    var line1 := Split(request[0], ' ');
    if ScanIndice(request) == BadIndice || |line1| < 2 then w
    else
      var w1 := w.(session := Some(line1[1]));
      if |request| < 2 then w1
      else Acted(w1, MethodOf(line1[0]), Split(request[1], ' '), line1[1], opens)
  }

  /** The moves the worker's state may make: SETUP's INIT to READY, PLAY's READY to
      PLAYING and PAUSE's PLAYING to READY. */
  predicate Step(s: RtspState, t: RtspState) {
    s == t || (s == Init && t == Ready) || (s == Ready && t == Playing) || (s == Playing && t == Ready)
  }

  /** Every request moves the state along the RTSP state machine, sends at most one
      reply after those already sent, and, once the method word and the file name are
      read, makes the file the session. */
  lemma ProcessedSteps(w: Worker, data: string, opens: bool)
    ensures var r := Processed(w, data, opens);
      && Step(w.state, r.state)
      && w.replies <= r.replies && |r.replies| <= |w.replies| + 1
      && (r.session == w.session || r.session == Field(Split(data, '\n'), 0, 1))
  {
    var request := Split(data, '\n');
    var line1 := Split(request[0], ' ');
    if ScanIndice(request) != BadIndice && |line1| >= 2 && |request| >= 2 {
      ActedSteps(w.(session := Some(line1[1])), MethodOf(line1[0]), Split(request[1], ' '), line1[1], opens);
    }
  }

  /** The branch on the request type moves the state along the state machine, keeps
      the session, and sends at most one reply. */
  lemma ActedSteps(w: Worker, m: Option<Method>, words: seq<string>, filename: string, opens: bool)
    ensures var r := Acted(w, m, words, filename, opens);
      && Step(w.state, r.state) && r.session == w.session
      && w.replies <= r.replies && |r.replies| <= |w.replies| + 1
      && (|r.replies| > |w.replies| ==> |words| >= 2 && r.replies == w.replies + [ReplyText(words[1], filename)])
      && (r.state != w.state ==> m.Some? && m.value != Teardown && MaySend(w.state, m.value) && r.state == AckedState(m.value))
  {
    if m == Some(Play) && w.state == Ready && |words| >= 2 {
      assert Acted(w, m, words, filename, opens).replies == w.replies + [ReplyText(words[1], filename)];
    }
  }

  /** What the worker needs to answer `m`: SETUP in INIT, PLAY in READY, PAUSE in
      PLAYING once PLAY has created the event, TEARDOWN once that event exists. */
  predicate Answers(w: Worker, m: Method) {
    match m
    case Setup => w.state == Init
    case Play => w.state == Ready
    case Pause => w.state == Playing && w.event.Some?
    case Teardown => w.event.Some?
  }

  /** The state the worker is in after answering `m`: TEARDOWN does not move it. */
  function ServerAcked(s: RtspState, m: Method): (t: RtspState)
    ensures m != Teardown ==> t == AckedState(m)
  {
    if m == Teardown then s else AckedState(m)
  }

  /** The request text the clients send never fails the "Indice:" scan. */
  lemma RequestNoIndice(m: Method, file: string, cseq: nat, rtpPort: int, session: string)
    requires ' ' !in file && '\n' !in file && '\n' !in session && 'I' !in file && 'I' !in session
    ensures ScanIndice(Split(RequestText(m, file, cseq, rtpPort, session), '\n')) == NoIndice
  {
    RequestSplit(m, file, cseq, rtpPort, session);
    var lines := [RequestHead(m, file), RequestSeq(cseq), RequestLast(m, rtpPort, session), ""];
    assert 'I' !in " RTSP/1.0" && 'I' !in "CSeq: " && 'I' !in "Session: ";
    TransportNoIndice();
    assert 'I' !in RequestHead(m, file);
    IntToStringChars(rtpPort);
    assert 'I' !in NatToString(cseq) && 'I' !in IntToString(rtpPort);
    assert 'I' !in RequestLast(m, rtpPort, session);
    NoIndiceLines(lines);
  }

  /** The SETUP request's third line has no capital I before the port. */
  lemma TransportNoIndice()
    ensures 'I' !in "Transport: RTP/UDP; client_port= "
  {
    assert "Transport: RTP/UDP; client_port= " == "Transport: " + "RTP/UDP; " + "client_port= ";
    assert 'I' !in "Transport: " && 'I' !in "RTP/UDP; " && 'I' !in "client_port= ";
  }

  /** A client request the worker answers (the file opening, for SETUP): exactly one
      200 reply goes out, carrying the request's sequence number and the file as the
      session; the state moves as the request says, except that TEARDOWN leaves it; PLAY
      starts the sender, and PAUSE and TEARDOWN stop it. */
  lemma ServerAnswers(w: Worker, m: Method, file: string, cseq: nat, rtpPort: int, session: string)
    requires ' ' !in file && '\n' !in file && '\n' !in session && 'I' !in file && 'I' !in session
    requires Answers(w, m)
    ensures var r := Processed(w, RequestText(m, file, cseq, rtpPort, session), true);
      && r.replies == w.replies + [ReplyText(NatToString(cseq), file)]
      && r.session == Some(file)
      && r.state == ServerAcked(w.state, m)
      && r.event == (if m == Setup then w.event else Some(m != Play))
  {
    RequestLines(m, file, cseq, rtpPort, session);
    RequestNoIndice(m, file, cseq, rtpPort, session);
    LabelWords("CSeq: ", "CSeq:", NatToString(cseq));
  }

  /** A client request the worker does not answer sends nothing, and moves the state
      only for a PAUSE in PLAYING whose event is missing, which raises after the state
      became READY. */
  lemma ServerIgnores(w: Worker, m: Method, file: string, cseq: nat, rtpPort: int, session: string, opens: bool)
    requires ' ' !in file && '\n' !in file && '\n' !in session && 'I' !in file && 'I' !in session
    requires !Answers(w, m)
    ensures var r := Processed(w, RequestText(m, file, cseq, rtpPort, session), opens);
      && r.replies == w.replies
      && r.session == Some(file)
      && r.event == w.event
      && r.state == (if m == Pause && w.state == Playing then Ready else w.state)
  {
    RequestLines(m, file, cseq, rtpPort, session);
    RequestNoIndice(m, file, cseq, rtpPort, session);
  }

  /** A SETUP for a file that does not open still gets the 200 reply (the 404 is only
      logged), while the worker stays in INIT. */
  lemma MissingFileAnswered(w: Worker, file: string, cseq: nat, rtpPort: int, session: string)
    requires ' ' !in file && '\n' !in file && '\n' !in session && 'I' !in file && 'I' !in session
    requires w.state == Init
    ensures var r := Processed(w, RequestText(Setup, file, cseq, rtpPort, session), false);
      && r.replies == w.replies + [ReplyText(NatToString(cseq), file)]
      && r.state == Init
  {
    RequestLines(Setup, file, cseq, rtpPort, session);
    RequestNoIndice(Setup, file, cseq, rtpPort, session);
    LabelWords("CSeq: ", "CSeq:", NatToString(cseq));
  }

  /** A video session that sends `m` and a worker that answers it move in step: the
      client reads the one reply as the answer to its request and moves to the state
      `m` leads to, and the worker reaches the same state unless `m` is TEARDOWN, which
      takes the client back to INIT while the worker stays where it was. */
  lemma Lockstep(f: RtspSession.Fields, w: Worker, file: string, rtpPort: int, m: Method)
    requires MaySend(f.state, m) && Answers(w, m)
    requires ' ' !in file && '\n' !in file && 'I' !in file
    requires f.sessionId == None || f.sessionId == Some(file)
    ensures var sent := RtspSession.Requested(f, file, rtpPort, m);
      var r := Processed(w, sent.1.value, true);
      && |r.replies| == |w.replies| + 1
      && RtspSession.Replied(sent.0, r.replies[|w.replies|]).state == AckedState(m)
      && RtspSession.Replied(sent.0, r.replies[|w.replies|]).sessionId == Some(file)
      && (m != Teardown ==> r.state == AckedState(m))
  {
    var session := RtspSession.SessionText(f.sessionId);
    assert 'I' !in session && '\n' !in session;
    var sent := RtspSession.Requested(f, file, rtpPort, m);
    assert sent.1 == Some(RequestText(m, file, f.rtspSeq + 1, rtpPort, session));
    ServerAnswers(w, m, file, f.rtspSeq + 1, rtpPort, session);
    var r := Processed(w, sent.1.value, true);
    assert r.replies[|w.replies|] == ReplyText(NatToString(sent.0.rtspSeq), file);
    RtspSession.ReplyMovesState(f, file, rtpPort, m, file);
  }

  // ---------------------------------------------------------------------------------
  // The worker

  /** The server's worker. Its replies are appended to `replies`. */
  class ServerWorker {
    var state: RtspState
    var session: Option<string>
    var event: Option<bool>
    var replies: seq<string>

    function Snapshot(): Worker
      reads this
    {
      Worker(state, session, event, replies)
    }

    /** `ServerWorker(neighborInfo)` sets the state to INIT. */
    constructor ()
      ensures Snapshot() == Fresh
    {
      state := Init;
      session := None;
      event := None;
      replies := [];
    }

    /** `processRtspRequest(data)`, with `opens` standing for whether the video file
        opens. */
    method ProcessRtspRequest(data: string, opens: bool)
      modifies this
      ensures Snapshot() == Processed(old(Snapshot()), data, opens)
    {
      var request := Split(data, '\n');
      var line1 := Split(request[0], ' ');
      var requestType := line1[0];
      var scan := FindIndice(request);
      if scan == BadIndice || |line1| < 2 {
        return;
      }
      var filename := line1[1];
      session := Some(filename);
      if |request| < 2 {
        return;
      }
      var words := Split(request[1], ' ');
      Act(MethodOf(requestType), words, filename, opens);
    }

    /** The branch on the request type, after the file name became the session. */
    method Act(m: Option<Method>, words: seq<string>, filename: string, opens: bool)
      modifies this
      ensures Snapshot() == Acted(old(Snapshot()), m, words, filename, opens)
    {
      if m == Some(Setup) {
        if state == Init {
          if opens {
            state := Ready;
          }
          var ok := Reply(words, filename);
        }
      } else if m == Some(Play) {
        if state == Ready {
          state := Playing;
          var ok := Reply(words, filename);
          if ok {
            event := Some(false);
          }
        }
      } else if m == Some(Pause) {
        if state == Playing {
          state := Ready;
          if event.Some? {
            event := Some(true);
            var ok := Reply(words, filename);
          }
        }
      } else if m == Some(Teardown) {
        if event.Some? {
          event := Some(true);
          var ok := Reply(words, filename);
        }
      }
    }

    /** `replyRtsp(OK_200, seq[1], session)`: `ok` is false when `seq[1]` raises. */
    method Reply(cseqWords: seq<string>, name: string) returns (ok: bool)
      modifies this
      ensures ok <==> |cseqWords| >= 2
      ensures Answered(old(Snapshot()), cseqWords, name) == if ok then Some(Snapshot()) else None
      ensures !ok ==> Snapshot() == old(Snapshot())
    {
      ok := |cseqWords| >= 2;
      if ok {
        replies := replies + [ReplyText(cseqWords[1], name)];
      }
    }
  }

  // ---------------------------------------------------------------------------------
  // makeRtp

  /** `makeRtp(payload, frameNbr)`: a packet with version 2, no padding, extension or
      contributing sources, marker 0, payload type 98, SSRC 0 and the frame number as
      sequence number; `timestamp` is the clock reading `encode` takes. A frame number
      of 65536 or more makes a header byte exceed 255, which `bytearray` refuses, and
      there is no packet. */
  method MakeRtp(payload: seq<Rtp.Byte>, frameNbr: nat, timestamp: nat) returns (packet: Option<seq<Rtp.Byte>>)
    requires timestamp < 0x1_0000_0000
    ensures packet.Some? <==> frameNbr < 0x1_0000
    ensures packet.Some? ==> |packet.value| == Rtp.HEADER_SIZE + |payload|
    ensures packet.Some? && |packet.value| >= Rtp.HEADER_SIZE ==>
      var h := packet.value[..Rtp.HEADER_SIZE];
      && Rtp.Version(h) == 2 && Rtp.PayloadType(h) == 98
      && Rtp.SeqNum(h) == frameNbr && Rtp.Timestamp(h) == timestamp
      && h[8..] == [0, 0, 0, 0]
      && packet.value[Rtp.HEADER_SIZE..] == payload
  {
    if frameNbr >= 0x1_0000 {
      return None;
    }
    var rtpPacket := new Rtp.RtpPacket();
    rtpPacket.Encode(2, 0, 0, 0, frameNbr, 0, 98, 0, payload, [], timestamp);
    var p := rtpPacket.Packet();
    Rtp.HeaderFields(2, 0, 0, 0, frameNbr, 0, 98, 0, timestamp);
    packet := Some(p);
  }
}
