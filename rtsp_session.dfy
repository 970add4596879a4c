/** `etapa3/VideoSession.py`: the RTSP client of a video session. It sends a request only
    in the state that allows it, accepts a reply only when its CSeq is the last one sent
    and its session is the one first accepted, moves along the RTSP state machine on a
    200 reply, and tracks the newest frame number of the RTP packets it receives. */
module RtspSession {
  import opened Common
  import opened Text
  import opened Rtsp

  /** The fields the session updates: `state`, `rtspSeq`, `requestSent` (`None` for the
      initial -1), `sessionId` (`None` until the first accepted reply), `teardownAcked`,
      `frameNbr` and `active`. */
  datatype Fields = Fields(
    state: RtspState, rtspSeq: nat, requestSent: Option<Method>, sessionId: Option<string>,
    teardownAcked: bool, frameNbr: nat, active: bool)

  /** A session just opened. */
  const Start := Fields(Init, 0, None, None, false, 0, false)

  /** The session as the request text prints it: Python prints a missing one as "None". */
  function SessionText(id: Option<string>): string {
    if id.Some? then id.value else "None"
  }

  /** What the fields always satisfy: outside INIT a session has been accepted, a
      request has been sent whenever the sequence number moved, and a request recorded
      was counted. */
  predicate WellFormed(f: Fields) {
    && (f.state != Init ==> f.sessionId.Some? && f.requestSent.Some?)
    && (f.requestSent.Some? <==> f.rtspSeq > 0)
  }

  // ---------------------------------------------------------------------------------
  // sendRtspRequest

  /** `sendRtspRequest(m)`: when the state allows `m`, the sequence number goes up by
      one, `m` is recorded, and the request text is sent; otherwise nothing changes and
      nothing is sent. */
  function Requested(f: Fields, file: string, rtpPort: int, m: Method): (r: (Fields, Option<string>))
    ensures r.1.Some? <==> MaySend(f.state, m)
    ensures !MaySend(f.state, m) ==> r.0 == f
    ensures MaySend(f.state, m) ==> r.0 == f.(rtspSeq := f.rtspSeq + 1, requestSent := Some(m))
  {
    if !MaySend(f.state, m) then (f, None)
    else
      var n := f.rtspSeq + 1;
      (f.(rtspSeq := n, requestSent := Some(m)), Some(RequestText(m, file, n, rtpPort, SessionText(f.sessionId))))
  }

  /** A request sent carries the method, the file and the new sequence number where
      the server reads them, and, for SETUP, the client's RTP port where the point of
      presence reads it. */
  lemma RequestedReadable(f: Fields, file: string, rtpPort: int, m: Method)
    requires ' ' !in file && '\n' !in file && '\n' !in SessionText(f.sessionId)
    requires MaySend(f.state, m)
    ensures var lines := Split(Requested(f, file, rtpPort, m).1.value, '\n');
      && |lines| == 4
      && Field(lines, 0, 0) == Some(MethodName(m))
      && Field(lines, 0, 1) == Some(file)
      && ReadInt(lines, 1, 1) == Some(f.rtspSeq + 1)
      && (m == Setup ==> lines[2] == "Transport: RTP/UDP; client_port= " + IntToString(rtpPort))
      && (m != Setup ==> lines[2] == "Session: " + SessionText(f.sessionId))
  {
    RequestLines(m, file, f.rtspSeq + 1, rtpPort, SessionText(f.sessionId));
    ParseNatToString(f.rtspSeq + 1);
  }

  // ---------------------------------------------------------------------------------
  // parseRtspReply

  /** What a 200 reply does to the request recorded: SETUP and PAUSE lead to READY, PLAY
      to PLAYING, and TEARDOWN to INIT with the teardown acknowledged and the video
      stopped. */
  function Acknowledged(f: Fields): (r: Fields)
    ensures f.requestSent.None? ==> r == f
    ensures f.requestSent.Some? ==> r.state == AckedState(f.requestSent.value)
  {
    match f.requestSent
    case None => f
    case Some(Setup) => f.(state := Ready)
    case Some(Play) => f.(state := Playing)
    case Some(Pause) => f.(state := Ready)
    case Some(Teardown) => f.(state := Init, teardownAcked := true, active := false)
  }

  /** `parseRtspReply(data)`: the reply is read line by line, and each read that raises
      ends the handler with what was changed before it. A reply whose CSeq is not the
      last one sent changes nothing; otherwise the first session seen is adopted, a reply
      for another session changes nothing more, and a 200 status moves the state. */
  function Replied(f: Fields, data: string): Fields {
    var lines := Split(data, '\n');
    match ReadInt(lines, 1, 1)
    case None => f
    case Some(cseq) =>
      if cseq != f.rtspSeq then f
      else match Field(lines, 2, 1)
        case None => f
        case Some(session) =>
          var f1 := if f.sessionId.None? then f.(sessionId := Some(session)) else f;
          if f1.sessionId != Some(session) then f1
          else if ReadInt(lines, 0, 1) == Some(200) then Acknowledged(f1)
          else f1
  }

  /** A reply whose CSeq is not the last one sent is ignored. */
  lemma StaleReplyIgnored(f: Fields, data: string)
    requires ReadInt(Split(data, '\n'), 1, 1) != Some(f.rtspSeq)
    ensures Replied(f, data) == f
  {
  }

  /** Once a session is accepted, a reply naming another one changes nothing, and no
      reply ever replaces the session. */
  lemma SessionFixed(f: Fields, data: string)
    requires f.sessionId.Some?
    ensures Replied(f, data).sessionId == f.sessionId
    ensures Field(Split(data, '\n'), 2, 1) != f.sessionId ==> Replied(f, data) == f
  {
  }

  /** The server's 200 reply to the request just sent, naming the session the client
      holds or any session if it holds none, moves the client to the state that request
      leads to and fixes the session. */
  lemma ReplyMovesState(f: Fields, file: string, rtpPort: int, m: Method, session: string)
    requires MaySend(f.state, m)
    requires ' ' !in session && '\n' !in session && f.sessionId in {None, Some(session)}
    ensures var f1 := Requested(f, file, rtpPort, m).0;
      var f2 := Replied(f1, ReplyText(NatToString(f1.rtspSeq), session));
      && f2.state == AckedState(m)
      && f2.sessionId == Some(session)
      && f2.rtspSeq == f.rtspSeq + 1
      && f2.teardownAcked == (f.teardownAcked || m == Teardown)
  {
    var f1 := Requested(f, file, rtpPort, m).0;
    var cseq := NatToString(f1.rtspSeq);
    ReplyLines(cseq, session);
    ParseNatToString(f1.rtspSeq);
    Status200();
  }

  // ---------------------------------------------------------------------------------
  // listenRtp

  /** One packet with sequence number `cur`: a newer frame replaces the frame number;
      then, if the video had started and the packet is the first frame, the count
      restarts at zero, and otherwise the video is marked as started. */
  function Received(f: Fields, cur: nat): Fields {
    var f1 := if cur > f.frameNbr then f.(frameNbr := cur) else f;
    if f.active && cur == 1 then f1.(frameNbr := 0) else f1.(active := true)
  }

  /** The frame number never goes back, except to zero when a started video receives
      its first frame again; after any packet the video counts as started. */
  lemma FrameRule(f: Fields, cur: nat)
    ensures var r := Received(f, cur);
      && r.active
      && (f.active && cur == 1 ==> r.frameNbr == 0)
      && (!(f.active && cur == 1) ==> r.frameNbr >= f.frameNbr && r.frameNbr >= cur)
      && (!(f.active && cur == 1) ==> r.frameNbr == f.frameNbr || r.frameNbr == cur)
      && r.(frameNbr := f.frameNbr, active := f.active) == f
  {
  }

  // ---------------------------------------------------------------------------------
  // The invariant

  /** A request sent keeps the fields well formed. */
  lemma RequestedWellFormed(f: Fields, file: string, rtpPort: int, m: Method)
    requires WellFormed(f)
    ensures WellFormed(Requested(f, file, rtpPort, m).0)
  {
  }

  /** A reply keeps the fields well formed: a state other than INIT is reached only
      through an accepted reply, which has fixed the session. */
  lemma RepliedWellFormed(f: Fields, data: string)
    requires WellFormed(f)
    ensures WellFormed(Replied(f, data))
  {
    var lines := Split(data, '\n');
    if ReadInt(lines, 1, 1) == Some(f.rtspSeq) && Field(lines, 2, 1).Some? {
      var session := Field(lines, 2, 1).value;
      var f1 := if f.sessionId.None? then f.(sessionId := Some(session)) else f;
      assert WellFormed(f1);
      if f1.sessionId == Some(session) && ReadInt(lines, 0, 1) == Some(200) {
        assert Replied(f, data) == Acknowledged(f1);
      }
    }
  }

  /** A packet keeps the fields well formed. */
  lemma ReceivedWellFormed(f: Fields, cur: nat)
    requires WellFormed(f)
    ensures WellFormed(Received(f, cur))
  {
  }

  // ---------------------------------------------------------------------------------
  // The session

  class VideoSession {
    const fileName: string
    const rtpPort: int
    var state: RtspState
    var rtspSeq: nat
    var requestSent: Option<Method>
    var sessionId: Option<string>
    var teardownAcked: bool
    var frameNbr: nat
    var active: bool
    /** Every request written to the RTSP connection, in order. */
    var sent: seq<string>

    function Snapshot(): Fields
      reads this
    {
      Fields(state, rtspSeq, requestSent, sessionId, teardownAcked, frameNbr, active)
    }

    predicate Valid()
      reads this
    {
      WellFormed(Snapshot())
    }

    /** `VideoSession(...)`: INIT, nothing sent, no session. */
    constructor (fileName: string, rtpPort: int)
      ensures this.fileName == fileName && this.rtpPort == rtpPort
      ensures Snapshot() == Start && sent == [] && Valid()
    {
      this.fileName := fileName;
      this.rtpPort := rtpPort;
      state := Init;
      rtspSeq := 0;
      requestSent := None;
      sessionId := None;
      teardownAcked := false;
      frameNbr := 0;
      active := false;
      sent := [];
    }

    /** `sendRtspRequest(m)` */
    method SendRtspRequest(m: Method)
      requires Valid()
      modifies this
      ensures Snapshot() == Requested(old(Snapshot()), fileName, rtpPort, m).0
      ensures sent == old(sent) + (var r := Requested(old(Snapshot()), fileName, rtpPort, m).1; if r.Some? then [r.value] else [])
      ensures Valid()
    {
      RequestedWellFormed(Snapshot(), fileName, rtpPort, m);
      var request: string;
      if m == Setup && state == Init {
        rtspSeq := rtspSeq + 1;
        request := RequestText(Setup, fileName, rtspSeq, rtpPort, SessionText(sessionId));
        requestSent := Some(Setup);
      } else if m == Play && state == Ready {
        rtspSeq := rtspSeq + 1;
        request := RequestText(Play, fileName, rtspSeq, rtpPort, SessionText(sessionId));
        requestSent := Some(Play);
      } else if m == Pause && state == Playing {
        rtspSeq := rtspSeq + 1;
        request := RequestText(Pause, fileName, rtspSeq, rtpPort, SessionText(sessionId));
        requestSent := Some(Pause);
      } else if m == Teardown && state != Init {
        rtspSeq := rtspSeq + 1;
        request := RequestText(Teardown, fileName, rtspSeq, rtpPort, SessionText(sessionId));
        requestSent := Some(Teardown);
      } else {
        return;
      }
      sent := sent + [request];
    }

    /** `parseRtspReply(data)` */
    method ParseRtspReply(data: string)
      requires Valid()
      modifies this
      ensures Snapshot() == Replied(old(Snapshot()), data)
      ensures sent == old(sent) && Valid()
    {
      RepliedWellFormed(Snapshot(), data);
      var lines := Split(data, '\n');
      var seqNum := ReadInt(lines, 1, 1);
      if seqNum.None? || seqNum.value != rtspSeq {
        return;
      }
      var session := Field(lines, 2, 1);
      if session.None? {
        return;
      }
      if sessionId.None? {
        sessionId := session;
      }
      if sessionId == session && ReadInt(lines, 0, 1) == Some(200) {
        Acknowledge();
      }
    }

    /** The state change of a 200 reply to the request recorded. */
    method Acknowledge()
      modifies this
      ensures Snapshot() == Acknowledged(old(Snapshot())) && sent == old(sent)
    {
      if requestSent == Some(Setup) {
        state := Ready;
      } else if requestSent == Some(Play) {
        state := Playing;
      } else if requestSent == Some(Pause) {
        state := Ready;
      } else if requestSent == Some(Teardown) {
        state := Init;
        teardownAcked := true;
        active := false;
      }
    }

    /** One packet of `listenRtp`, with sequence number `cur`. */
    method ReceiveFrame(cur: nat)
      requires Valid()
      modifies this
      ensures Snapshot() == Received(old(Snapshot()), cur)
      ensures sent == old(sent) && Valid()
    {
      ReceivedWellFormed(Snapshot(), cur);
      if cur > frameNbr {
        frameNbr := cur;
      }
      if active && cur == 1 {
        frameNbr := 0;
      } else {
        active := true;
      }
    }
  }
}
