/** `ProgEx/Python/Client.py`: a video client that is also an overlay peer. Its neighbour
    table follows the "failed-attempts" sweep, without a node type and with a
    "tentativas" key for unknown announcers; its RTSP side sends the same requests as
    the video session, reads the session as an integer (0 meaning none yet), and only
    ever moves the frame number forward. */
module RtspPlayer {
  import opened Common
  import opened OrdMap
  import opened Messages
  import opened Liveness
  import opened Peers
  import opened Text
  import opened Rtsp
  import PointOfPresence

  const CONTROL_PORT := 5001
  const DATA_PORT := 5002

  /** The client as it announces itself: no type. */
  function PlayerIdentity(id: string, ip: IP): (me: Identity)
    ensures me.id == id && me.ip == ip && me.nodeType == ""
    ensures me.controlPort == CONTROL_PORT && me.dataPort == DATA_PORT
  {
    Identity(id, ip, "", CONTROL_PORT, DATA_PORT)
  }

  /** Listed neighbours start active with no failure; an unknown announcer gets a
      "tentativas" key instead, which the sweep never reads; the sweep counts
      "failed-attempts", and an expiry is not reported (the call is commented out). */
  const PlayerRules := Rules(ListedUntyped, AnnouncedUntypedTentativas, FailedAttempts, None)

  /** An unknown announcer has no "failed-attempts" key, which the sweep reads as zero:
      it expires at the third sweep exactly when the first two probes are lost, like a
      listed neighbour. */
  lemma AnnouncerCountsFromZero(s: PeerState, c: ControlMessage, p1: Probe, p2: Probe, p3: Probe)
    requires s.neighbors.Valid() && c.nodeIp !in s.neighbors.m
    ensures var n := Announced(PlayerRules, s, c).neighbors.m[c.nodeIp];
      var n3 := SweepEntry(SweepEntry(SweepEntry(n, p1, FailedAttempts), p2, FailedAttempts), p3, FailedAttempts);
      && n.tentativas == Some(0) && n.failed == None && n.nodeType == ""
      && Count(n, FailedAttempts) == 0
      && (IsInactive(n3) <==> p1 == Lost && p2 == Lost)
  {
    AnnounceEffect(s.neighbors, c.nodeIp, AnnouncedUntypedTentativas(c));
    ThreeSweepsToExpire(AnnouncedUntypedTentativas(c), p1, p2, p3, FailedAttempts);
  }

  // ---------------------------------------------------------------------------------
  // The RTSP side

  /** The fields the player updates: `state`, `rtspSeq`, `requestSent` (`None` for the
      initial -1), `sessionId` (0 until a reply fixes it), `teardownAcked` and
      `frameNbr`. */
  datatype Fields = Fields(
    state: RtspState, rtspSeq: nat, requestSent: Option<Method>, sessionId: int,
    teardownAcked: bool, frameNbr: int)

  /** A player just created. */
  const Start := Fields(Init, 0, None, 0, false, 0)

  /** Outside INIT a request has been sent and answered, and a request recorded was
      counted. */
  predicate WellFormed(f: Fields) {
    && (f.state != Init ==> f.requestSent.Some?)
    && (f.requestSent.Some? <==> f.rtspSeq > 0)
  }

  /** `sendRtspRequest(m)`: when the state allows `m`, the sequence number goes up by
      one, `m` is recorded, and the request is sent with the session printed as a
      number; otherwise nothing changes and nothing is sent. */
  function Requested(f: Fields, file: string, rtpPort: int, m: Method): (r: (Fields, Option<string>))
    ensures r.1.Some? <==> MaySend(f.state, m)
    ensures !MaySend(f.state, m) ==> r.0 == f
    ensures MaySend(f.state, m) ==> r.0 == f.(rtspSeq := f.rtspSeq + 1, requestSent := Some(m))
  {
    if !MaySend(f.state, m) then (f, None)
    else
      var n := f.rtspSeq + 1;
      (f.(rtspSeq := n, requestSent := Some(m)), Some(RequestText(m, file, n, rtpPort, IntToString(f.sessionId))))
  }

  /** The player's SETUP, relayed by the point of presence, gives the point of presence
      the player's RTP port. */
  lemma SetupThroughPop(cfg: PointOfPresence.Config, f: Fields, file: string, rtpPort: int)
    requires ' ' !in file && '\n' !in file && f.state == Init
    ensures var request := Requested(f, file, rtpPort, Setup).1.value;
      PointOfPresence.RtpPortOf(PointOfPresence.Augmented(cfg, request)) == Some(rtpPort)
  {
    var session := IntToString(f.sessionId);
    assert '\n' !in session;
    assert Requested(f, file, rtpPort, Setup).1.value == RequestText(Setup, file, f.rtspSeq + 1, rtpPort, session);
    PointOfPresence.SetupPortRoundTrip(cfg, file, f.rtspSeq + 1, rtpPort, session);
  }

  /** What a 200 reply does to the request recorded. */
  function Acknowledged(f: Fields): (r: Fields)
    ensures f.requestSent.None? ==> r == f
    ensures f.requestSent.Some? ==> r.state == AckedState(f.requestSent.value)
  {
    match f.requestSent
    case None => f
    case Some(Setup) => f.(state := Ready)
    case Some(Play) => f.(state := Playing)
    case Some(Pause) => f.(state := Ready)
    case Some(Teardown) => f.(state := Init, teardownAcked := true)
  }

  /** `parseRtspReply(data)`: as the video session's, except that the session is read
      with `int()` (a reply whose session is not a number ends the handler before any
      change) and 0 stands for no session yet. */
  function Replied(f: Fields, data: string): Fields {
    var lines := Split(data, '\n');
    match ReadInt(lines, 1, 1)
    case None => f
    case Some(cseq) =>
      if cseq != f.rtspSeq then f
      else match ReadInt(lines, 2, 1)
        case None => f
        case Some(session) =>
          var f1 := if f.sessionId == 0 then f.(sessionId := session) else f;
          if f1.sessionId != session then f1
          else if ReadInt(lines, 0, 1) == Some(200) then Acknowledged(f1)
          else f1
  }

  /** A reply whose CSeq is not the last one sent is ignored. */
  lemma StaleReplyIgnored(f: Fields, data: string)
    requires ReadInt(Split(data, '\n'), 1, 1) != Some(f.rtspSeq)
    ensures Replied(f, data) == f
  {
  }

  /** Once a non-zero session is held, a reply naming another one changes nothing, and
      no reply replaces the session. */
  lemma SessionFixed(f: Fields, data: string)
    requires f.sessionId != 0
    ensures Replied(f, data).sessionId == f.sessionId
    ensures ReadInt(Split(data, '\n'), 2, 1) != Some(f.sessionId) ==> Replied(f, data) == f
  {
  }

  /** The server's 200 reply to the request just sent, naming the session held (or any
      session while none is), moves the player to the state the request leads to. */
  lemma ReplyMovesState(f: Fields, file: string, rtpPort: int, m: Method, session: nat)
    requires MaySend(f.state, m) && f.sessionId in {0, session}
    ensures var f1 := Requested(f, file, rtpPort, m).0;
      var f2 := Replied(f1, ReplyText(NatToString(f1.rtspSeq), NatToString(session)));
      && f2.state == AckedState(m)
      && f2.sessionId == session
      && f2.rtspSeq == f.rtspSeq + 1
  {
    var f1 := Requested(f, file, rtpPort, m).0;
    ReplyLines(NatToString(f1.rtspSeq), NatToString(session));
    ParseNatToString(f1.rtspSeq);
    ParseNatToString(session);
    Status200();
  }

  /** `listenRtp` for one packet with sequence number `cur`: a newer frame replaces the
      frame number, a late one is discarded. */
  function Received(f: Fields, cur: int): (r: Fields)
  {
    if cur > f.frameNbr then f.(frameNbr := cur) else f
  }

  /** The frame number is the largest sequence number seen: it never goes back, and
      nothing else changes. */
  lemma FrameOnlyForward(f: Fields, cur: int)
    ensures var r := Received(f, cur);
      && r.frameNbr >= f.frameNbr && r.frameNbr >= cur
      && (r.frameNbr == f.frameNbr || r.frameNbr == cur)
      && r.(frameNbr := f.frameNbr) == f
  {
  }

  /** A request sent keeps the fields well formed. */
  lemma RequestedWellFormed(f: Fields, file: string, rtpPort: int, m: Method)
    requires WellFormed(f)
    ensures WellFormed(Requested(f, file, rtpPort, m).0)
  {
  }

  /** A reply keeps the fields well formed. */
  lemma RepliedWellFormed(f: Fields, data: string)
    requires WellFormed(f)
    ensures WellFormed(Replied(f, data))
  {
    var lines := Split(data, '\n');
    if ReadInt(lines, 1, 1) == Some(f.rtspSeq) && ReadInt(lines, 2, 1).Some? {
      var session := ReadInt(lines, 2, 1).value;
      var f1 := if f.sessionId == 0 then f.(sessionId := session) else f;
      if f1.sessionId == session && ReadInt(lines, 0, 1) == Some(200) {
        assert Replied(f, data) == Acknowledged(f1);
      }
    }
  }

  // ---------------------------------------------------------------------------------
  // The player

  class Player {
    /** The neighbour-table part of the player. */
    const peer: Peer
    const fileName: string
    const rtpPort: int
    var state: RtspState
    var rtspSeq: nat
    var requestSent: Option<Method>
    var sessionId: int
    var teardownAcked: bool
    var frameNbr: int
    /** Every request written to the RTSP connection, in order. */
    var sent: seq<string>

    function Snapshot(): Fields
      reads this
    {
      Fields(state, rtspSeq, requestSent, sessionId, teardownAcked, frameNbr)
    }

    ghost predicate Valid()
      reads this, peer
    {
      WellFormed(Snapshot()) && peer.Valid() && peer.rules == PlayerRules
    }

    /** `Client(...)` before registration. */
    constructor (id: string, ip: IP, fileName: string, rtpPort: int)
      ensures fresh(peer) && peer.me == PlayerIdentity(id, ip) && peer.State() == PeerState(Empty(), [])
      ensures this.fileName == fileName && this.rtpPort == rtpPort
      ensures Snapshot() == Start && sent == [] && Valid()
    {
      peer := new Peer(PlayerIdentity(id, ip), PlayerRules);
      this.fileName := fileName;
      this.rtpPort := rtpPort;
      state := Init;
      rtspSeq := 0;
      requestSent := None;
      sessionId := 0;
      teardownAcked := false;
      frameNbr := 0;
      sent := [];
    }

    /** `sendRtspRequest(m)` */
    method SendRtspRequest(m: Method)
      requires Valid()
      modifies this
      ensures Snapshot() == Requested(old(Snapshot()), fileName, rtpPort, m).0
      ensures sent == old(sent) + (var r := Requested(old(Snapshot()), fileName, rtpPort, m).1; if r.Some? then [r.value] else [])
      ensures Valid()
    {
      RequestedWellFormed(Snapshot(), fileName, rtpPort, m);
      if !MaySend(state, m) {
        return;
      }
      rtspSeq := rtspSeq + 1;
      var request := RequestText(m, fileName, rtspSeq, rtpPort, IntToString(sessionId));
      requestSent := Some(m);
      sent := sent + [request];
    }

    /** `parseRtspReply(data)` */
    method ParseRtspReply(data: string)
      requires Valid()
      modifies this
      ensures Snapshot() == Replied(old(Snapshot()), data)
      ensures sent == old(sent) && Valid()
    {
      RepliedWellFormed(Snapshot(), data);
      var lines := Split(data, '\n');
      var seqNum := ReadInt(lines, 1, 1);
      if seqNum.None? || seqNum.value != rtspSeq {
        return;
      }
      var session := ReadInt(lines, 2, 1);
      if session.None? {
        return;
      }
      if sessionId == 0 {
        sessionId := session.value;
      }
      if sessionId == session.value && ReadInt(lines, 0, 1) == Some(200) {
        Acknowledge();
      }
    }

    /** The state change of a 200 reply to the request recorded. */
    method Acknowledge()
      modifies this
      ensures Snapshot() == Acknowledged(old(Snapshot())) && sent == old(sent)
    {
      if requestSent == Some(Setup) {
        state := Ready;
      } else if requestSent == Some(Play) {
        state := Playing;
      } else if requestSent == Some(Pause) {
        state := Ready;
      } else if requestSent == Some(Teardown) {
        state := Init;
        teardownAcked := true;
      }
    }

    /** One packet of `listenRtp`, with sequence number `cur`. */
    method ReceiveFrame(cur: int)
      requires Valid()
      modifies this
      ensures Snapshot() == Received(old(Snapshot()), cur)
      ensures sent == old(sent) && Valid()
    {
      if cur > frameNbr {
        frameNbr := cur;
      }
    }
  }
}
