/** `etapa3/ESR-TP2/ClientOk.py`: a client that registers with the bootstrapper, keeps its
    neighbour table alive under "failed-attempts", and opens numbered video sessions to its
    point of presence, each of which can be closed once its video has stopped. */
module SessionClient {
  import opened Common
  import opened OrdMap
  import opened Messages
  import opened Liveness
  import opened Peers

  const CONTROL_PORT := 5001
  const DATA_PORT := 5002

  /** A client with the fixed ports and type "client". */
  function ClientIdentity(id: string, ip: IP): (me: Identity)
    ensures me.nodeType == "client" && me.controlPort == CONTROL_PORT && me.dataPort == DATA_PORT
  {
    Identity(id, ip, "client", CONTROL_PORT, DATA_PORT)
  }

  /** Listed neighbours start active with no failure, the sweep counts "failed-attempts",
      and an expiry is not reported (the call is commented out). */
  const ClientRules := Rules(ListedActive, AnnouncedTentativas, FailedAttempts, None)

  /** An unknown announcer has no "failed-attempts" key, which the sweep reads as zero:
      like a listed neighbour, it expires at the third sweep exactly when the first two
      probes are lost. */
  lemma NewcomerCountsFromZero(s: PeerState, c: ControlMessage, p1: Probe, p2: Probe, p3: Probe)
    requires s.neighbors.Valid() && c.nodeIp !in s.neighbors.m
    ensures var n := Announced(ClientRules, s, c).neighbors.m[c.nodeIp];
      var n3 := SweepEntry(SweepEntry(SweepEntry(n, p1, FailedAttempts), p2, FailedAttempts), p3, FailedAttempts);
      && n == AnnouncedTentativas(c)
      && Count(n, FailedAttempts) == 0
      && (IsInactive(n3) <==> p1 == Lost && p2 == Lost)
  {
    AnnounceEffect(s.neighbors, c.nodeIp, AnnouncedTentativas(c));
    ThreeSweepsToExpire(AnnouncedTentativas(c), p1, p2, p3, FailedAttempts);
  }

  // ---------------------------------------------------------------------------------
  // Video sessions

  /** What a `VideoSession` is opened with: the point of presence, the RTP port, the file
      and the session's number. */
  datatype SessionArgs = SessionArgs(nodeAddr: IP, nodePort: int, rtpPort: int, fileName: string, sessionId: nat)

  /** `session_count` and `sessions` */
  datatype Registry = Registry(count: nat, open: map<nat, SessionArgs>)

  /** Every open session is stored under its own number, between 1 and the count. */
  predicate Numbered(r: Registry) {
    forall id | id in r.open :: 1 <= id <= r.count && r.open[id].sessionId == id
  }

  /** `start_new_session`: the count goes up by one and the new session is stored under
      the new count. */
  function Opened(r: Registry, nodeAddr: IP, nodePort: int, rtpPort: int, fileName: string): Registry {
    Registry(r.count + 1, r.open[r.count + 1 := SessionArgs(nodeAddr, nodePort, rtpPort, fileName, r.count + 1)])
  }

  /** `close_session`: an open session whose video is not active is removed; otherwise
      nothing changes. */
  function Closed(r: Registry, id: nat, videoActive: bool): Registry {
    if id in r.open && !videoActive then r.(open := r.open - {id}) else r
  }

  /** A new session gets a number no open session has, and the others are untouched. */
  lemma OpenedFresh(r: Registry, nodeAddr: IP, nodePort: int, rtpPort: int, fileName: string)
    requires Numbered(r)
    ensures var r2 := Opened(r, nodeAddr, nodePort, rtpPort, fileName);
      && r2.count == r.count + 1
      && r.count + 1 !in r.open
      && r2.open.Keys == r.open.Keys + {r2.count}
      && r2.open[r2.count] == SessionArgs(nodeAddr, nodePort, rtpPort, fileName, r2.count)
      && (forall id | id in r.open :: r2.open[id] == r.open[id])
      && Numbered(r2)
  {
  }

  /** Closing removes exactly that session when it is open and its video has stopped; in
      every case the count and the other sessions stay as they were. */
  lemma ClosedEffect(r: Registry, id: nat, videoActive: bool)
    requires Numbered(r)
    ensures var r2 := Closed(r, id, videoActive);
      && r2.count == r.count
      && (id in r.open && !videoActive ==> r2.open.Keys == r.open.Keys - {id})
      && (id !in r.open || videoActive ==> r2 == r)
      && (forall k | k in r2.open :: k in r.open && r2.open[k] == r.open[k])
      && Numbered(r2)
  {
  }

  /** Closing a session just opened, before its video starts, gives back the sessions
      there were; only the count remembers it. */
  lemma CloseUndoesOpen(r: Registry, nodeAddr: IP, nodePort: int, rtpPort: int, fileName: string)
    requires Numbered(r)
    ensures var r2 := Opened(r, nodeAddr, nodePort, rtpPort, fileName);
      Closed(r2, r2.count, false) == Registry(r.count + 1, r.open)
  {
    var r2 := Opened(r, nodeAddr, nodePort, rtpPort, fileName);
    assert r.count + 1 !in r.open;
    assert r2.open - {r2.count} == r.open;
  }

  // ---------------------------------------------------------------------------------
  // The client

  class Client {
    /** The neighbour-table part of the client. */
    const peer: Peer
    const nodeAddr: IP
    const nodePort: int
    const rtpPort: int
    const fileName: string
    var sessionCount: nat
    var sessions: map<nat, SessionArgs>

    function Sessions(): Registry
      reads this
    {
      Registry(sessionCount, sessions)
    }

    /** `Client(...)` before registration: no neighbours and no session. */
    constructor (id: string, ip: IP, nodeAddr: IP, nodePort: int, rtpPort: int, fileName: string)
      ensures fresh(peer) && peer.Valid() && peer.State() == PeerState(Empty(), [])
      ensures peer.me == ClientIdentity(id, ip) && peer.rules == ClientRules
      ensures this.nodeAddr == nodeAddr && this.nodePort == nodePort && this.rtpPort == rtpPort && this.fileName == fileName
      ensures Sessions() == Registry(0, map[]) && Numbered(Sessions())
    {
      peer := new Peer(ClientIdentity(id, ip), ClientRules);
      this.nodeAddr := nodeAddr;
      this.nodePort := nodePort;
      this.rtpPort := rtpPort;
      this.fileName := fileName;
      sessionCount := 0;
      sessions := map[];
    }

    /** `start_new_session`: `id` is the new session's number. */
    method StartNewSession() returns (id: nat)
      modifies this
      ensures Sessions() == Opened(old(Sessions()), nodeAddr, nodePort, rtpPort, fileName)
      ensures id == sessionCount
    {
      sessionCount := sessionCount + 1;
      id := sessionCount;
      sessions := sessions[id := SessionArgs(nodeAddr, nodePort, rtpPort, fileName, id)];
    }

    /** `close_session`, given whether that session's video is active. */
    method CloseSession(id: nat, videoActive: bool)
      modifies this
      ensures Sessions() == Closed(old(Sessions()), id, videoActive)
    {
      if id in sessions && !videoActive {
        sessions := sessions - {id};
      }
    }
  }
}
