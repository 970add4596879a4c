/** The messages the nodes exchange, as values, and the one-byte framing that tells a
    control message from a flooding message on the wire. The protocol-buffer encoding of
    the message bodies is not modelled: a body is carried as opaque bytes. */
module Messages {
  import opened Common

  newtype byte = x: int | 0 <= x < 256

  /** `ControlMessage.MessageType`; the two generated modules number the last value
      differently (ACK in one, INACTIVE_NODE in the other), so both are listed. */
  datatype ControlType = Register | RegisterResponse | Ping | Pong | UpdateNeighbors | Ack | InactiveNode

  /** `NeighborInfo`: one neighbour in a registration response. */
  datatype NeighborInfo = NeighborInfo(
    nodeId: string, nodeIp: IP, nodeType: string, controlPort: int, dataPort: int, rtspPort: int)

  /** `ControlMessage`. Unset protocol-buffer fields read as "" and 0. */
  datatype ControlMessage = ControlMessage(
    ctype: ControlType, nodeIp: IP, nodeId: string, nodeType: string,
    neighbors: seq<NeighborInfo>, controlPort: int, dataPort: int,
    accumulatedTime: Cost, rtspPort: int)

  /** A control message of the given type with every other field unset. */
  function Control(t: ControlType): (c: ControlMessage)
    ensures c.ctype == t && c.neighbors == [] && c.nodeIp == "" && c.nodeId == ""
  {
    ControlMessage(t, "", "", "", [], 0, 0, Fin(0), 0)
  }

  /** `FloodingMessage.MessageType` */
  datatype FloodType = FloodingUpdate | ActivateRoute | DeactivateRoute

  /** `FloodingMessage`. `hops` is the hop counter the hop-count variants read and write. */
  datatype FloodingMessage = FloodingMessage(
    ftype: FloodType, sourceId: string, streamIds: seq<string>, sourceIp: IP,
    routeState: string, hops: int, controlPort: int, rtspPort: int, rtpPort: int)

  /** A flooding message of the given type with every other field unset. */
  function Flooding(t: FloodType): (f: FloodingMessage)
    ensures f.ftype == t && f.streamIds == [] && f.sourceIp == "" && f.hops == 0
  {
    FloodingMessage(t, "", [], "", "", 0, 0, 0, 0)
  }

  /** What a node puts on a connection: a control message, a flooding message, or RTSP
      text (the `ACTIVE` announcement and the RTSP requests and replies). */
  datatype Payload = ControlMsg(c: ControlMessage) | FloodingMsg(f: FloodingMessage) | Text(s: string)

  /** One outbound message and the address it is sent to. */
  datatype Send = Send(to: IP, payload: Payload)

  // ---------------------------------------------------------------------------------
  // Framing: a tag byte 0x01 (control) or 0x02 (flooding) followed by the body.

  datatype Kind = ControlKind | FloodingKind

  const CONTROL_TAG: byte := 0x01
  const FLOODING_TAG: byte := 0x02

  function Tag(k: Kind): byte {
    match k
    case ControlKind => CONTROL_TAG
    case FloodingKind => FLOODING_TAG
  }

  /** `header + message.SerializeToString()` */
  function Frame(k: Kind, body: seq<byte>): (r: seq<byte>)
    ensures |r| == |body| + 1 && r[1..] == body
  {
    [Tag(k)] + body
  }

  /** The receiving side: the first byte selects the kind, anything but 0x01 or 0x02
      (or an empty read) is ignored. */
  function Unframe(data: seq<byte>): (r: Option<(Kind, seq<byte>)>)
    ensures r.Some? <==> |data| > 0 && (data[0] == CONTROL_TAG || data[0] == FLOODING_TAG)
  {
    if |data| == 0 then None
    else if data[0] == CONTROL_TAG then Some((ControlKind, data[1..]))
    else if data[0] == FLOODING_TAG then Some((FloodingKind, data[1..]))
    else None
  }

  /** Framing is undone by unframing, and a frame is the only thing that unframes to its
      kind and body. */
  lemma FrameRoundTrip(k: Kind, body: seq<byte>, data: seq<byte>)
    ensures Unframe(Frame(k, body)) == Some((k, body))
    ensures Unframe(data) == Some((k, body)) ==> data == Frame(k, body)
  {
    if Unframe(data) == Some((k, body)) {
      assert data == [data[0]] + data[1..];
    }
  }
}
