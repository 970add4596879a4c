/** `ONode.py`: the first overlay node. Its neighbour directory is keyed by node id and
    replaced wholesale by every registration response and every UPDATE_NEIGHBORS; it
    answers PING with PONG and pings the bootstrapper itself. */
module OverlayNode {
  import opened Common
  import opened OrdMap
  import opened Messages

  const CONTROL_PORT := 50051
  const DATA_PORT := 50052

  /** One neighbour's dictionary: its IP and ports. */
  datatype Entry = Entry(ip: IP, controlPort: int, dataPort: int)

  /** `self.neighbors`, keyed by node id in insertion order. */
  type Directory = OMap<string, Entry>

  /** The dictionary stored for one listing, its IP taken from the listing's `node_ip`. */
  function Listing(info: NeighborInfo): (e: Entry)
    ensures e.ip == info.nodeIp && e.controlPort == info.controlPort && e.dataPort == info.dataPort
  {
    Entry(info.nodeIp, info.controlPort, info.dataPort)
  }

  /** The directory after `handle_update_neighbors` has cleared it and stored `infos` in
      order. */
  function Replaced(infos: seq<NeighborInfo>): (d: Directory)
    ensures d.Valid()
  {
    if infos == [] then Empty()
    else Replaced(infos[..|infos| - 1]).Put(infos[|infos| - 1].nodeId, Listing(infos[|infos| - 1]))
  }

  /** The directory holds exactly the listed node ids. */
  lemma {:induction false} ReplacedKeys(infos: seq<NeighborInfo>)
    ensures forall id :: id in Replaced(infos).m <==> exists i | 0 <= i < |infos| :: infos[i].nodeId == id
  {
    if infos != [] {
      var front := infos[..|infos| - 1];
      ReplacedKeys(front);
      forall id
        ensures id in Replaced(infos).m <==> exists i | 0 <= i < |infos| :: infos[i].nodeId == id
      {
        if id in Replaced(front).m {
          var i :| 0 <= i < |front| && front[i].nodeId == id;
          assert infos[i].nodeId == id;
        }
        if exists i | 0 <= i < |infos| :: infos[i].nodeId == id {
          var i :| 0 <= i < |infos| && infos[i].nodeId == id;
          if i < |front| {
            assert front[i].nodeId == id;
          }
        }
      }
    }
  }

  /** A node id listed twice keeps its last listing. */
  lemma {:induction false} ReplacedLast(infos: seq<NeighborInfo>, i: nat)
    requires i < |infos|
    requires forall j | i < j < |infos| :: infos[j].nodeId != infos[i].nodeId
    ensures infos[i].nodeId in Replaced(infos).m
    ensures Replaced(infos).m[infos[i].nodeId] == Listing(infos[i])
  {
    if i < |infos| - 1 {
      ReplacedLast(infos[..|infos| - 1], i);
    }
  }

  // ---------------------------------------------------------------------------------
  // `handle_update_neighbors` as written reads `neighbor.ip`

  /** As written the loop reads `neighbor.ip`, a field `NeighborInfo` does not have: the
      first listing raises AttributeError after the directory was cleared, and the
      exception ends the handler. The flag says whether the handler returned. */
  function ReplacedAsWritten(d: Directory, infos: seq<NeighborInfo>): (r: (Directory, bool))
    ensures r.0.m == map[] && r.0.Valid()
    ensures r.1 <==> infos == []
  {
    (Empty(), infos == [])
  }

  /** A response listing one neighbour: as written the directory ends empty and the
      handler fails; with `node_ip` the neighbour is stored under its id. */
  lemma MissingFieldEmptiesDirectory()
    ensures var info := NeighborInfo("n2", "10.0.0.2", "node", 50051, 50052, 0);
      && ReplacedAsWritten(Empty(), [info]).0.m == map[]
      && !ReplacedAsWritten(Empty(), [info]).1
      && Replaced([info]).m == map["n2" := Entry("10.0.0.2", 50051, 50052)]
  {
    var info := NeighborInfo("n2", "10.0.0.2", "node", 50051, 50052, 0);
    assert [info][..0] == [];
  }

  // ---------------------------------------------------------------------------------
  // Messages

  /** REGISTER: id and ports, no IP. */
  function RegisterOf(id: string): (c: ControlMessage)
    ensures c.ctype == Register && c.nodeId == id && c.nodeIp == ""
    ensures c.controlPort == CONTROL_PORT && c.dataPort == DATA_PORT
  {
    Control(Register).(nodeId := id, controlPort := CONTROL_PORT, dataPort := DATA_PORT)
  }

  /** PING and PONG carry only the id. */
  function PingOf(id: string): (c: ControlMessage)
    ensures c.ctype == Ping && c.nodeId == id && c.nodeIp == ""
  {
    Control(Ping).(nodeId := id)
  }

  function PongOf(id: string): (c: ControlMessage)
    ensures c.ctype == ControlType.Pong && c.nodeId == id && c.nodeIp == ""
  {
    Control(ControlType.Pong).(nodeId := id)
  }

  /** `handle_control_connection`: a PING is answered on the connection and changes
      nothing; an UPDATE_NEIGHBORS replaces the directory; anything else is dropped. */
  function Controlled(id: string, d: Directory, c: ControlMessage): (r: (Directory, Option<ControlMessage>))
    ensures c.ctype == Ping ==> r == (d, Some(PongOf(id)))
    ensures c.ctype == UpdateNeighbors ==> r.1 == None
    ensures c.ctype == UpdateNeighbors ==>
              forall k :: k in r.0.m <==> exists i | 0 <= i < |c.neighbors| :: c.neighbors[i].nodeId == k
    ensures c.ctype !in {Ping, UpdateNeighbors} ==> r == (d, None)
  {
    ReplacedKeys(c.neighbors);
    if c.ctype == Ping then (d, Some(PongOf(id)))
    else if c.ctype == UpdateNeighbors then (Replaced(c.neighbors), None)
    else (d, None)
  }

  // ---------------------------------------------------------------------------------
  // The node

  class Node {
    const nodeId: string
    var neighbors: Directory
    /** `self.bootstrapper`: None until registration. */
    var bootstrapper: Option<IP>

    function State(): (Directory, Option<IP>)
      reads this
    {
      (neighbors, bootstrapper)
    }

    constructor (nodeId: string)
      ensures this.nodeId == nodeId && State() == (Empty(), None)
    {
      this.nodeId := nodeId;
      neighbors := Empty();
      bootstrapper := None;
    }

    /** `handle_update_neighbors`, reading each neighbour's `node_ip`. */
    method HandleUpdateNeighbors(infos: seq<NeighborInfo>)
      modifies this
      ensures neighbors == Replaced(infos) && bootstrapper == old(bootstrapper)
    {
      neighbors := Empty();
      var i := 0;
      while i < |infos|
        invariant 0 <= i <= |infos|
        invariant neighbors == Replaced(infos[..i]) && bootstrapper == old(bootstrapper)
      {
        assert infos[..i + 1][..i] == infos[..i];
        neighbors := neighbors.Put(infos[i].nodeId, Listing(infos[i]));
        i := i + 1;
      }
      assert infos[..i] == infos;
    }

    /** `register_with_bootstrapper`: `request` is the REGISTER sent to the bootstrapper,
        `reply` its answer; a REGISTER_RESPONSE replaces the directory. */
    method RegisterWithBootstrapper(boot: IP, reply: ControlMessage) returns (request: Send)
      modifies this
      ensures request == Send(boot, ControlMsg(RegisterOf(nodeId)))
      ensures bootstrapper == Some(boot)
      ensures neighbors == if reply.ctype == RegisterResponse then Replaced(reply.neighbors) else old(neighbors)
    {
      bootstrapper := Some(boot);
      request := Send(boot, ControlMsg(RegisterOf(nodeId)));
      if reply.ctype == RegisterResponse {
        HandleUpdateNeighbors(reply.neighbors);
      }
    }

    /** `handle_control_connection`, for one message: the answer written back, if any. */
    method HandleControlConnection(c: ControlMessage) returns (answer: Option<ControlMessage>)
      modifies this
      ensures (neighbors, answer) == Controlled(nodeId, old(neighbors), c)
      ensures bootstrapper == old(bootstrapper)
    {
      answer := None;
      if c.ctype == Ping {
        answer := Some(PongOf(nodeId));
      } else if c.ctype == UpdateNeighbors {
        HandleUpdateNeighbors(c.neighbors);
      }
    }

    /** One iteration of `send_ping`: a PING to the bootstrapper; before registration the
        connection fails and nothing is sent. */
    method SendPing() returns (sent: Option<Send>)
      ensures bootstrapper.None? <==> sent.None?
      ensures bootstrapper.Some? ==> sent == Some(Send(bootstrapper.value, ControlMsg(PingOf(nodeId))))
    {
      if bootstrapper.Some? {
        sent := Some(Send(bootstrapper.value, ControlMsg(PingOf(nodeId))));
      } else {
        sent := None;
      }
    }
  }
}
