/** The neighbour table every node keeps, and the liveness rules most of the node
    variants share: wholesale replacement on a registration response, insert-or-reactivate
    on a neighbour announcement, the reset a PING from a neighbour causes, and the probe
    sweep whose failure counter makes a silent neighbour inactive. */
module Liveness {
  import opened Common
  import opened OrdMap
  import opened Messages

  /** One neighbour's dictionary. Keys that some variants never store are `None` there;
      `nodeType` and `rtspPort` read "" and 0 in the variants that do not store them, which
      never read them either. */
  datatype Neighbor = Neighbor(
    nodeId: string, controlPort: int, dataPort: int, nodeType: string, rtspPort: int,
    status: Option<Status>, failed: Option<nat>, tentativas: Option<nat>,
    bestTime: Option<Cost>, accTime: Option<Cost>, rtpPort: Option<int>)

  /** The neighbour table, keyed by IP in insertion order. */
  type Table = OMap<IP, Neighbor>

  /** The key a variant counts failed probes under: "failed-attempts" or "tentativas". */
  datatype Counter = FailedAttempts | Tentativas

  /** `neighbor.get(key, 0)` */
  function Count(n: Neighbor, c: Counter): nat {
    match c
    case FailedAttempts => n.failed.GetOr(0)
    case Tentativas => n.tentativas.GetOr(0)
  }

  /** `neighbor[key] = v` */
  function WithCount(n: Neighbor, c: Counter, v: nat): (r: Neighbor)
    ensures Count(r, c) == v
  {
    match c
    case FailedAttempts => n.(failed := Some(v))
    case Tentativas => n.(tentativas := Some(v))
  }

  /** A neighbour the sweep does not touch. */
  predicate IsInactive(n: Neighbor) {
    n.status == Some(Inactive)
  }

  // ---------------------------------------------------------------------------------
  // Registration response: `neighbors.clear()` then one insertion per listed neighbour.

  /** The table after the registration loop has inserted `infos` in order, each entry
      built by the variant's `entry` function. */
  function Rebuild(infos: seq<NeighborInfo>, entry: NeighborInfo -> Neighbor): (t: Table)
    ensures t.Valid()
  {
    if infos == [] then Empty()
    else Rebuild(infos[..|infos| - 1], entry).Put(infos[|infos| - 1].nodeIp, entry(infos[|infos| - 1]))
  }

  /** The entry most variants store for a neighbour listed in a registration response:
      its id, ports and type, active, no failed attempt, and no RTSP port. */
  function ListedActive(info: NeighborInfo): (n: Neighbor)
    ensures n.status == Some(Active) && n.failed == Some(0) && n.tentativas == None
    ensures n.nodeId == info.nodeId && n.controlPort == info.controlPort && n.dataPort == info.dataPort
  {
    Neighbor(info.nodeId, info.controlPort, info.dataPort, info.nodeType, 0,
             Some(Active), Some(0), None, None, None, None)
  }

  /** The entry most variants store for an unknown announcer of UPDATE_NEIGHBORS: its id,
      ports and type, active, no failed attempt. */
  function AnnouncedActive(c: ControlMessage): (n: Neighbor)
    ensures n.status == Some(Active) && n.failed == Some(0) && n.tentativas == None
    ensures n.nodeId == c.nodeId && n.controlPort == c.controlPort && n.dataPort == c.dataPort && n.nodeType == c.nodeType
  {
    Neighbor(c.nodeId, c.controlPort, c.dataPort, c.nodeType, 0, Some(Active), Some(0), None, None, None, None)
  }

  /** The entry the clients store for an unknown announcer: a "tentativas" key at 0 and no
      "failed-attempts" key. */
  function AnnouncedTentativas(c: ControlMessage): (n: Neighbor)
    ensures n.status == Some(Active) && n.tentativas == Some(0) && n.failed == None
    ensures n.nodeId == c.nodeId && n.controlPort == c.controlPort && n.dataPort == c.dataPort && n.nodeType == c.nodeType
  {
    Neighbor(c.nodeId, c.controlPort, c.dataPort, c.nodeType, 0, Some(Active), None, Some(0), None, None, None)
  }

  /** The variants that never send a node type store no "node_type" key, read here as
      the empty type: a listed neighbour, active with no failed attempt. */
  function ListedUntyped(info: NeighborInfo): (n: Neighbor)
    ensures n.status == Some(Active) && n.failed == Some(0) && n.tentativas == None && n.nodeType == ""
    ensures n.nodeId == info.nodeId && n.controlPort == info.controlPort && n.dataPort == info.dataPort
  {
    Neighbor(info.nodeId, info.controlPort, info.dataPort, "", 0, Some(Active), Some(0), None, None, None, None)
  }

  /** An unknown announcer without a type, active with no failed attempt. */
  function AnnouncedUntyped(c: ControlMessage): (n: Neighbor)
    ensures n.status == Some(Active) && n.failed == Some(0) && n.tentativas == None && n.nodeType == ""
    ensures n.nodeId == c.nodeId && n.controlPort == c.controlPort && n.dataPort == c.dataPort
  {
    Neighbor(c.nodeId, c.controlPort, c.dataPort, "", 0, Some(Active), Some(0), None, None, None, None)
  }

  /** An unknown announcer without a type, with a "tentativas" key at 0 and no
      "failed-attempts" key. */
  function AnnouncedUntypedTentativas(c: ControlMessage): (n: Neighbor)
    ensures n.status == Some(Active) && n.tentativas == Some(0) && n.failed == None && n.nodeType == ""
    ensures n.nodeId == c.nodeId && n.controlPort == c.controlPort && n.dataPort == c.dataPort
  {
    Neighbor(c.nodeId, c.controlPort, c.dataPort, "", 0, Some(Active), None, Some(0), None, None, None)
  }

  /** The registration loop. */
  method Register(infos: seq<NeighborInfo>, entry: NeighborInfo -> Neighbor) returns (t: Table)
    ensures t == Rebuild(infos, entry)
  {
    t := Empty();
    var i := 0;
    while i < |infos|
      invariant 0 <= i <= |infos|
      invariant t == Rebuild(infos[..i], entry)
    {
      assert infos[..i + 1][..i] == infos[..i];
      t := t.Put(infos[i].nodeIp, entry(infos[i]));
      i := i + 1;
    }
    assert infos[..i] == infos;
  }

  /** After a registration the table holds exactly the listed IPs. */
  lemma {:induction false} RebuildKeys(infos: seq<NeighborInfo>, entry: NeighborInfo -> Neighbor)
    ensures forall ip :: ip in Rebuild(infos, entry).m <==> exists i | 0 <= i < |infos| :: infos[i].nodeIp == ip
  {
    if infos != [] {
      var front := infos[..|infos| - 1];
      RebuildKeys(front, entry);
      forall ip
        ensures ip in Rebuild(infos, entry).m <==> exists i | 0 <= i < |infos| :: infos[i].nodeIp == ip
      {
        if ip in Rebuild(front, entry).m {
          var i :| 0 <= i < |front| && front[i].nodeIp == ip;
          assert infos[i].nodeIp == ip;
        }
        if exists i | 0 <= i < |infos| :: infos[i].nodeIp == ip {
          var i :| 0 <= i < |infos| && infos[i].nodeIp == ip;
          if i < |front| {
            assert front[i].nodeIp == ip;
          }
        }
      }
    }
  }

  /** Each IP holds the entry built from its last listing: a later listing of the same IP
      overwrites an earlier one. */
  lemma {:induction false} RebuildLast(infos: seq<NeighborInfo>, entry: NeighborInfo -> Neighbor, i: nat)
    requires i < |infos|
    requires forall j | i < j < |infos| :: infos[j].nodeIp != infos[i].nodeIp
    ensures infos[i].nodeIp in Rebuild(infos, entry).m
    ensures Rebuild(infos, entry).m[infos[i].nodeIp] == entry(infos[i])
  {
    if i < |infos| - 1 {
      var front := infos[..|infos| - 1];
      RebuildLast(front, entry, i);
    }
  }

  /** Every entry of a rebuilt table is the entry built from some listing of its IP. */
  lemma {:induction false} RebuildEntries(infos: seq<NeighborInfo>, entry: NeighborInfo -> Neighbor)
    ensures forall ip | ip in Rebuild(infos, entry).m ::
      exists i | 0 <= i < |infos| :: infos[i].nodeIp == ip && Rebuild(infos, entry).m[ip] == entry(infos[i])
  {
    if infos != [] {
      var front := infos[..|infos| - 1];
      RebuildEntries(front, entry);
      forall ip | ip in Rebuild(infos, entry).m
        ensures exists i | 0 <= i < |infos| :: infos[i].nodeIp == ip && Rebuild(infos, entry).m[ip] == entry(infos[i])
      {
        if ip != infos[|infos| - 1].nodeIp {
          assert Rebuild(infos, entry).m == Rebuild(front, entry).m[infos[|infos| - 1].nodeIp := entry(infos[|infos| - 1])];
          assert ip in Rebuild(front, entry).m;
          var i :| 0 <= i < |front| && front[i].nodeIp == ip && Rebuild(front, entry).m[ip] == entry(front[i]);
          assert infos[i] == front[i];
        }
      }
    }
  }

  // ---------------------------------------------------------------------------------
  // UPDATE_NEIGHBORS

  /** A known IP only becomes active again; an unknown IP is inserted as `newcomer`. */
  function Announce(t: Table, ip: IP, newcomer: Neighbor): (r: Table)
    requires t.Valid()
    ensures r.Valid()
  {
    if ip in t.m then t.Put(ip, t.m[ip].(status := Some(Active))) else t.Put(ip, newcomer)
  }

  /** What an announcement changes: one entry, and for a known neighbour only its status. */
  lemma AnnounceEffect(t: Table, ip: IP, newcomer: Neighbor)
    requires t.Valid()
    ensures Announce(t, ip, newcomer).m.Keys == t.m.Keys + {ip}
    ensures ip in t.m ==> Announce(t, ip, newcomer).m[ip] == t.m[ip].(status := Some(Active))
    ensures ip !in t.m ==> Announce(t, ip, newcomer).m[ip] == newcomer
    ensures forall k | k in t.m && k != ip :: Announce(t, ip, newcomer).m[k] == t.m[k]
    ensures ip in t.m ==> Announce(t, ip, newcomer).keys == t.keys
  {
  }

  // ---------------------------------------------------------------------------------
  // A PING received from a neighbour

  /** The sender's counter goes back to 0 and it is active again, if it is a neighbour. */
  function PingedBy(t: Table, ip: IP, c: Counter): (r: Table)
    requires t.Valid()
    ensures r.Valid()
  {
    if ip in t.m then t.Put(ip, WithCount(t.m[ip], c, 0).(status := Some(Active))) else t
  }

  lemma PingedByEffect(t: Table, ip: IP, c: Counter)
    requires t.Valid()
    ensures PingedBy(t, ip, c).keys == t.keys
    ensures ip in t.m ==> Count(PingedBy(t, ip, c).m[ip], c) == 0 && PingedBy(t, ip, c).m[ip].status == Some(Active)
    ensures ip !in t.m ==> PingedBy(t, ip, c) == t
    ensures forall k | k in t.m && k != ip :: PingedBy(t, ip, c).m[k] == t.m[k]
  {
  }

  // ---------------------------------------------------------------------------------
  // The probe sweep

  /** What probing one neighbour gave: a PONG after `rtt`, a reply that is empty or not a
      PONG, or an exception (refused connection, timeout, unparsable reply). */
  datatype Probe = Pong(rtt: nat) | Silent | Lost

  /** What the sweep did with a neighbour, in table order. */
  datatype SweepEvent = Probed(ip: IP) | Expired(ip: IP)

  /** One iteration of the sweep loop: inactive neighbours are skipped, a neighbour with
      two or more failures is marked inactive without a probe, the others are probed. */
  function SweepEntry(n: Neighbor, p: Probe, c: Counter): Neighbor {
    if IsInactive(n) then n
    else if Count(n, c) >= 2 then n.(status := Some(Inactive))
    else
      match p
      case Pong(_) => WithCount(n, c, 0).(status := Some(Active))
      case Silent => n
      case Lost => WithCount(n, c, Count(n, c) + 1)
  }

  /** The table after a sweep: the same keys, each entry swept once. */
  function SweepTable(t: Table, probes: IP -> Probe, c: Counter): (r: Table)
    requires t.Valid()
    ensures r.Valid() && r.keys == t.keys && r.m.Keys == t.m.Keys
  {
    OMap(t.keys, map ip | ip in t.m :: SweepEntry(t.m[ip], probes(ip), c))
  }

  function EventOf(ip: IP, n: Neighbor, c: Counter): seq<SweepEvent> {
    if IsInactive(n) then []
    else if Count(n, c) >= 2 then [Expired(ip)]
    else [Probed(ip)]
  }

  /** The events of a sweep over `keys`, in order. */
  function Events(keys: seq<IP>, m: map<IP, Neighbor>, c: Counter): seq<SweepEvent>
    requires forall i | 0 <= i < |keys| :: keys[i] in m
  {
    if keys == [] then []
    else Events(keys[..|keys| - 1], m, c) + EventOf(keys[|keys| - 1], m[keys[|keys| - 1]], c)
  }

  /** The sweep of one entry, as a function of its key and current value. */
  function SweepFn(probes: IP -> Probe, c: Counter): (IP, Neighbor) -> Neighbor {
    (ip: IP, n: Neighbor) => SweepEntry(n, probes(ip), c)
  }

  /** The sweep loop over a snapshot of the table's keys. */
  method Sweep(t: Table, probes: IP -> Probe, c: Counter) returns (r: Table, events: seq<SweepEvent>)
    requires t.Valid()
    ensures r == SweepTable(t, probes, c)
    ensures events == Events(t.keys, t.m, c)
  {
    r, events := SweepKeys(t, probes, c);
    SweepTableUpdated(t, probes, c);
  }

  /** The loop itself: every key of the snapshot, in order. */
  method SweepKeys(t: Table, probes: IP -> Probe, c: Counter) returns (r: Table, events: seq<SweepEvent>)
    requires t.Valid()
    ensures r == OMap(t.keys, UpdatedPrefix(t.keys, t.m, SweepFn(probes, c), |t.keys|))
    ensures events == Events(t.keys, t.m, c)
  {
    r := t;
    events := [];
    var i := 0;
    while i < |t.keys|
      invariant 0 <= i <= |t.keys|
      invariant r.keys == t.keys && r.m == UpdatedPrefix(t.keys, t.m, SweepFn(probes, c), i)
      invariant events == Events(t.keys[..i], t.m, c)
    {
      r, events := SweepEntryAt(t, probes, c, i, r, events);
      i := i + 1;
    }
    assert t.keys[..i] == t.keys;
  }

  /** Before the `i`-th key of a snapshot is swept it still holds its old entry, and
      sweeping it gives the table after `i + 1` keys. */
  lemma SweepPrefixNext(t: Table, probes: IP -> Probe, c: Counter, i: nat)
    requires t.Valid() && i < |t.keys|
    ensures t.keys[i] in UpdatedPrefix(t.keys, t.m, SweepFn(probes, c), i)
    ensures UpdatedPrefix(t.keys, t.m, SweepFn(probes, c), i)[t.keys[i]] == t.m[t.keys[i]]
    ensures UpdatedPrefix(t.keys, t.m, SweepFn(probes, c), i + 1) ==
      UpdatedPrefix(t.keys, t.m, SweepFn(probes, c), i)[t.keys[i] := SweepEntry(t.m[t.keys[i]], probes(t.keys[i]), c)]
  {
    UpdatedPrefixNext(t, SweepFn(probes, c), i);
  }

  /** The swept table is the table after every key, in order, has been updated by
      `SweepFn`. */
  lemma SweepTableUpdated(t: Table, probes: IP -> Probe, c: Counter)
    requires t.Valid()
    ensures SweepTable(t, probes, c) == OMap(t.keys, UpdatedPrefix(t.keys, t.m, SweepFn(probes, c), |t.keys|))
  {
    UpdatedAll(t, SweepFn(probes, c));
  }

  /** One iteration of the sweep loop: the `i`-th key of the snapshot is swept and its
      event recorded. */
  method SweepEntryAt(t: Table, probes: IP -> Probe, c: Counter, i: nat, r: Table, events: seq<SweepEvent>)
    returns (r': Table, events': seq<SweepEvent>)
    requires t.Valid() && i < |t.keys|
    requires r.keys == t.keys && r.m == UpdatedPrefix(t.keys, t.m, SweepFn(probes, c), i)
    requires events == Events(t.keys[..i], t.m, c)
    ensures r'.keys == t.keys && r'.m == UpdatedPrefix(t.keys, t.m, SweepFn(probes, c), i + 1)
    ensures events' == Events(t.keys[..i + 1], t.m, c)
  {
    var ip := t.keys[i];
    UpdatedPrefixNext(t, SweepFn(probes, c), i);
    var n := r.m[ip];
    r' := r.Put(ip, SweepEntry(n, probes(ip), c));
    EventsStep(t.keys, t.m, c, i);
    events' := events + EventOf(ip, n, c);
  }

  /** One more key of the snapshot adds that key's event. */
  lemma EventsStep(keys: seq<IP>, m: map<IP, Neighbor>, c: Counter, i: nat)
    requires forall j | 0 <= j < |keys| :: keys[j] in m
    requires i < |keys|
    ensures Events(keys[..i + 1], m, c) == Events(keys[..i], m, c) + EventOf(keys[i], m[keys[i]], c)
  {
    assert keys[..i + 1][..i] == keys[..i];
  }

  /** A neighbour ends a sweep inactive exactly when it was inactive already or had two
      failed probes; the counter moves only when a probe is lost (up by one) or answered
      (back to zero). */
  lemma SweepEntryEffect(n: Neighbor, p: Probe, c: Counter)
    ensures IsInactive(SweepEntry(n, p, c)) <==> IsInactive(n) || Count(n, c) >= 2
    ensures !IsInactive(n) && Count(n, c) < 2 && p == Lost ==> Count(SweepEntry(n, p, c), c) == Count(n, c) + 1
    ensures !IsInactive(n) && Count(n, c) < 2 && p.Pong? ==>
              Count(SweepEntry(n, p, c), c) == 0 && SweepEntry(n, p, c).status == Some(Active)
    ensures IsInactive(n) || Count(n, c) >= 2 || p == Silent ==> Count(SweepEntry(n, p, c), c) == Count(n, c)
    ensures SweepEntry(n, p, c).nodeId == n.nodeId && SweepEntry(n, p, c).controlPort == n.controlPort
  {
  }

  /** Starting from a live neighbour with no failures, the third sweep marks it inactive
      exactly when the first two probes were both lost; two sweeps never do. */
  lemma ThreeSweepsToExpire(n: Neighbor, p1: Probe, p2: Probe, p3: Probe, c: Counter)
    requires !IsInactive(n) && Count(n, c) == 0
    ensures !IsInactive(SweepEntry(SweepEntry(n, p1, c), p2, c))
    ensures IsInactive(SweepEntry(SweepEntry(SweepEntry(n, p1, c), p2, c), p3, c)) <==> p1 == Lost && p2 == Lost
  {
    SweepEntryEffect(n, p1, c);
    var n1 := SweepEntry(n, p1, c);
    SweepEntryEffect(n1, p2, c);
    var n2 := SweepEntry(n1, p2, c);
    SweepEntryEffect(n2, p3, c);
  }

  /** The sweep probes each live neighbour below the threshold and expires each live
      neighbour at it; inactive neighbours produce no event. */
  lemma {:induction false} EventsContents(keys: seq<IP>, m: map<IP, Neighbor>, c: Counter, ip: IP)
    requires forall i | 0 <= i < |keys| :: keys[i] in m
    ensures Probed(ip) in Events(keys, m, c) <==> ip in keys && !IsInactive(m[ip]) && Count(m[ip], c) < 2
    ensures Expired(ip) in Events(keys, m, c) <==> ip in keys && !IsInactive(m[ip]) && Count(m[ip], c) >= 2
  {
    if keys != [] {
      var front := keys[..|keys| - 1];
      EventsContents(front, m, c, ip);
      assert keys == front + [keys[|keys| - 1]];
    }
  }

  /** The PINGs of a sweep: `ping` to each neighbour the sweep probes, in order. */
  function Pings(ping: ControlMessage, events: seq<SweepEvent>): (r: seq<Send>)
    ensures |r| <= |events|
  {
    if events == [] then []
    else
      var e := events[|events| - 1];
      Pings(ping, events[..|events| - 1]) + (if e.Probed? then [Send(e.ip, ControlMsg(ping))] else [])
  }

  /** The PINGs of two stretches of a sweep, one after the other. */
  lemma {:induction false} PingsAppend(ping: ControlMessage, a: seq<SweepEvent>, b: seq<SweepEvent>)
    ensures Pings(ping, a + b) == Pings(ping, a) + Pings(ping, b)
    decreases |b|
  {
    if b == [] {
      assert a + b == a;
    } else {
      var front := b[..|b| - 1];
      PingsAppend(ping, a, front);
      assert (a + b)[..|a + b| - 1] == a + front && (a + b)[|a + b| - 1] == b[|b| - 1];
    }
  }

  /** A sweep sends a PING to a neighbour exactly when it probes it. */
  lemma {:induction false} PingsContents(ping: ControlMessage, events: seq<SweepEvent>, ip: IP)
    ensures Send(ip, ControlMsg(ping)) in Pings(ping, events) <==> Probed(ip) in events
  {
    if events != [] {
      var front := events[..|events| - 1];
      PingsContents(ping, front, ip);
      assert events == front + [events[|events| - 1]];
    }
  }

  // ---------------------------------------------------------------------------------
  // notify_neighbors_registration

  /** One copy of `c` to each of `ips`, in order. */
  function Broadcast(c: ControlMessage, ips: seq<IP>): (r: seq<Send>)
    ensures |r| == |ips|
    ensures forall i | 0 <= i < |ips| :: r[i] == Send(ips[i], ControlMsg(c))
  {
    if ips == [] then []
    else Broadcast(c, ips[..|ips| - 1]) + [Send(ips[|ips| - 1], ControlMsg(c))]
  }

  /** The announcement loop: `c` sent to each of `ips` after what `outbox` already holds. */
  method Notify(outbox: seq<Send>, c: ControlMessage, ips: seq<IP>) returns (r: seq<Send>)
    ensures r == outbox + Broadcast(c, ips)
  {
    r := outbox;
    var i := 0;
    while i < |ips|
      invariant 0 <= i <= |ips|
      invariant r == outbox + Broadcast(c, ips[..i])
    {
      assert ips[..i + 1][..i] == ips[..i];
      r := r + [Send(ips[i], ControlMsg(c))];
      i := i + 1;
    }
    assert ips[..i] == ips;
  }
}
