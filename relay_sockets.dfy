/** The upstream RTSP connections of the relay node (`neighbors_rtsp` in
    `etapa3/Node.py`) and the way `deactivate_routes` closes them. A connection is kept
    per neighbour: `create_rtsp_connection` stores one socket under the neighbour and
    overwrites it on every call, whatever the stream. `deactivate_routes`, once a stream
    has no receivers left, closes and deletes the socket of every route it switches off,
    so a second stream through the same neighbour finds no socket and the loop stops with
    `KeyError` before telling that route, and before reaching the routes after it. The
    functions here state the loop as written; `RelaySpec.Deactivate` is the loop as
    intended, where every switched-off route is told. */
module RelaySockets {
  import opened Common
  import opened OrdMap
  import opened Messages
  import opened Liveness
  import opened RelaySpec

  /** The neighbours whose `neighbors_rtsp` entry holds an `rtsp_socket`. */
  type Sockets = set<IP>

  /** `create_rtsp_connection(filename, ip, port)`: when the connection succeeds the
      socket is stored under `ip`, replacing any earlier one; the stream plays no part. */
  function Connect(sk: Sockets, ip: IP, connected: bool): (r: Sockets)
    ensures ip in r <==> connected || ip in sk
    ensures forall x | x != ip :: x in r <==> x in sk
  {
    if connected then sk + {ip} else sk
  }

  /** Where the loop as written got to: the state, the sockets left, and whether it
      stopped with an exception. */
  datatype Run = Run(s: RelayState, sockets: Sockets, raised: bool)

  /** One iteration of `deactivate_routes(dest, f)` as written, at destination `ip`. A
      carrying route is switched off; then the session of `f` is read again, and when it
      is empty the socket of `ip` is closed and deleted. A missing session or a missing
      socket raises `KeyError` after the switch-off and before the DEACTIVATE_ROUTE. */
  function DeactivateAtAsWritten(cfg: Config, s: RelayState, sk: Sockets, dest: IP, f: string, ip: IP): (r: Run)
    ensures !r.raised ==> r.s == DeactivateAt(cfg, s, dest, f, ip)
    ensures r.raised ==> r.s.outbox == s.outbox && r.s.routing == DeactivateAt(cfg, s, dest, f, ip).routing
    ensures r.s.neighbors == s.neighbors && r.s.sessions == s.sessions && r.sockets <= sk
  {
    if ip != dest && ip in s.routing.m && Carrying(s.routing.m[ip], f) then
      var rows := s.routing.m[ip];
      var off := s.(routing := s.routing.Put(ip, rows.Put(f, SwitchedOff(rows.m[f]))));
      var told := off.(outbox := off.outbox + [Send(ip, FloodingMsg(DeactivateMsg(cfg, f)))]);
      if f !in s.sessions.m then Run(off, sk, true)
      else if s.sessions.m[f].m != map[] then Run(told, sk, false)
      else if ip in sk then Run(told, sk - {ip}, false)
      else Run(off, sk, true)
    else Run(s, sk, false)
  }

  /** The loop as written over the destinations `keys`, stopping at the first exception. */
  function DeactivateOverAsWritten(cfg: Config, s: RelayState, sk: Sockets, dest: IP, f: string, keys: seq<IP>): (r: Run)
    ensures r.s.neighbors == s.neighbors && r.s.sessions == s.sessions && r.sockets <= sk
  {
    if keys == [] then Run(s, sk, false)
    else
      var prev := DeactivateOverAsWritten(cfg, s, sk, dest, f, keys[..|keys| - 1]);
      if prev.raised then prev
      else DeactivateAtAsWritten(cfg, prev.s, prev.sockets, dest, f, keys[|keys| - 1])
  }

  /** `deactivate_routes(dest, f)` as written, over a snapshot of the routing table. */
  function DeactivateAsWritten(cfg: Config, s: RelayState, sk: Sockets, dest: IP, f: string): Run {
    DeactivateOverAsWritten(cfg, s, sk, dest, f, s.routing.keys)
  }

  /** While the stream still has a receiver, as after an activation (etapa3/Node.py:510,
      where the requester has just joined), the loop as written closes nothing, never
      raises, and does exactly what the intended loop does. */
  lemma {:induction false} ReceiversKeepSockets(cfg: Config, s: RelayState, sk: Sockets, dest: IP, f: string, keys: seq<IP>)
    requires f in s.sessions.m && s.sessions.m[f].m != map[]
    ensures DeactivateOverAsWritten(cfg, s, sk, dest, f, keys) == Run(DeactivateOver(cfg, s, dest, f, keys), sk, false)
  {
    if keys != [] {
      ReceiversKeepSockets(cfg, s, sk, dest, f, keys[..|keys| - 1]);
    }
  }

  /** Every route `CarryingExcept` lists is one of `keys`. */
  lemma {:induction false} CarryingExceptIn(routing: Routing, dest: IP, f: string, keys: seq<IP>)
    ensures forall ip | ip in CarryingExcept(routing, dest, f, keys) :: ip in keys
  {
    if keys != [] {
      CarryingExceptIn(routing, dest, f, keys[..|keys| - 1]);
      assert keys == keys[..|keys| - 1] + [keys[|keys| - 1]];
    }
  }

  /** When the stream has no receiver left and every destination still holds its
      socket, the loop as written does what the intended loop does, and closes the
      socket of exactly the routes it switches off. */
  lemma {:induction false} LastReceiverClosesSockets(cfg: Config, s: RelayState, sk: Sockets, dest: IP, f: string, keys: seq<IP>)
    requires f in s.sessions.m && s.sessions.m[f].m == map[]
    requires forall i, j | 0 <= i < j < |keys| :: keys[i] != keys[j]
    requires forall i | 0 <= i < |keys| :: keys[i] in sk
    ensures var r := DeactivateOverAsWritten(cfg, s, sk, dest, f, keys);
      && !r.raised && r.s == DeactivateOver(cfg, s, dest, f, keys)
      && forall ip :: ip in r.sockets <==> ip in sk && ip !in CarryingExcept(s.routing, dest, f, keys)
  {
    if keys != [] {
      var front := keys[..|keys| - 1];
      var ip := keys[|keys| - 1];
      DistinctFront(keys, front);
      LastReceiverClosesSockets(cfg, s, sk, dest, f, front);
      var prev := DeactivateOverAsWritten(cfg, s, sk, dest, f, front);
      DeactivateOverUntouched(cfg, s, dest, f, front, ip);
      assert HitAt(prev.s.routing, dest, f, ip) == HitAt(s.routing, dest, f, ip);
      assert CarryingExcept(s.routing, dest, f, keys) == CarryingExcept(s.routing, dest, f, front) + HitAt(s.routing, dest, f, ip);
      CarryingExceptIn(s.routing, dest, f, front);
      assert ip in prev.sockets;
    }
  }

  /** The routes a stream took through two upstream neighbours: `u` carries `f` and
      `g`, `v` carries `g` only. */
  function TwoUpstreams(u: IP, v: IP, f: string, g: string, rf: Route, rg: Route, rv: Route): Routing {
    OMap([u, v], map[u := OMap([f, g], map[f := rf, g := rg]), v := OMap([g], map[g := rv])])
  }

  /** The loop as written over a table of two destinations. */
  lemma OverTwoAsWritten(cfg: Config, s: RelayState, sk: Sockets, d: IP, f: string, u: IP, v: IP)
    requires s.routing.keys == [u, v]
    ensures var a := DeactivateAtAsWritten(cfg, s, sk, d, f, u);
      DeactivateAsWritten(cfg, s, sk, d, f)
        == if a.raised then a else DeactivateAtAsWritten(cfg, a.s, a.sockets, d, f, v)
  {
    assert [u, v][..1] == [u] && [u][..0] == [];
    assert DeactivateOverAsWritten(cfg, s, sk, d, f, []) == Run(s, sk, false);
    var a := DeactivateOverAsWritten(cfg, s, sk, d, f, [u]);
    assert a == DeactivateAtAsWritten(cfg, s, sk, d, f, u);
    assert DeactivateOverAsWritten(cfg, s, sk, d, f, [u, v])
      == if a.raised then a else DeactivateAtAsWritten(cfg, a.s, a.sockets, d, f, v);
  }

  /** The intended loop over a table of two destinations. */
  lemma OverTwo(cfg: Config, s: RelayState, d: IP, f: string, u: IP, v: IP)
    requires s.routing.keys == [u, v]
    ensures Deactivate(cfg, s, d, f) == DeactivateAt(cfg, DeactivateAt(cfg, s, d, f, u), d, f, v)
  {
    assert [u, v][..1] == [u] && [u][..0] == [];
    assert DeactivateOver(cfg, s, d, f, []) == s;
    assert DeactivateOver(cfg, s, d, f, [u]) == DeactivateAt(cfg, s, d, f, u);
    assert DeactivateOver(cfg, s, d, f, [u, v]) == DeactivateAt(cfg, DeactivateAt(cfg, s, d, f, u), d, f, v);
  }

  /** Leaving `f` at `u`: the route is switched off, `u` told and its socket closed. */
  lemma LeaveFirstAtU(cfg: Config, nb: Table, ss: Sessions, o: seq<Send>, u: IP, v: IP, d: IP,
                      f: string, g: string, rf: Route, rg: Route, rv: Route)
    requires u != v && u != d && f != g && rf.stream == On
    requires f in ss.m && ss.m[f].m == map[]
    ensures var s := RelayState(nb, TwoUpstreams(u, v, f, g, rf, rg, rv), ss, o);
      DeactivateAtAsWritten(cfg, s, {u, v}, d, f, u)
        == Run(s.(routing := TwoUpstreams(u, v, f, g, SwitchedOff(rf), rg, rv),
                  outbox := o + [Send(u, FloodingMsg(DeactivateMsg(cfg, f)))]), {v}, false)
  {
    var rows := OMap([f, g], map[f := rf, g := rg]);
    assert rows.Put(f, SwitchedOff(rf)).m == map[f := SwitchedOff(rf), g := rg];
    assert {u, v} - {u} == {v};
  }

  /** Leaving `g` at `u` with no socket left there: the route is switched off and the
      loop raises with nothing sent. */
  lemma LeaveSecondAtU(cfg: Config, nb: Table, ss: Sessions, o: seq<Send>, u: IP, v: IP, d: IP,
                       f: string, g: string, rf: Route, rg: Route, rv: Route)
    requires u != v && u != d && f != g && rg.stream == On
    requires g in ss.m && ss.m[g].m == map[]
    ensures var s := RelayState(nb, TwoUpstreams(u, v, f, g, rf, rg, rv), ss, o);
      DeactivateAtAsWritten(cfg, s, {v}, d, g, u)
        == Run(s.(routing := TwoUpstreams(u, v, f, g, rf, SwitchedOff(rg), rv)), {v}, true)
  {
    var rows := OMap([f, g], map[f := rf, g := rg]);
    assert rows.Put(g, SwitchedOff(rg)).m == map[f := rf, g := SwitchedOff(rg)];
  }

  /** Leaving `f` with nobody receiving it, both upstreams holding a socket: `u` is
      switched off and told, and its socket closed; `v` does not carry `f`. */
  lemma LeaveFirstStream(cfg: Config, nb: Table, ss: Sessions, o: seq<Send>, u: IP, v: IP, d: IP,
                         f: string, g: string, rf: Route, rg: Route, rv: Route)
    requires u != v && u != d && v != d && f != g && rf.stream == On
    requires f in ss.m && ss.m[f].m == map[]
    ensures var s := RelayState(nb, TwoUpstreams(u, v, f, g, rf, rg, rv), ss, o);
      DeactivateAsWritten(cfg, s, {u, v}, d, f)
        == Run(s.(routing := TwoUpstreams(u, v, f, g, SwitchedOff(rf), rg, rv),
                  outbox := o + [Send(u, FloodingMsg(DeactivateMsg(cfg, f)))]), {v}, false)
  {
    var s := RelayState(nb, TwoUpstreams(u, v, f, g, rf, rg, rv), ss, o);
    OverTwoAsWritten(cfg, s, {u, v}, d, f, u, v);
    LeaveFirstAtU(cfg, nb, ss, o, u, v, d, f, g, rf, rg, rv);
  }

  /** Leaving `g` next, as written: `u`'s route of `g` is switched off, `u` has no socket
      any more, and the loop raises with nothing sent and `v` not reached. */
  lemma LeaveSecondStream(cfg: Config, nb: Table, ss: Sessions, o: seq<Send>, u: IP, v: IP, d: IP,
                          f: string, g: string, rf: Route, rg: Route, rv: Route)
    requires u != v && u != d && v != d && f != g && rg.stream == On
    requires g in ss.m && ss.m[g].m == map[]
    ensures var s := RelayState(nb, TwoUpstreams(u, v, f, g, rf, rg, rv), ss, o);
      DeactivateAsWritten(cfg, s, {v}, d, g)
        == Run(s.(routing := TwoUpstreams(u, v, f, g, rf, SwitchedOff(rg), rv)), {v}, true)
  {
    var s := RelayState(nb, TwoUpstreams(u, v, f, g, rf, rg, rv), ss, o);
    OverTwoAsWritten(cfg, s, {v}, d, g, u, v);
    LeaveSecondAtU(cfg, nb, ss, o, u, v, d, f, g, rf, rg, rv);
  }

  /** Leaving `g` as intended: both upstreams are told. */
  lemma LeaveSecondStreamIntended(cfg: Config, nb: Table, ss: Sessions, o: seq<Send>, u: IP, v: IP, d: IP,
                                  f: string, g: string, rf: Route, rg: Route, rv: Route)
    requires u != v && u != d && v != d && f != g && rg.stream == On && rv.stream == On
    ensures var s := RelayState(nb, TwoUpstreams(u, v, f, g, rf, rg, rv), ss, o);
      Deactivate(cfg, s, d, g).outbox
        == o + [Send(u, FloodingMsg(DeactivateMsg(cfg, g))), Send(v, FloodingMsg(DeactivateMsg(cfg, g)))]
  {
    var s := RelayState(nb, TwoUpstreams(u, v, f, g, rf, rg, rv), ss, o);
    OverTwo(cfg, s, d, g, u, v);
    var a1 := DeactivateAt(cfg, s, d, g, u);
    assert a1.outbox == o + [Send(u, FloodingMsg(DeactivateMsg(cfg, g)))];
    assert a1.routing.m[v] == OMap([g], map[g := rv]);
  }

  /** Two streams `f` and `g` reach this node through the upstream `u`, and `g` also
      through `v`; nobody receives either any more, and both upstreams hold the socket
      that three activations opened. Leaving `f` closes the one socket of `u` and tells
      `u`. Leaving `g` then switches off `u`'s route of `g` and raises at the missing
      socket: neither `u` nor `v` is told, and `v`'s route still carries `g`. The
      intended loop tells both. */
  lemma SharedSocketRaises(cfg: Config, nb: Table, ss: Sessions, u: IP, v: IP, d: IP, f: string, g: string,
                           rf: Route, rg: Route, rv: Route)
    requires u != v && u != d && v != d && f != g
    requires rf.stream == On && rg.stream == On && rv.stream == On
    requires f in ss.m && ss.m[f].m == map[] && g in ss.m && ss.m[g].m == map[]
    ensures
      var s := RelayState(nb, TwoUpstreams(u, v, f, g, rf, rg, rv), ss, []);
      var sk := Connect(Connect(Connect({}, u, true), v, true), u, true);
      var r1 := DeactivateAsWritten(cfg, s, sk, d, f);
      var r2 := DeactivateAsWritten(cfg, r1.s, r1.sockets, d, g);
      && sk == {u, v}
      && !r1.raised && r1.sockets == {v}
      && r1.s.outbox == [Send(u, FloodingMsg(DeactivateMsg(cfg, f)))]
      && r2.raised && r2.s.outbox == r1.s.outbox
      && u in r2.s.routing.m && !Carrying(r2.s.routing.m[u], g)
      && v in r2.s.routing.m && Carrying(r2.s.routing.m[v], g)
      && Deactivate(cfg, r1.s, d, g).outbox
         == r1.s.outbox + [Send(u, FloodingMsg(DeactivateMsg(cfg, g))), Send(v, FloodingMsg(DeactivateMsg(cfg, g)))]
  {
    var sk := Connect(Connect(Connect({}, u, true), v, true), u, true);
    assert sk == {u, v};
    LeaveFirstStream(cfg, nb, ss, [], u, v, d, f, g, rf, rg, rv);
    var o := [Send(u, FloodingMsg(DeactivateMsg(cfg, f)))];
    LeaveSecondStream(cfg, nb, ss, o, u, v, d, f, g, SwitchedOff(rf), rg, rv);
    LeaveSecondStreamIntended(cfg, nb, ss, o, u, v, d, f, g, SwitchedOff(rf), rg, rv);
  }
}
