/** The hop-count routing table of the earlier relay and client variants
    (`etapa3/ESR-TP2/Node.py`, `etapa3/Client.py`): one row per advertising neighbour and
    stream, replaced only by an advertisement with strictly fewer hops; and the searches
    those variants run over it. */
module HopRouting {
  import opened Common
  import opened OrdMap
  import opened Messages

  /** One row: how to reach the node that advertised a stream, and how far it is. */
  datatype HopRoute = HopRoute(
    sourceIp: IP, sourceId: string, hops: int, status: string,
    controlPort: int, rtspPort: int, flow: string)

  /** The rows learned from one advertising neighbour, by stream name. */
  type HopRows = OMap<string, HopRoute>

  /** `routing_table`: destination IP, then stream name. */
  type HopTable = OMap<IP, HopRows>

  predicate TableValid(rt: HopTable) {
    rt.Valid() && forall i | 0 <= i < |rt.keys| :: rt.m[rt.keys[i]].Valid()
  }

  /** The row an advertisement writes. */
  function Advertised(msg: FloodingMessage): (r: HopRoute)
    ensures r.sourceIp == msg.sourceIp && r.hops == msg.hops && r.status == msg.routeState && r.flow == "inactive"
  {
    HopRoute(msg.sourceIp, msg.sourceId, msg.hops, msg.routeState, msg.controlPort, msg.rtspPort, "inactive")
  }

  /** The row at (`d`, `sid`), if there is one. */
  function RowAt(rt: HopTable, d: IP, sid: string): Option<HopRoute> {
    if d in rt.m && sid in rt.m[d].m then Some(rt.m[d].m[sid]) else None
  }

  /** The hop rule: the advertisement wins when there is no row or it is strictly
      shorter; otherwise the row stays. */
  function Kept(row: Option<HopRoute>, msg: FloodingMessage): HopRoute {
    if row.None? || msg.hops < row.value.hops then Advertised(msg) else row.value
  }

  /** One iteration of `update_route_table`, for stream `sid`. */
  function AddHop(rt: HopTable, msg: FloodingMessage, sid: string): HopTable {
    var d := msg.sourceIp;
    var rt1 := if d in rt.m then rt else rt.Put(d, Empty());
    var rows := rt1.m[d];
    if sid !in rows.m || msg.hops < rows.m[sid].hops then rt1.Put(d, rows.Put(sid, Advertised(msg))) else rt1
  }

  /** `update_route_table`: the hop rule for each advertised stream, in order. */
  function AddHops(rt: HopTable, msg: FloodingMessage, ids: seq<string>): HopTable {
    if ids == [] then rt else AddHop(AddHops(rt, msg, ids[..|ids| - 1]), msg, ids[|ids| - 1])
  }

  /** The loop of `update_route_table`. */
  method UpdateRoutes(rt: HopTable, msg: FloodingMessage) returns (r: HopTable)
    ensures r == AddHops(rt, msg, msg.streamIds)
  {
    var ids := msg.streamIds;
    r := rt;
    var i := 0;
    while i < |ids|
      invariant 0 <= i <= |ids|
      invariant r == AddHops(rt, msg, ids[..i])
    {
      assert ids[..i + 1][..i] == ids[..i];
      r := UpdateRoute(r, msg, ids[i]);
      i := i + 1;
    }
    assert ids[..i] == ids;
  }

  /** One iteration of the loop: `setdefault` of the advertiser's rows, then the hop rule. */
  method UpdateRoute(rt: HopTable, msg: FloodingMessage, sid: string) returns (r: HopTable)
    ensures r == AddHop(rt, msg, sid)
  {
    r := rt;
    var d := msg.sourceIp;
    if d !in r.m {
      r := r.Put(d, Empty());
    }
    var rows := r.m[d];
    if sid !in rows.m || msg.hops < rows.m[sid].hops {
      r := r.Put(d, rows.Put(sid, Advertised(msg)));
    }
  }

  /** The table stays well formed: every key listed once, at both levels. */
  lemma {:induction false} AddHopsValid(rt: HopTable, msg: FloodingMessage, ids: seq<string>)
    requires TableValid(rt)
    ensures TableValid(AddHops(rt, msg, ids))
  {
    if ids != [] {
      AddHopsValid(rt, msg, ids[..|ids| - 1]);
      var mid := AddHops(rt, msg, ids[..|ids| - 1]);
      var d := msg.sourceIp;
      var rt1 := if d in mid.m then mid else mid.Put(d, Empty());
      assert TableValid(rt1);
    }
  }

  /** Applying the rule twice with the same advertisement is applying it once. */
  lemma KeptIdempotent(row: Option<HopRoute>, msg: FloodingMessage)
    ensures Kept(Some(Kept(row, msg)), msg) == Kept(row, msg)
    ensures Kept(row, msg).hops <= msg.hops
    ensures row.Some? ==> Kept(row, msg).hops <= row.value.hops
  {
  }

  /** One iteration: the row of `sid` at the advertiser follows the hop rule; every other
      row is untouched, and only the advertiser may be added as a destination. */
  lemma AddHopEffect(rt: HopTable, msg: FloodingMessage, sid: string, d: IP, g: string)
    ensures var r := AddHop(rt, msg, sid);
      && r.m.Keys == rt.m.Keys + {msg.sourceIp}
      && RowAt(r, msg.sourceIp, sid) == Some(Kept(RowAt(rt, msg.sourceIp, sid), msg))
      && ((d, g) != (msg.sourceIp, sid) ==> RowAt(r, d, g) == RowAt(rt, d, g))
      && (d != msg.sourceIp && d in rt.m ==> r.m[d] == rt.m[d])
  {
  }

  /** `update_route_table` adds the advertiser as a destination exactly when it
      advertised some stream, and leaves every other destination's rows alone. */
  lemma {:induction false} AddHopsKeys(rt: HopTable, msg: FloodingMessage, ids: seq<string>, d: IP)
    ensures var r := AddHops(rt, msg, ids);
      && r.m.Keys == rt.m.Keys + (if ids == [] then {} else {msg.sourceIp})
      && (d != msg.sourceIp && d in rt.m ==> r.m[d] == rt.m[d])
  {
    if ids != [] {
      AddHopsKeys(rt, msg, ids[..|ids| - 1], d);
    }
  }

  /** `update_route_table` writes each advertised stream's row at the advertiser by the
      hop rule (equal or more hops leave it as it was) and touches no other row. */
  lemma {:induction false} AddHopsRow(rt: HopTable, msg: FloodingMessage, ids: seq<string>, d: IP, g: string)
    ensures d == msg.sourceIp && g in ids ==> RowAt(AddHops(rt, msg, ids), d, g) == Some(Kept(RowAt(rt, d, g), msg))
    ensures d != msg.sourceIp || g !in ids ==> RowAt(AddHops(rt, msg, ids), d, g) == RowAt(rt, d, g)
  {
    if ids != [] {
      var front := ids[..|ids| - 1];
      var last := ids[|ids| - 1];
      assert ids == front + [last];
      AddHopsRow(rt, msg, front, d, g);
      AddHopEffect(AddHops(rt, msg, front), msg, last, d, g);
      if d == msg.sourceIp && g == last && g in front {
        KeptIdempotent(RowAt(rt, d, g), msg);
      }
    }
  }

  /** Both together: the rows `update_route_table` writes, and the destinations. */
  lemma AddHopsEffect(rt: HopTable, msg: FloodingMessage, ids: seq<string>, d: IP, g: string)
    ensures var r := AddHops(rt, msg, ids);
      && r.m.Keys == rt.m.Keys + (if ids == [] then {} else {msg.sourceIp})
      && (d == msg.sourceIp && g in ids ==> RowAt(r, d, g) == Some(Kept(RowAt(rt, d, g), msg)))
      && (d != msg.sourceIp || g !in ids ==> RowAt(r, d, g) == RowAt(rt, d, g))
      && (d != msg.sourceIp && d in rt.m ==> r.m[d] == rt.m[d])
  {
    AddHopsKeys(rt, msg, ids, d);
    AddHopsRow(rt, msg, ids, d, g);
  }

  /** The table after `routing_table[d][sid]["status"] = st`. */
  function WithStatus(rt: HopTable, d: IP, sid: string, st: string): (r: HopTable)
    requires RowAt(rt, d, sid).Some?
    ensures TableValid(rt) ==> TableValid(r)
    ensures r.keys == rt.keys && r.m.Keys == rt.m.Keys
    ensures RowAt(r, d, sid) == Some(RowAt(rt, d, sid).value.(status := st))
    ensures forall e, g | (e, g) != (d, sid) :: RowAt(r, e, g) == RowAt(rt, e, g)
  {
    var rows := rt.m[d];
    rt.Put(d, rows.Put(sid, rows.m[sid].(status := st)))
  }

  // ---------------------------------------------------------------------------------
  // Searching the table

  /** One row the searches look at: where it leads, which stream, how far, and whether
      its "status" reads "active". */
  datatype HopCand = HopCand(dest: IP, sid: string, hops: int, active: bool)

  function CandOf(d: IP, sid: string, row: HopRoute): HopCand {
    HopCand(d, sid, row.hops, row.status == "active")
  }

  /** The rows of destination `d` for the requested streams `ids`, in request order. */
  function RowCands(d: IP, rows: HopRows, ids: seq<string>): seq<HopCand> {
    if ids == [] then []
    else
      var sid := ids[|ids| - 1];
      RowCands(d, rows, ids[..|ids| - 1]) + (if sid in rows.m then [CandOf(d, sid, rows.m[sid])] else [])
  }

  /** The rows `activate_best_route` of the hop-count relay examines: destinations in
      table order, then requested streams in request order. */
  function Cands(rt: HopTable, keys: seq<IP>, ids: seq<string>): seq<HopCand> {
    if keys == [] then []
    else
      var d := keys[|keys| - 1];
      Cands(rt, keys[..|keys| - 1], ids) + (if d in rt.m then RowCands(d, rt.m[d], ids) else [])
  }

  /** The first row with strictly the fewest hops (`hops < min_hops`, starting from
      infinity), or none if there is no row. */
  function Least(cs: seq<HopCand>): (r: Option<HopCand>)
    ensures r.Some? <==> cs != []
  {
    if cs == [] then None
    else
      var b := Least(cs[..|cs| - 1]);
      var c := cs[|cs| - 1];
      if b.None? || c.hops < b.value.hops then Some(c) else b
  }

  /** `Least` picks a row with the fewest hops, and the first such row. */
  lemma {:induction false} LeastIsFirstLeast(cs: seq<HopCand>)
    requires cs != []
    ensures exists k | 0 <= k < |cs| :: (cs[k] == Least(cs).value
      && (forall j | 0 <= j < |cs| :: Least(cs).value.hops <= cs[j].hops)
      && (forall j | 0 <= j < k :: Least(cs).value.hops < cs[j].hops))
  {
    var front := cs[..|cs| - 1];
    var c := cs[|cs| - 1];
    if front == [] {
      assert cs[0] == c;
    } else {
      LeastIsFirstLeast(front);
      var b := Least(front).value;
      var k :| 0 <= k < |front| && front[k] == b
        && (forall j | 0 <= j < |front| :: b.hops <= front[j].hops)
        && (forall j | 0 <= j < k :: b.hops < front[j].hops);
      forall j | 0 <= j < |front| ensures cs[j] == front[j] { }
      if c.hops < b.hops {
        assert cs[|cs| - 1] == Least(cs).value;
      } else {
        assert cs[k] == Least(cs).value;
      }
    }
  }

  /** Where the hop-count relay's search ends: at the first row already "active", with
      the stream of the best row seen before it (`filename`, `None` when there was none),
      or after all rows with the best one. */
  datatype HopScan = Reused(filename: Option<string>, at: HopCand) | Chosen(best: Option<HopCand>)

  /** One row of the search: it stops at an "active" row, and otherwise a row with
      strictly fewer hops becomes the best one. */
  function StepHop(st: HopScan, c: HopCand): HopScan {
    match st
    case Reused(f, a) => st
    case Chosen(b) =>
      if c.active then Reused(if b.None? then None else Some(b.value.sid), c)
      else if b.None? || c.hops < b.value.hops then Chosen(Some(c))
      else st
  }

  /** The search over `cs`, from `st`. */
  function ScanHopFrom(st: HopScan, cs: seq<HopCand>): HopScan {
    if cs == [] then st else StepHop(ScanHopFrom(st, cs[..|cs| - 1]), cs[|cs| - 1])
  }

  /** The search of `activate_best_route`, from "nothing found". */
  function ScanHop(cs: seq<HopCand>): HopScan {
    ScanHopFrom(Chosen(None), cs)
  }

  /** Searching a concatenation is searching the second part from where the first left. */
  lemma {:induction false} ScanHopAppend(st: HopScan, a: seq<HopCand>, b: seq<HopCand>)
    ensures ScanHopFrom(st, a + b) == ScanHopFrom(ScanHopFrom(st, a), b)
    decreases |b|
  {
    if b == [] {
      assert a + b == a;
    } else {
      assert (a + b)[..|a + b| - 1] == a + b[..|b| - 1];
      ScanHopAppend(st, a, b[..|b| - 1]);
    }
  }

  /** Once stopped, the search stays stopped. */
  lemma {:induction false} ScanHopStays(st: HopScan, cs: seq<HopCand>)
    requires st.Reused?
    ensures ScanHopFrom(st, cs) == st
  {
    if cs != [] {
      ScanHopStays(st, cs[..|cs| - 1]);
    }
  }

  /** The search stops at the first "active" row, holding the stream of the least row
      before it; without an "active" row it ends with the least row of all. */
  lemma {:induction false} ScanHopResult(cs: seq<HopCand>)
    ensures ScanHop(cs).Chosen? <==> forall j | 0 <= j < |cs| :: !cs[j].active
    ensures ScanHop(cs).Chosen? ==> ScanHop(cs).best == Least(cs)
    ensures ScanHop(cs).Reused? ==> exists k | 0 <= k < |cs| ::
      && cs[k] == ScanHop(cs).at && cs[k].active
      && (forall j | 0 <= j < k :: !cs[j].active)
      && ScanHop(cs).filename == (if Least(cs[..k]).None? then None else Some(Least(cs[..k]).value.sid))
  {
    if cs != [] {
      var front := cs[..|cs| - 1];
      var c := cs[|cs| - 1];
      ScanHopResult(front);
      forall j | 0 <= j < |front| ensures cs[j] == front[j] { }
      match ScanHop(front)
      case Reused(f, a) => {
        var k :| 0 <= k < |front| && front[k] == a && front[k].active
          && (forall j | 0 <= j < k :: !front[j].active)
          && f == (if Least(front[..k]).None? then None else Some(Least(front[..k]).value.sid));
        assert cs[..k] == front[..k];
      }
      case Chosen(b) => {
        if c.active {
          assert cs[..|cs| - 1] == front;
        }
      }
    }
  }

  /** The rows of two runs of requested streams, one after the other. */
  lemma {:induction false} RowCandsAppend(d: IP, rows: HopRows, a: seq<string>, b: seq<string>)
    ensures RowCands(d, rows, a + b) == RowCands(d, rows, a) + RowCands(d, rows, b)
    decreases |b|
  {
    if b == [] {
      assert a + b == a;
    } else {
      assert (a + b)[..|a + b| - 1] == a + b[..|b| - 1];
      RowCandsAppend(d, rows, a, b[..|b| - 1]);
    }
  }

  /** The rows of two runs of destinations, one after the other. */
  lemma {:induction false} CandsAppend(rt: HopTable, a: seq<IP>, b: seq<IP>, ids: seq<string>)
    ensures Cands(rt, a + b, ids) == Cands(rt, a, ids) + Cands(rt, b, ids)
    decreases |b|
  {
    if b == [] {
      assert a + b == a;
    } else {
      assert (a + b)[..|a + b| - 1] == a + b[..|b| - 1];
      CandsAppend(rt, a, b[..|b| - 1], ids);
    }
  }

  /** The search loop of `activate_best_route`: destinations in table order, stopping
      at the first "active" row. */
  method SearchRoutes(rt: HopTable, ids: seq<string>) returns (sc: HopScan)
    ensures sc == ScanHop(Cands(rt, rt.keys, ids))
  {
    var keys := rt.keys;
    sc := Chosen(None);
    var i := 0;
    while i < |keys| && sc.Chosen?
      invariant 0 <= i <= |keys|
      invariant sc == ScanHop(Cands(rt, keys[..i], ids))
    {
      var d := keys[i];
      var before := sc;
      if d in rt.m {
        sc := SearchRow(sc, d, rt.m[d], ids);
      }
      assert keys[..i + 1] == keys[..i] + [d];
      CandsAppend(rt, keys[..i], [d], ids);
      ScanHopAppend(Chosen(None), Cands(rt, keys[..i], ids), Cands(rt, [d], ids));
      assert Cands(rt, [d], ids) == (if d in rt.m then RowCands(d, rt.m[d], ids) else []) by {
        assert [d][..0] == [];
      }
      i := i + 1;
    }
    if i < |keys| {
      assert keys == keys[..i] + keys[i..];
      CandsAppend(rt, keys[..i], keys[i..], ids);
      ScanHopAppend(Chosen(None), Cands(rt, keys[..i], ids), Cands(rt, keys[i..], ids));
      ScanHopStays(sc, Cands(rt, keys[i..], ids));
    } else {
      assert keys[..i] == keys;
    }
  }

  /** The inner loop, over the requested streams of destination `d`. */
  method SearchRow(st: HopScan, d: IP, rows: HopRows, ids: seq<string>) returns (sc: HopScan)
    requires st.Chosen?
    ensures sc == ScanHopFrom(st, RowCands(d, rows, ids))
  {
    sc := st;
    var j := 0;
    while j < |ids| && sc.Chosen?
      invariant 0 <= j <= |ids|
      invariant sc == ScanHopFrom(st, RowCands(d, rows, ids[..j]))
    {
      var sid := ids[j];
      ghost var before := sc;
      ghost var extra := if sid in rows.m then [CandOf(d, sid, rows.m[sid])] else [];
      if sid in rows.m {
        var row := rows.m[sid];
        if row.status == "active" {
          sc := Reused(if sc.best.None? then None else Some(sc.best.value.sid), CandOf(d, sid, row));
        } else if sc.best.None? || row.hops < sc.best.value.hops {
          sc := Chosen(Some(CandOf(d, sid, row)));
        }
      }
      assert ids[..j + 1][..j] == ids[..j];
      ScanHopAppend(st, RowCands(d, rows, ids[..j]), extra);
      assert ScanHopFrom(before, extra) == sc by {
        if extra != [] {
          assert extra[..0] == [];
        }
      }
      j := j + 1;
    }
    if j < |ids| {
      assert ids == ids[..j] + ids[j..];
      RowCandsAppend(d, rows, ids[..j], ids[j..]);
      ScanHopAppend(st, RowCands(d, rows, ids[..j]), RowCands(d, rows, ids[j..]));
      ScanHopStays(sc, RowCands(d, rows, ids[j..]));
    } else {
      assert ids[..j] == ids;
    }
  }

  /** Every row the search examines exists and was requested. */
  lemma {:induction false} CandsExist(rt: HopTable, keys: seq<IP>, ids: seq<string>, j: nat)
    requires j < |Cands(rt, keys, ids)|
    ensures var c := Cands(rt, keys, ids)[j];
      RowAt(rt, c.dest, c.sid).Some? && c == CandOf(c.dest, c.sid, RowAt(rt, c.dest, c.sid).value) && c.sid in ids
  {
    var front := keys[..|keys| - 1];
    var d := keys[|keys| - 1];
    var cf := Cands(rt, front, ids);
    if j < |cf| {
      CandsExist(rt, front, ids, j);
    } else {
      RowCandsExist(d, rt.m[d], ids, j - |cf|);
    }
  }

  lemma {:induction false} RowCandsExist(d: IP, rows: HopRows, ids: seq<string>, j: nat)
    requires j < |RowCands(d, rows, ids)|
    ensures var c := RowCands(d, rows, ids)[j];
      c.dest == d && c.sid in rows.m && c == CandOf(d, c.sid, rows.m[c.sid]) && c.sid in ids
  {
    var front := ids[..|ids| - 1];
    var cf := RowCands(d, rows, front);
    if j < |cf| {
      RowCandsExist(d, rows, front, j);
    }
  }

  // ---------------------------------------------------------------------------------
  // get_route_with_stream / get_active_route

  /** Which key of a row the lookup tests for "active". */
  datatype Field = Flow | Status

  predicate IsOn(row: HopRoute, fld: Field) {
    match fld
    case Flow => row.flow == "active"
    case Status => row.status == "active"
  }

  /** The first destination, in table order, whose row for `sid` has `fld` "active",
      with that row; `None` when there is none. */
  function FirstOn(rt: HopTable, keys: seq<IP>, sid: string, fld: Field): (r: Option<(IP, HopRoute)>)
    ensures r.Some? ==> RowAt(rt, r.value.0, sid) == Some(r.value.1) && IsOn(r.value.1, fld) && r.value.0 in keys
  {
    if keys == [] then None
    else
      var d := keys[0];
      if d in rt.m && sid in rt.m[d].m && IsOn(rt.m[d].m[sid], fld) then Some((d, rt.m[d].m[sid]))
      else FirstOn(rt, keys[1..], sid, fld)
  }

  /** The lookup finds a row exactly when one exists, and no destination before the one
      it finds has such a row. */
  lemma {:induction false} FirstOnIsFirst(rt: HopTable, keys: seq<IP>, sid: string, fld: Field)
    ensures FirstOn(rt, keys, sid, fld).None? <==>
      forall i | 0 <= i < |keys| :: RowAt(rt, keys[i], sid).None? || !IsOn(RowAt(rt, keys[i], sid).value, fld)
    ensures FirstOn(rt, keys, sid, fld).Some? ==> exists k | 0 <= k < |keys| ::
      keys[k] == FirstOn(rt, keys, sid, fld).value.0 &&
      forall i | 0 <= i < k :: RowAt(rt, keys[i], sid).None? || !IsOn(RowAt(rt, keys[i], sid).value, fld)
  {
    if keys != [] {
      FirstOnIsFirst(rt, keys[1..], sid, fld);
      forall i | 1 <= i < |keys| ensures keys[i] == keys[1..][i - 1] { }
      if FirstOn(rt, keys, sid, fld) != FirstOn(rt, keys[1..], sid, fld) {
        assert keys[0] == FirstOn(rt, keys, sid, fld).value.0;
      } else if FirstOn(rt, keys[1..], sid, fld).Some? {
        var k :| 0 <= k < |keys[1..]| && keys[1..][k] == FirstOn(rt, keys, sid, fld).value.0 &&
          forall i | 0 <= i < k :: RowAt(rt, keys[1..][i], sid).None? || !IsOn(RowAt(rt, keys[1..][i], sid).value, fld);
        assert keys[k + 1] == FirstOn(rt, keys, sid, fld).value.0;
      }
    }
  }

  /** The lookup loop of `get_route_with_stream` (`fld` = `Flow`) and `get_active_route`
      (`fld` = `Status`): it returns at the first matching destination. */
  method FindRoute(rt: HopTable, sid: string, fld: Field) returns (r: Option<(IP, HopRoute)>)
    ensures r == FirstOn(rt, rt.keys, sid, fld)
  {
    var keys := rt.keys;
    var i := 0;
    while i < |keys|
      invariant 0 <= i <= |keys|
      invariant FirstOn(rt, keys[i..], sid, fld) == FirstOn(rt, keys, sid, fld)
    {
      var d := keys[i];
      if d in rt.m && sid in rt.m[d].m && IsOn(rt.m[d].m[sid], fld) {
        return Some((d, rt.m[d].m[sid]));
      }
      assert keys[i..][1..] == keys[i + 1..];
      i := i + 1;
    }
    return None;
  }
}
