/** The read-only helpers of the relay node (`etapa3/Node.py`) that its RTSP relay uses:
    finding and rewriting the client address line of a request, asking whether anybody
    receives a stream, and finding the route that carries a stream. */
module RelayText {
  import opened Common
  import opened OrdMap
  import opened Text
  import opened RelaySpec

  // ---------------------------------------------------------------------------------
  // The "IP" line of an RTSP request

  /** What `get_client_ip_from_request` gives: the text after the first ": " of the first
      line that contains "IP"; `None` when no line does; an `IndexError` when that line
      has no ": " (the relay's request loop catches it and closes the connection). */
  datatype IpLine = IpFound(ip: string) | NoIpLine | IpLineMalformed

  /** The scan over the request's lines. */
  function IpOfLines(lines: seq<string>): (r: IpLine)
    ensures r == NoIpLine <==> forall i | 0 <= i < |lines| :: !Contains(lines[i], "IP")
    ensures r.IpFound? ==> exists i | 0 <= i < |lines| :: Contains(lines[i], "IP")
  {
    if lines == [] then NoIpLine
    else if Contains(lines[0], "IP") then
      var parts := SplitOn(lines[0], ": ");
      if |parts| >= 2 then IpFound(parts[1]) else IpLineMalformed
    else
      assert forall i | 1 <= i < |lines| :: lines[i] == lines[1..][i - 1];
      IpOfLines(lines[1..])
  }

  /** `get_client_ip_from_request(request)` */
  function GetClientIp(request: string): IpLine {
    IpOfLines(SplitLines(request))
  }

  /** A line as `replace_client_ip_in_request` writes it back. */
  function ReplacedLine(line: string, newIp: string): string {
    if Contains(line, "IP") then "IP: " + newIp else line
  }

  /** The lines after the rewrite: every line containing "IP" becomes "IP: <newIp>", the
      others stay, in order. */
  function ReplacedLines(lines: seq<string>, newIp: string): (r: seq<string>)
    ensures |r| == |lines|
    ensures forall i | 0 <= i < |lines| :: r[i] == ReplacedLine(lines[i], newIp)
  {
    if lines == [] then []
    else ReplacedLines(lines[..|lines| - 1], newIp) + [ReplacedLine(lines[|lines| - 1], newIp)]
  }

  /** `"\n".join(lines)`, which is "" for no lines. */
  function JoinLines(lines: seq<string>): string {
    if lines == [] then "" else Join(lines, "\n")
  }

  /** `replace_client_ip_in_request(request, new_ip)` */
  function ReplacedRequest(request: string, newIp: string): string {
    JoinLines(ReplacedLines(SplitLines(request), newIp))
  }

  /** The rewrite loop of `replace_client_ip_in_request`. */
  method ReplaceClientIp(request: string, newIp: string) returns (r: string)
    ensures r == ReplacedRequest(request, newIp)
  {
    var lines := SplitLines(request);
    var updated: seq<string> := [];
    var i := 0;
    while i < |lines|
      invariant 0 <= i <= |lines|
      invariant updated == ReplacedLines(lines[..i], newIp)
    {
      assert lines[..i + 1][..i] == lines[..i];
      if Contains(lines[i], "IP") {
        updated := updated + ["IP: " + newIp];
      } else {
        updated := updated + [lines[i]];
      }
      i := i + 1;
    }
    assert lines[..i] == lines;
    r := JoinLines(updated);
  }

  /** Splitting "IP: x" at ": " gives "IP" and then the pieces of `x`. */
  lemma SplitIpLine(x: string)
    ensures SplitOn("IP: " + x, ": ") == ["IP"] + SplitOn(x, ": ")
  {
    var s := "IP: " + x;
    assert s[..2][0] == 'I' && s[1..] == "P: " + x;
    var t := "P: " + x;
    assert t[..2][0] == 'P' && t[1..] == ": " + x;
    var u := ": " + x;
    assert u[..2] == ": " && u[2..] == x;
    assert SplitOn(u, ": ") == [""] + SplitOn(x, ": ");
    assert SplitOn(t, ": ") == [[t[0]] + SplitOn(u, ": ")[0]] + SplitOn(u, ": ")[1..];
    assert SplitOn(u, ": ")[0] == "" && SplitOn(u, ": ")[1..] == SplitOn(x, ": ");
    assert [t[0]] + "" == "P";
    assert SplitOn(t, ": ") == ["P"] + SplitOn(x, ": ");
    assert SplitOn(t, ": ")[0] == "P" && SplitOn(t, ": ")[1..] == SplitOn(x, ": ");
    assert [s[0]] + "P" == "IP";
    assert SplitOn(s, ": ") == [[s[0]] + SplitOn(t, ": ")[0]] + SplitOn(t, ": ")[1..];
  }

  /** A text in which ": " does not occur is one piece. */
  lemma {:induction false} SplitOnNone(x: string)
    requires !Contains(x, ": ")
    ensures SplitOn(x, ": ") == [x]
    decreases |x|
  {
    if |x| >= 2 {
      assert x[..2] != ": ";
      SplitOnNone(x[1..]);
      assert [x[0]] + x[1..] == x;
    }
  }

  /** After the rewrite the first line with "IP" names `newIp`, if any line had "IP"; the
      scan reads back `newIp` itself when it holds no ": ". */
  lemma {:induction false} IpOfReplaced(lines: seq<string>, newIp: string)
    ensures (exists i | 0 <= i < |lines| :: Contains(lines[i], "IP")) ==>
      IpOfLines(ReplacedLines(lines, newIp)) == IpFound(SplitOn(newIp, ": ")[0])
    ensures (forall i | 0 <= i < |lines| :: !Contains(lines[i], "IP")) ==>
      IpOfLines(ReplacedLines(lines, newIp)) == NoIpLine
    ensures !Contains(newIp, ": ") && (exists i | 0 <= i < |lines| :: Contains(lines[i], "IP")) ==>
      IpOfLines(ReplacedLines(lines, newIp)) == IpFound(newIp)
  {
    var r := ReplacedLines(lines, newIp);
    if lines != [] {
      assert r[1..] == ReplacedLines(lines[1..], newIp);
      if Contains(lines[0], "IP") {
        ContainsPrefix("IP", ": " + newIp);
        assert "IP" + (": " + newIp) == "IP: " + newIp;
        SplitIpLine(newIp);
      } else {
        IpOfReplaced(lines[1..], newIp);
        if exists i | 0 <= i < |lines| :: Contains(lines[i], "IP") {
          var i :| 0 <= i < |lines| && Contains(lines[i], "IP");
          assert lines[1..][i - 1] == lines[i];
        }
      }
    }
    if !Contains(newIp, ": ") {
      SplitOnNone(newIp);
    }
  }

  /** Lines without line breaks, the last one not empty, survive joining and
      `splitlines` again. */
  lemma SplitLinesJoin(lines: seq<string>)
    requires forall i | 0 <= i < |lines| :: '\n' !in lines[i]
    requires |lines| > 0 ==> lines[|lines| - 1] != ""
    ensures SplitLines(JoinLines(lines)) == lines
  {
    if lines != [] {
      SplitJoin(lines, '\n');
    }
  }

  /** A request whose address line is rewritten to `newIp` reads back `newIp`, when the
      request had such a line, its last line is not empty, and `newIp` holds neither a
      line break nor ": ". */
  lemma GetReplacedIp(request: string, newIp: string)
    requires '\n' !in newIp && !Contains(newIp, ": ")
    requires exists i | 0 <= i < |SplitLines(request)| :: Contains(SplitLines(request)[i], "IP")
    requires SplitLines(request)[|SplitLines(request)| - 1] != ""
    ensures GetClientIp(ReplacedRequest(request, newIp)) == IpFound(newIp)
  {
    var lines := SplitLines(request);
    var r := ReplacedLines(lines, newIp);
    forall i | 0 <= i < |r| ensures '\n' !in r[i] {
      if Contains(lines[i], "IP") {
        assert r[i] == "IP: " + newIp;
        assert forall k | 0 <= k < |r[i]| :: k < 4 || r[i][k] == newIp[k - 4];
      }
    }
    if Contains(lines[|lines| - 1], "IP") {
      assert r[|r| - 1] == "IP: " + newIp;
    }
    SplitLinesJoin(r);
    IpOfReplaced(lines, newIp);
  }

  // ---------------------------------------------------------------------------------
  // Who receives a stream

  /** Whether one of the receivers `keys` other than `sender` is playing. */
  function AnyPlaying(keys: seq<IP>, rs: map<IP, Receiver>, sender: Option<IP>): (b: bool)
    ensures b <==> exists i | 0 <= i < |keys| ::
      keys[i] in rs && rs[keys[i]].flow == Some(On) && sender != Some(keys[i])
  {
    if keys == [] then false
    else
      var ip := keys[|keys| - 1];
      var front := AnyPlaying(keys[..|keys| - 1], rs, sender);
      assert forall i | 0 <= i < |keys| - 1 :: keys[..|keys| - 1][i] == keys[i];
      front || (ip in rs && rs[ip].flow == Some(On) && sender != Some(ip))
  }

  /** `at_least_one_receiving_rtp(f, sender)`: `None` is the `KeyError` of a stream with
      no sessions. */
  function AtLeastOneReceiving(ss: Sessions, f: string, sender: Option<IP>): Option<bool> {
    if f !in ss.m then None else Some(AnyPlaying(ss.m[f].keys, ss.m[f].m, sender))
  }

  /** The count loop of `at_least_two_receiving_rtp(f)`. The count starts at 1 for the
      receiver that sent the PAUSE, so the answer is already yes at the first playing
      receiver: it is `at_least_one_receiving_rtp(f, None)`. */
  method AtLeastTwoReceiving(ss: Sessions, f: string) returns (r: Option<bool>)
    ensures r == AtLeastOneReceiving(ss, f, None)
  {
    if f !in ss.m {
      return None;
    }
    var rs := ss.m[f];
    var count := 1;
    var i := 0;
    while i < |rs.keys|
      invariant 0 <= i <= |rs.keys|
      invariant count == 1
      invariant !AnyPlaying(rs.keys[..i], rs.m, None)
    {
      assert rs.keys[..i + 1][..i] == rs.keys[..i];
      var ip := rs.keys[i];
      if ip in rs.m && rs.m[ip].flow == Some(On) {
        count := count + 1;
      }
      if count > 1 {
        assert AnyPlaying(rs.keys[..i + 1], rs.m, None);
        assert AnyPlaying(rs.keys, rs.m, None) by {
          assert rs.keys[..i + 1][i] == rs.keys[i];
        }
        return Some(true);
      }
      i := i + 1;
    }
    assert rs.keys[..i] == rs.keys;
    return Some(false);
  }

  // ---------------------------------------------------------------------------------
  // Which route carries a stream

  /** `get_active_route(f)` over the destinations `keys`: the first whose row of `f` may
      carry the stream. */
  function ActiveRouteIn(routing: Routing, f: string, keys: seq<IP>): (r: Option<IP>)
    ensures r.Some? ==> r.value in keys && r.value in routing.m && f in routing.m[r.value].m
                        && routing.m[r.value].m[f].stream == On
    ensures r.None? <==> forall j | 0 <= j < |keys| ::
      !(keys[j] in routing.m && f in routing.m[keys[j]].m && routing.m[keys[j]].m[f].stream == On)
  {
    if keys == [] then None
    else if keys[0] in routing.m && f in routing.m[keys[0]].m && routing.m[keys[0]].m[f].stream == On then Some(keys[0])
    else
      assert forall j | 1 <= j < |keys| :: keys[j] == keys[1..][j - 1];
      ActiveRouteIn(routing, f, keys[1..])
  }

  /** The destination found is the first one in `keys` whose row of `f` may carry the
      stream: every destination before it has none. */
  lemma {:induction false} ActiveRouteFirst(routing: Routing, f: string, keys: seq<IP>)
    ensures ActiveRouteIn(routing, f, keys).Some? ==> exists k | 0 <= k < |keys| ::
      keys[k] == ActiveRouteIn(routing, f, keys).value &&
      forall j | 0 <= j < k :: !(keys[j] in routing.m && f in routing.m[keys[j]].m && routing.m[keys[j]].m[f].stream == On)
  {
    if keys != [] && !(keys[0] in routing.m && f in routing.m[keys[0]].m && routing.m[keys[0]].m[f].stream == On) {
      var r := ActiveRouteIn(routing, f, keys[1..]);
      ActiveRouteFirst(routing, f, keys[1..]);
      if r.Some? {
        var k :| 0 <= k < |keys[1..]| && keys[1..][k] == r.value &&
          forall j | 0 <= j < k :: !(keys[1..][j] in routing.m && f in routing.m[keys[1..][j]].m && routing.m[keys[1..][j]].m[f].stream == On);
        assert keys[k + 1] == r.value;
        forall j | 0 <= j < k + 1
          ensures !(keys[j] in routing.m && f in routing.m[keys[j]].m && routing.m[keys[j]].m[f].stream == On)
        {
          if j > 0 {
            assert keys[j] == keys[1..][j - 1];
          }
        }
      }
    } else if keys != [] {
      assert keys[0] == ActiveRouteIn(routing, f, keys).value;
    }
  }

  /** `get_active_route(f)`: the destination and its row of `f`. */
  function GetActiveRoute(routing: Routing, f: string): Option<(IP, Route)> {
    match ActiveRouteIn(routing, f, routing.keys)
    case Some(d) => Some((d, routing.m[d].m[f]))
    case None => None
  }

  /** `route_with_SETUP(f)` over the destinations `keys`: some row of `f` last forwarded a
      SETUP. */
  function SetupIn(routing: Routing, f: string, keys: seq<IP>): (b: bool)
    ensures b <==> exists j | 0 <= j < |keys| ::
      keys[j] in routing.m && f in routing.m[keys[j]].m && routing.m[keys[j]].m[f].request == Some("SETUP")
  {
    if keys == [] then false
    else
      assert forall j | 1 <= j < |keys| :: keys[j] == keys[1..][j - 1];
      (keys[0] in routing.m && f in routing.m[keys[0]].m && routing.m[keys[0]].m[f].request == Some("SETUP"))
      || SetupIn(routing, f, keys[1..])
  }

  /** `route_with_SETUP(f)` */
  function RouteWithSetup(routing: Routing, f: string): bool {
    SetupIn(routing, f, routing.keys)
  }

  /** With a well-formed table, the route `get_active_route` finds is a carrying row of
      the stream, and it finds none exactly when no destination's row of the stream may
      carry it. */
  lemma ActiveRouteFound(routing: Routing, f: string)
    requires routing.Valid()
    ensures GetActiveRoute(routing, f).Some? ==>
      var (d, row) := GetActiveRoute(routing, f).value;
      d in routing.m && f in routing.m[d].m && row == routing.m[d].m[f] && row.stream == On
    ensures GetActiveRoute(routing, f).None? <==>
      forall d | d in routing.m && f in routing.m[d].m :: routing.m[d].m[f].stream != On
  {
    if GetActiveRoute(routing, f).None? {
      forall d | d in routing.m && f in routing.m[d].m
        ensures routing.m[d].m[f].stream != On
      {
        var j :| 0 <= j < |routing.keys| && routing.keys[j] == d;
      }
    }
  }
}
