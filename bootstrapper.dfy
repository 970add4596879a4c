/** The rendezvous server of `etapa3/BootStrapper.py`: a registry of the nodes that have
    registered, keyed by IP, and the neighbour configuration read from a text file. A
    REGISTER stores the sender and is answered with the configured neighbours of the
    sender that are registered at that moment. */
module Rendezvous {
  import opened Common
  import opened Text
  import opened Messages

  /** `self.nodes[ip]`: what a node said about itself when it registered. */
  datatype NodeRecord = NodeRecord(
    nodeId: string, controlPort: int, dataPort: int, nodeType: string, rtspPort: int)

  /** `self.neighbors_config[ip]`: the node's configured id and its neighbours as
      (id, ip) pairs, in file order. */
  datatype ConfigEntry = ConfigEntry(nodeId: string, neighbors: seq<(string, IP)>)

  type Registry = map<IP, NodeRecord>
  type Config = map<IP, ConfigEntry>

  /** The record `handle_register` stores for the sender of a REGISTER. */
  function RecordOf(msg: ControlMessage): (r: NodeRecord)
    ensures r.nodeId == msg.nodeId && r.controlPort == msg.controlPort && r.dataPort == msg.dataPort
    ensures r.nodeType == msg.nodeType && r.rtspPort == msg.rtspPort
  {
    NodeRecord(msg.nodeId, msg.controlPort, msg.dataPort, msg.nodeType, msg.rtspPort)
  }

  /** The registry after a REGISTER: the sender's entry is stored or overwritten. */
  function Registered(nodes: Registry, msg: ControlMessage): (r: Registry)
    ensures r.Keys == nodes.Keys + {msg.nodeIp}
    ensures r[msg.nodeIp] == RecordOf(msg)
    ensures forall ip | ip in nodes && ip != msg.nodeIp :: r[ip] == nodes[ip]
  {
    nodes[msg.nodeIp := RecordOf(msg)]
  }

  /** The `NeighborInfo` for a configured neighbour: id and IP from the configuration,
      ports and type from the registry. Every stored record has an "rtsp_port" key, so the
      `if "rtsp_port" in` test always copies it. */
  function InfoOf(id: string, ip: IP, r: NodeRecord): (n: NeighborInfo)
    ensures n.nodeId == id && n.nodeIp == ip
    ensures n.controlPort == r.controlPort && n.dataPort == r.dataPort
    ensures n.nodeType == r.nodeType && n.rtspPort == r.rtspPort
  {
    NeighborInfo(id, ip, r.nodeType, r.controlPort, r.dataPort, r.rtspPort)
  }

  /** The neighbours the response lists: the configured pairs, in order, whose IP is
      registered. */
  function Listed(pairs: seq<(string, IP)>, nodes: Registry): (r: seq<NeighborInfo>)
    ensures |r| <= |pairs|
  {
    if pairs == [] then []
    else
      var p := pairs[|pairs| - 1];
      Listed(pairs[..|pairs| - 1], nodes) + (if p.1 in nodes then [InfoOf(p.0, p.1, nodes[p.1])] else [])
  }

  /** The neighbours listed for `ip`: none when the configuration does not know it. */
  function NeighborsOf(config: Config, nodes: Registry, ip: IP): seq<NeighborInfo> {
    if ip in config then Listed(config[ip].neighbors, nodes) else []
  }

  /** The REGISTER_RESPONSE sent back to `ip`. */
  function ResponseTo(config: Config, nodes: Registry, ip: IP): (c: ControlMessage)
    ensures c.ctype == RegisterResponse
    ensures c.neighbors == NeighborsOf(config, nodes, ip)
  {
    Control(RegisterResponse).(neighbors := NeighborsOf(config, nodes, ip))
  }

  // ---------------------------------------------------------------------------------
  // The configuration file

  /** `text.strip().split()` taken as `[0]` and `[1]`: `None` where Python raises
      `IndexError` because there are fewer than two words. Further words are ignored. */
  function ParsePair(text: string): (r: Option<(string, string)>)
    ensures r.Some? <==> |Words(Strip(text))| >= 2
  {
    var w := Words(Strip(text));
    if |w| >= 2 then Some((w[0], w[1])) else None
  }

  /** The neighbour pairs of the pieces after the first `|`, in order; `None` as soon as
      one piece has fewer than two words. */
  function ParsePairs(parts: seq<string>): (r: Option<seq<(string, IP)>>)
    ensures r.Some? ==> |r.value| == |parts|
  {
    if parts == [] then Some([])
    else
      var front := ParsePairs(parts[..|parts| - 1]);
      var last := ParsePair(parts[|parts| - 1]);
      if front.Some? && last.Some? then Some(front.value + [last.value]) else None
  }

  /** One line of the configuration file, `id ip | nid1 nip1 | ...`: the IP it configures
      and its entry. A line whose pieces do not each hold two words, a blank line among
      them, makes `load_neighbors` raise, here `None`. */
  function ParseLine(line: string): Option<(IP, ConfigEntry)> {
    var parts := Split(Strip(line), '|');
    var main := ParsePair(parts[0]);
    var nbrs := ParsePairs(parts[1..]);
    if main.Some? && nbrs.Some? then Some((main.value.1, ConfigEntry(main.value.0, nbrs.value))) else None
  }

  /** What one line of the file gives: its IP and entry, or the exception. */
  type Line = Option<(IP, ConfigEntry)>

  /** Each line of the file, parsed. */
  function Parsed(lines: seq<string>): (r: seq<Line>)
    ensures |r| == |lines|
  {
    if lines == [] then [] else Parsed(lines[..|lines| - 1]) + [ParseLine(lines[|lines| - 1])]
  }

  /** The dictionary built from parsed lines: each stores its IP's entry, a later line for
      the same IP replacing an earlier one; the first line that raised aborts the load. */
  function Collect(parsed: seq<Line>): (r: Option<Config>)
  {
    if parsed == [] then Some(map[])
    else
      var front := Collect(parsed[..|parsed| - 1]);
      var e := parsed[|parsed| - 1];
      if front.Some? && e.Some? then Some(front.value[e.value.0 := e.value.1]) else None
  }

  /** The configuration `load_neighbors` reads from the file's lines. */
  function LoadSpec(lines: seq<string>): Option<Config> {
    Collect(Parsed(lines))
  }

  /** `load_neighbors`: the file's lines parsed one after the other into a dictionary. */
  method LoadNeighbors(lines: seq<string>) returns (r: Option<Config>)
    ensures r == LoadSpec(lines)
  {
    var cfg: Config := map[];
    var i := 0;
    while i < |lines|
      invariant 0 <= i <= |lines|
      invariant Collect(Parsed(lines[..i])) == Some(cfg)
    {
      var e := ParseLine(lines[i]);
      LoadNext(lines, i);
      if e.None? {
        LoadFails(lines, i);
        return None;
      }
      cfg := cfg[e.value.0 := e.value.1];
      i := i + 1;
    }
    assert lines[..i] == lines;
    return Some(cfg);
  }

  /** Loading one more line: its entry is stored, or the load fails. */
  lemma LoadNext(lines: seq<string>, i: nat)
    requires i < |lines|
    ensures var cfg := Collect(Parsed(lines[..i])); var e := ParseLine(lines[i]);
      Collect(Parsed(lines[..i + 1])) ==
        if cfg.Some? && e.Some? then Some(cfg.value[e.value.0 := e.value.1]) else None
  {
    ParsedStep(lines, i);
    CollectStep(Parsed(lines[..i]), ParseLine(lines[i]));
  }

  /** A line that does not parse makes the whole load fail. */
  lemma LoadFails(lines: seq<string>, i: nat)
    requires i < |lines| && ParseLine(lines[i]).None?
    ensures LoadSpec(lines).None?
  {
    LoadNext(lines, i);
    ParsedStep(lines, i);
    CollectStops(Parsed(lines), i + 1);
  }

  /** Parsing one more line appends its result. */
  lemma ParsedStep(lines: seq<string>, i: nat)
    requires i < |lines|
    ensures Parsed(lines[..i + 1]) == Parsed(lines[..i]) + [ParseLine(lines[i])]
    ensures Parsed(lines[..i + 1]) == Parsed(lines)[..i + 1]
  {
    assert lines[..i + 1][..i] == lines[..i];
    ParsedPrefix(lines, i + 1);
  }

  /** The lines parsed so far are a prefix of all the lines parsed. */
  lemma {:induction false} ParsedPrefix(lines: seq<string>, k: nat)
    requires k <= |lines|
    ensures Parsed(lines[..k]) == Parsed(lines)[..k]
    decreases |lines|
  {
    if k < |lines| {
      var front := lines[..|lines| - 1];
      ParsedPrefix(front, k);
      assert front[..k] == lines[..k];
    } else {
      assert lines[..k] == lines;
    }
  }

  /** The entry the i-th parsed line holds is that line's parse. */
  lemma {:induction false} ParsedAt(lines: seq<string>, i: nat)
    requires i < |lines|
    ensures Parsed(lines)[i] == ParseLine(lines[i])
    decreases |lines|
  {
    if i < |lines| - 1 {
      ParsedAt(lines[..|lines| - 1], i);
    }
  }

  /** Collecting one more parsed line. */
  lemma CollectStep(parsed: seq<Line>, e: Line)
    ensures Collect(parsed + [e]) ==
      if Collect(parsed).Some? && e.Some? then Some(Collect(parsed).value[e.value.0 := e.value.1]) else None
  {
    assert (parsed + [e])[..|parsed|] == parsed;
  }

  /** A line that raised ends the load: nothing after it can make it succeed. */
  lemma {:induction false} CollectStops(parsed: seq<Line>, k: nat)
    requires k <= |parsed| && Collect(parsed[..k]).None?
    ensures Collect(parsed).None?
    decreases |parsed| - k
  {
    if k < |parsed| {
      assert parsed[..k + 1][..k] == parsed[..k];
      CollectStops(parsed, k + 1);
    } else {
      assert parsed[..k] == parsed;
    }
  }

  // ---------------------------------------------------------------------------------
  // The server object

  class Bootstrapper {
    /** `self.nodes` */
    var nodes: Registry
    /** `self.neighbors_config` */
    const neighborsConfig: Config

    /** `__init__` with the configuration `load_neighbors` read: nobody registered. */
    constructor (config: Config)
      ensures nodes == map[] && neighborsConfig == config
    {
      nodes := map[];
      neighborsConfig := config;
    }

    /** `handle_register`: store the sender, then list its configured neighbours that are
        registered, in configuration order; the sender itself is registered by then. The
        response is returned rather than written to the connection. */
    method HandleRegister(msg: ControlMessage) returns (response: ControlMessage)
      modifies this
      ensures nodes == Registered(old(nodes), msg)
      ensures response == ResponseTo(neighborsConfig, nodes, msg.nodeIp)
    {
      nodes := nodes[msg.nodeIp := RecordOf(msg)];
      var listed: seq<NeighborInfo> := [];
      if msg.nodeIp in neighborsConfig {
        var pairs := neighborsConfig[msg.nodeIp].neighbors;
        var i := 0;
        while i < |pairs|
          invariant 0 <= i <= |pairs|
          invariant listed == Listed(pairs[..i], nodes)
        {
          assert pairs[..i + 1][..i] == pairs[..i];
          var (id, ip) := pairs[i];
          if ip in nodes {
            listed := listed + [InfoOf(id, ip, nodes[ip])];
          }
          i := i + 1;
        }
        assert pairs[..i] == pairs;
      }
      response := Control(RegisterResponse).(neighbors := listed);
    }

    /** `handle_client`: the first byte read and the rest of the request, with
        `decoded` the result of `ParseFromString` on it (`None` when that raises). Only a
        control frame carrying a REGISTER is acted on; the reply, framed with the control
        tag, is the message returned, and anything else gets no reply. */
    method HandleClient(header: seq<byte>, data: seq<byte>, decoded: Option<ControlMessage>)
      returns (reply: Option<ControlMessage>)
      modifies this
      ensures Acts(header, data, decoded) ==> nodes == Registered(old(nodes), decoded.value)
      ensures Acts(header, data, decoded) ==>
        reply == Some(ResponseTo(neighborsConfig, nodes, decoded.value.nodeIp))
      ensures !Acts(header, data, decoded) ==> nodes == old(nodes) && reply == None
    {
      reply := None;
      if header == [CONTROL_TAG] && |data| > 0 && decoded.Some? && decoded.value.ctype == Register {
        var response := HandleRegister(decoded.value);
        reply := Some(response);
      }
    }
  }

  /** The one request `handle_client` acts on: tag 0x01, a non-empty body, and a body that
      decodes to a REGISTER. */
  predicate Acts(header: seq<byte>, data: seq<byte>, decoded: Option<ControlMessage>) {
    header == [CONTROL_TAG] && |data| > 0 && decoded.Some? && decoded.value.ctype == Register
  }

  // ---------------------------------------------------------------------------------
  // Properties of registration

  /** Registering twice with the same message leaves the registry and the response as
      the first registration made them. */
  lemma RegisterIdempotent(config: Config, nodes: Registry, msg: ControlMessage)
    ensures Registered(Registered(nodes, msg), msg) == Registered(nodes, msg)
    ensures ResponseTo(config, Registered(Registered(nodes, msg), msg), msg.nodeIp)
         == ResponseTo(config, Registered(nodes, msg), msg.nodeIp)
  {
  }

  /** A response lists a neighbour exactly when it is configured at that position and is
      registered; its id and IP come from the configuration and the rest from the
      registry. */
  lemma {:induction false} ListedMembers(pairs: seq<(string, IP)>, nodes: Registry, n: NeighborInfo)
    ensures n in Listed(pairs, nodes) <==>
      exists i | 0 <= i < |pairs| :: pairs[i].1 in nodes && n == InfoOf(pairs[i].0, pairs[i].1, nodes[pairs[i].1])
  {
    if pairs != [] {
      var front := pairs[..|pairs| - 1];
      var p := pairs[|pairs| - 1];
      ListedMembers(front, nodes, n);
      if n in Listed(front, nodes) {
        var i :| 0 <= i < |front| && front[i].1 in nodes && n == InfoOf(front[i].0, front[i].1, nodes[front[i].1]);
        assert pairs[i] == front[i];
      }
      if exists i | 0 <= i < |pairs| :: pairs[i].1 in nodes && n == InfoOf(pairs[i].0, pairs[i].1, nodes[pairs[i].1]) {
        var i :| 0 <= i < |pairs| && pairs[i].1 in nodes && n == InfoOf(pairs[i].0, pairs[i].1, nodes[pairs[i].1]);
        if i < |front| {
          assert front[i] == pairs[i];
        }
      }
    }
  }

  /** The response keeps configuration order: the pairs of `a` before the pairs of `b`. */
  lemma {:induction false} ListedAppend(a: seq<(string, IP)>, b: seq<(string, IP)>, nodes: Registry)
    ensures Listed(a + b, nodes) == Listed(a, nodes) + Listed(b, nodes)
    decreases |b|
  {
    if b == [] {
      assert a + b == a;
    } else {
      var front := b[..|b| - 1];
      var p := b[|b| - 1];
      var tail := if p.1 in nodes then [InfoOf(p.0, p.1, nodes[p.1])] else [];
      ListedAppend(a, front, nodes);
      assert (a + b)[..|a + b| - 1] == a + front && (a + b)[|a + b| - 1] == p;
      assert Listed(a + b, nodes) == Listed(a + front, nodes) + tail;
      assert Listed(b, nodes) == Listed(front, nodes) + tail;
    }
  }

  /** When every configured neighbour is registered, each one is listed, in order. */
  lemma {:induction false} ListedAllRegistered(pairs: seq<(string, IP)>, nodes: Registry)
    requires forall i | 0 <= i < |pairs| :: pairs[i].1 in nodes
    ensures |Listed(pairs, nodes)| == |pairs|
    ensures forall i | 0 <= i < |pairs| ::
      Listed(pairs, nodes)[i] == InfoOf(pairs[i].0, pairs[i].1, nodes[pairs[i].1])
  {
    if pairs != [] {
      ListedAllRegistered(pairs[..|pairs| - 1], nodes);
    }
  }

  /** The response only depends on the registry entries of configured neighbours:
      registering a node that is not one of them does not change it. */
  lemma {:induction false} ListedIgnores(pairs: seq<(string, IP)>, nodes: Registry, msg: ControlMessage)
    requires forall i | 0 <= i < |pairs| :: pairs[i].1 != msg.nodeIp
    ensures Listed(pairs, Registered(nodes, msg)) == Listed(pairs, nodes)
  {
    if pairs != [] {
      ListedIgnores(pairs[..|pairs| - 1], nodes, msg);
    }
  }

  /** A node the configuration does not know is answered with no neighbours, not an
      error. */
  lemma UnconfiguredGetsNone(config: Config, nodes: Registry, ip: IP)
    requires ip !in config
    ensures ResponseTo(config, nodes, ip).neighbors == []
  {
  }

  // ---------------------------------------------------------------------------------
  // Properties of the configuration file

  /** The text of a configured pair: id and IP separated by a space. */
  function PairText(p: (string, string)): string {
    p.0 + " " + p.1
  }

  /** A word: non-empty, without white space or the `|` separator. */
  predicate IsWord(s: string) {
    |s| > 0 && forall i | 0 <= i < |s| :: !IsSpace(s[i]) && s[i] != '|'
  }

  /** The text of the pieces of a line: the node's own pair, then each neighbour pair. */
  function PieceTexts(nbrs: seq<(string, IP)>): (r: seq<string>)
    ensures |r| == |nbrs|
    ensures forall i | 0 <= i < |nbrs| :: r[i] == PairText(nbrs[i])
  {
    if nbrs == [] then [] else PieceTexts(nbrs[..|nbrs| - 1]) + [PairText(nbrs[|nbrs| - 1])]
  }

  /** A configuration line for node `id` at `ip` with neighbours `nbrs`. */
  function LineText(id: string, ip: IP, nbrs: seq<(string, IP)>): string {
    Join([PairText((id, ip))] + PieceTexts(nbrs), "|")
  }

  /** A line written as `id ip|nid1 nip1|...` with words for ids and IPs parses back to
      its IP and entry. */
  lemma LineRoundTrip(id: string, ip: IP, nbrs: seq<(string, IP)>)
    requires IsWord(id) && IsWord(ip)
    requires forall i | 0 <= i < |nbrs| :: IsWord(nbrs[i].0) && IsWord(nbrs[i].1)
    ensures ParseLine(LineText(id, ip, nbrs)) == Some((ip, ConfigEntry(id, nbrs)))
  {
    var pieces := [PairText((id, ip))] + PieceTexts(nbrs);
    forall i | 0 <= i < |pieces|
      ensures '|' !in pieces[i]
    {
      if i == 0 {
        PairTextClean(id, ip);
      } else {
        assert pieces[i] == PairText(nbrs[i - 1]);
        PairTextClean(nbrs[i - 1].0, nbrs[i - 1].1);
      }
    }
    JoinEnds(pieces, id, ip, nbrs);
    StripClean(LineText(id, ip, nbrs));
    SplitJoin(pieces, '|');
    PairParses(id, ip);
    PairsParse(nbrs);
    assert pieces[1..] == PieceTexts(nbrs);
  }

  /** A pair's text holds no `|`. */
  lemma PairTextClean(a: string, b: string)
    requires IsWord(a) && IsWord(b)
    ensures '|' !in PairText((a, b))
  {
    var t := PairText((a, b));
    forall k | 0 <= k < |t|
      ensures t[k] != '|'
    {
      if k < |a| {
        assert t[k] == a[k];
      } else if k > |a| {
        assert t[k] == b[k - |a| - 1];
      }
    }
  }

  /** A line starts with the node's id and ends with the last word written, so it has
      no white space at either end. */
  lemma JoinEnds(pieces: seq<string>, id: string, ip: IP, nbrs: seq<(string, IP)>)
    requires IsWord(id) && IsWord(ip)
    requires forall i | 0 <= i < |nbrs| :: IsWord(nbrs[i].0) && IsWord(nbrs[i].1)
    requires pieces == [PairText((id, ip))] + PieceTexts(nbrs)
    ensures var t := Join(pieces, "|"); |t| > 0 && !IsSpace(t[0]) && !IsSpace(t[|t| - 1])
  {
    JoinFirst(pieces, "|");
    var lastWord := if nbrs == [] then ip else nbrs[|nbrs| - 1].1;
    assert pieces[|pieces| - 1] == PairText(if nbrs == [] then (id, ip) else nbrs[|nbrs| - 1]);
    JoinLast(pieces, "|");
  }

  /** A join starts with the first piece. */
  lemma {:induction false} JoinFirst(parts: seq<string>, sep: string)
    requires |parts| >= 1
    ensures |Join(parts, sep)| >= |parts[0]| && Join(parts, sep)[..|parts[0]|] == parts[0]
  {
    if |parts| > 1 {
      var rest := Join(parts[1..], sep);
      assert Join(parts, sep) == parts[0] + (sep + rest);
    }
  }

  /** A join ends with the last piece. */
  lemma {:induction false} JoinLast(parts: seq<string>, sep: string)
    requires |parts| >= 1
    ensures var t := Join(parts, sep); var l := parts[|parts| - 1];
      |t| >= |l| && t[|t| - |l|..] == l
    decreases |parts|
  {
    if |parts| > 1 {
      JoinLast(parts[1..], sep);
      var rest := Join(parts[1..], sep);
      assert Join(parts, sep) == (parts[0] + sep) + rest;
    }
  }

  /** Two words separated by a space parse as that pair. */
  lemma PairParses(a: string, b: string)
    requires IsWord(a) && IsWord(b)
    ensures ParsePair(PairText((a, b))) == Some((a, b))
  {
    var t := PairText((a, b));
    StripClean(t);
    WordsPair(a, b);
  }

  /** Every piece written for a neighbour parses back to its pair. */
  lemma {:induction false} PairsParse(nbrs: seq<(string, IP)>)
    requires forall i | 0 <= i < |nbrs| :: IsWord(nbrs[i].0) && IsWord(nbrs[i].1)
    ensures ParsePairs(PieceTexts(nbrs)) == Some(nbrs)
  {
    if nbrs != [] {
      var front := nbrs[..|nbrs| - 1];
      var last := nbrs[|nbrs| - 1];
      assert front + [last] == nbrs;
      var texts := PieceTexts(nbrs);
      assert texts[..|texts| - 1] == PieceTexts(front);
      assert texts[|texts| - 1] == PairText(last);
      PairsParse(front);
      PairParses(last.0, last.1);
    }
  }

  /** `(a + " " + b).split()` is `[a, b]` for words `a` and `b`. */
  lemma WordsPair(a: string, b: string)
    requires IsWord(a) && IsWord(b)
    ensures Words(PairText((a, b))) == [a, b]
  {
    var t := PairText((a, b));
    var tail := " " + b;
    assert t == a + tail;
    WordLengthOf(a, tail);
    assert t[..|a|] == a && t[|a|..] == tail;
    assert Words(t) == [a] + Words(tail);
    assert IsSpace(tail[0]) && tail[1..] == b;
    assert Words(tail) == Words(b);
    WordLengthOf(b, "");
    assert b + "" == b;
    assert b[..|b|] == b && b[|b|..] == [];
    assert Words(b) == [b] + Words([]);
  }

  /** A word followed by white space or nothing is one run of non-space characters. */
  lemma {:induction false} WordLengthOf(w: string, rest: string)
    requires forall i | 0 <= i < |w| :: !IsSpace(w[i])
    requires |rest| > 0 ==> IsSpace(rest[0])
    ensures WordLength(w + rest) == |w|
    decreases |w|
  {
    if w != [] {
      WordLengthOf(w[1..], rest);
      assert (w + rest)[1..] == w[1..] + rest;
    } else {
      assert w + rest == rest;
    }
  }

  /** A load succeeds exactly when no line raised. */
  lemma {:induction false} CollectSucceeds(parsed: seq<Line>)
    ensures Collect(parsed).Some? <==> forall i | 0 <= i < |parsed| :: parsed[i].Some?
  {
    if parsed != [] {
      var front := parsed[..|parsed| - 1];
      CollectSucceeds(front);
      assert forall i | 0 <= i < |front| :: front[i] == parsed[i];
    }
  }

  /** A loaded configuration holds an entry for exactly the IPs some line configures. */
  lemma {:induction false} CollectKeys(parsed: seq<Line>, ip: IP)
    requires Collect(parsed).Some?
    ensures ip in Collect(parsed).value <==>
      exists i | 0 <= i < |parsed| :: parsed[i].Some? && parsed[i].value.0 == ip
  {
    if parsed != [] {
      var front := parsed[..|parsed| - 1];
      var e := parsed[|parsed| - 1].value;
      CollectKeys(front, ip);
      var cfg := Collect(front).value;
      assert Collect(parsed).value == cfg[e.0 := e.1];
      if ip in cfg {
        var i :| 0 <= i < |front| && front[i].Some? && front[i].value.0 == ip;
        assert front[i] == parsed[i];
      }
      if ip != e.0 && exists i | 0 <= i < |parsed| :: parsed[i].Some? && parsed[i].value.0 == ip {
        var i :| 0 <= i < |parsed| && parsed[i].Some? && parsed[i].value.0 == ip;
        assert i < |front| && front[i] == parsed[i];
      }
    }
  }

  /** The entry a loaded configuration holds for an IP is the one of the last line for
      it. */
  lemma {:induction false} CollectLast(parsed: seq<Line>, i: nat)
    requires Collect(parsed).Some? && i < |parsed| && parsed[i].Some?
    requires forall j | i < j < |parsed| :: parsed[j].Some? ==> parsed[j].value.0 != parsed[i].value.0
    ensures parsed[i].value.0 in Collect(parsed).value
    ensures Collect(parsed).value[parsed[i].value.0] == parsed[i].value.1
  {
    var front := parsed[..|parsed| - 1];
    var e := parsed[|parsed| - 1].value;
    assert Collect(parsed).value == Collect(front).value[e.0 := e.1];
    if i < |front| {
      assert front[i] == parsed[i];
      assert forall j | i < j < |front| :: front[j] == parsed[j];
      CollectLast(front, i);
    }
  }

  /** A file that loads stores, for each line, the entry of the last line configuring the
      same IP; in particular a later line for an IP replaces an earlier one. */
  lemma LastLineWins(lines: seq<string>, i: nat)
    requires LoadSpec(lines).Some? && i < |lines|
    requires ParseLine(lines[i]).Some?
    requires forall j | i < j < |lines| :: ParseLine(lines[j]).Some? ==> ParseLine(lines[j]).value.0 != ParseLine(lines[i]).value.0
    ensures ParseLine(lines[i]).value.0 in LoadSpec(lines).value
    ensures LoadSpec(lines).value[ParseLine(lines[i]).value.0] == ParseLine(lines[i]).value.1
  {
    var parsed := Parsed(lines);
    var ip := ParseLine(lines[i]).value.0;
    forall j | i <= j < |lines|
      ensures parsed[j] == ParseLine(lines[j])
    {
      ParsedAt(lines, j);
    }
    CollectLast(parsed, i);
  }

  /** A file loads exactly when each of its lines parses. */
  lemma LoadSucceeds(lines: seq<string>)
    ensures LoadSpec(lines).Some? <==> forall i | 0 <= i < |lines| :: ParseLine(lines[i]).Some?
  {
    var parsed := Parsed(lines);
    CollectSucceeds(parsed);
    forall i | 0 <= i < |lines|
      ensures parsed[i] == ParseLine(lines[i])
    {
      ParsedAt(lines, i);
    }
  }
}
