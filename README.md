# Projeto-ESR control plane in Dafny

This project models the control plane of Projeto-ESR, an overlay network that distributes video. A rendezvous bootstrapper tells each node its configured neighbours. Stream sources flood route advertisements through relay nodes towards clients. Clients activate the best route back to a source, and an RTSP session runs over RTP.

Each node keeps dictionaries that its message handlers update: neighbours, routes, sessions and workers. In the model every node is a Dafny `class` whose fields hold those tables. An insertion-ordered Python `dict` becomes an `OrdMap.OMap`, which keeps the key order and a `map`. Each handler is one sequential `method`. Its `ensures` ties the new state to a specification function of the old state and the received message. The properties the code promises are lemmas about those functions.

Messages are datatypes: `Messages.ControlMessage` and `Messages.FloodingMessage` carry the protobuf fields, and only the one-byte `0x01`/`0x02` tag framing is kept as bytes. Every datagram or TCP message a handler sends is appended to an `outbox` sequence of (destination, message) pairs, so "exactly one ACTIVATE_ROUTE is sent" and "nothing is sent" can be stated. Probe outcomes, round-trip times, timestamps, random session ids and whether a send succeeds are method parameters. Float times become `Common.Cost`: a natural number or `Inf`.

The modules follow the source files:

| module | source file |
|---|---|
| `Rendezvous` | etapa3/BootStrapper.py |
| `RelayNode`, `RelaySpec`, `RelayText`, `RelaySockets` | etapa3/Node.py |
| `StreamSource` | etapa3/Server.py |
| `Rtp` | etapa3/RtpPacket.py (RFC 3550 section 5.1 fixed header plus the NUL-terminated file-name prefix) |
| `HopNode` | etapa3/ESR-TP2/Node.py |
| `HopRouting` | the hop-count routing table that etapa3/ESR-TP2/Node.py and etapa3/Client.py share |
| `HopClient` | etapa3/Client.py |
| `RtspSession` | etapa3/VideoSession.py |
| `RtspWorker` | etapa3/ServerWorker.py |
| `IndexedWorker` | etapa3/ESR-TP2/ServerWorkerOk.py |
| `FloodSource` | etapa3/ESR-TP2/Server.py |
| `PointOfPresence` | ProgEx/Python/PoP.py |
| `RtspPlayer` | ProgEx/Python/Client.py |
| `PlainNode` | etapa2/Node.py |
| `TentativasClient` | Client.py |
| `SessionClient` | etapa3/ESR-TP2/ClientOk.py |
| `OverlayNode` | ONode.py |
| `Common`, `OrdMap`, `Text`, `Messages`, `Liveness`, `Peers`, `Rtsp` | shared definitions: costs and IPs, ordered dictionaries, Python string operations, control messages, neighbour records, the neighbour table with its liveness rules, RTSP text formats |

The liveness tables that the earlier variants share are one generic neighbour table, `Peers.Peer`. Each variant differs only in its `Peers.Rules`: the entry stored for a listed neighbour and for an unknown announcer, the counter key a sweep reads ("failed-attempts" or "tentativas"), and whether an expired neighbour is reported to the bootstrapper.

## Model

| member | source | states |
|---|---|---|
| Rendezvous.RecordOf | etapa3/BootStrapper.py:66-80 | the stored record carries the sender's id, control and data ports, type and RTSP port |
| Rendezvous.Registered | etapa3/BootStrapper.py:73-80 | a REGISTER stores or overwrites the sender's entry; no other entry is added, removed or changed |
| Rendezvous.InfoOf | etapa3/BootStrapper.py:91-98 | a listed neighbour has id and IP from the configuration, ports and type from the registry |
| Rendezvous.Listed | etapa3/BootStrapper.py:89-100 | the response never lists more neighbours than are configured |
| Rendezvous.ResponseTo | etapa3/BootStrapper.py:84-100 | the reply has type REGISTER_RESPONSE and lists the sender's configured neighbours that are registered |
| Rendezvous.ParsePair | etapa3/BootStrapper.py:33-34 | a piece parses exactly when it holds at least two words (`IndexError` otherwise) |
| Rendezvous.ParsePairs | etapa3/BootStrapper.py:37-40 | the neighbour list has one pair per piece after the first `|` |
| Rendezvous.Parsed | etapa3/BootStrapper.py:31 | every line of the file is parsed, one result per line |
| Rendezvous.LoadNeighbors | etapa3/BootStrapper.py:28-46 | the loop builds exactly the configuration the line-by-line specification gives, or fails on the first bad line |
| Rendezvous.LoadNext | etapa3/BootStrapper.py:31-45 | loading one more line stores its entry under its IP, or fails |
| Rendezvous.LoadFails | etapa3/BootStrapper.py:34 | a line with a piece of fewer than two words makes the whole load fail |
| Rendezvous.Bootstrapper.constructor | etapa3/BootStrapper.py:6-10 | nothing is registered at start and the configuration is the loaded one |
| Rendezvous.Bootstrapper.HandleRegister | etapa3/BootStrapper.py:65-102 | the registry becomes `Registered(old, msg)` and the reply lists the registered configured neighbours, in configuration order |
| Rendezvous.Bootstrapper.HandleClient | etapa3/BootStrapper.py:48-63 | only tag 0x01 with a non-empty body decoding to REGISTER registers and is answered; anything else leaves the registry unchanged and gets no reply |
| Rendezvous.RegisterIdempotent | etapa3/BootStrapper.py:73-100 | registering twice with the same message gives the same registry and the same response |
| Rendezvous.ListedMembers | etapa3/BootStrapper.py:89-100 | a neighbour is listed exactly when it is configured and registered, with config id/IP and registry ports/type |
| Rendezvous.ListedAppend | etapa3/BootStrapper.py:89 | the response keeps configuration order |
| Rendezvous.ListedAllRegistered | etapa3/BootStrapper.py:89-100 | when all configured neighbours are registered, each is listed at its configured position |
| Rendezvous.ListedIgnores | etapa3/BootStrapper.py:74-80 | registering a node that is not a configured neighbour does not change another node's response |
| Rendezvous.UnconfiguredGetsNone | etapa3/BootStrapper.py:88 | a node absent from the configuration gets an empty neighbour list, not an error |
| Rendezvous.LineRoundTrip | etapa3/BootStrapper.py:32-45 | a line `id ip|nid1 nip1|...` of words parses back to `ip ↦ (id, [(nid1, nip1), ...])`, order kept |
| Rendezvous.PairParses | etapa3/BootStrapper.py:38-39 | two words separated by a space parse as that pair |
| Rendezvous.PairsParse | etapa3/BootStrapper.py:37-40 | every written neighbour piece parses back to its pair, in order |
| Rendezvous.WordsPair | etapa3/BootStrapper.py:38 | `split()` of two space-separated words gives the two words |
| Rendezvous.CollectSucceeds | etapa3/BootStrapper.py:31-45 | a load succeeds exactly when no line raised |
| Rendezvous.CollectKeys | etapa3/BootStrapper.py:42 | the loaded configuration has an entry for exactly the IPs some line configures |
| Rendezvous.CollectLast | etapa3/BootStrapper.py:42-45 | an IP's entry is that of the last line configuring it |
| Rendezvous.LastLineWins | etapa3/BootStrapper.py:42-45 | a later line for the same IP replaces the earlier one |
| Rendezvous.LoadSucceeds | etapa3/BootStrapper.py:28-46 | a file loads exactly when each of its lines parses |
| RelaySpec.Registered | etapa3/Node.py:91-100 | a neighbour listed in a REGISTER_RESPONSE is stored active, with zero failed attempts, infinite accumulated time and no best time, keeping its id and ports |
| RelaySpec.SelfMessage | etapa3/Node.py:67-74 | the node's own control messages carry its id, IP, type and ports and no neighbour list |
| RelaySpec.Notifications | etapa3/Node.py:111-153 | one UPDATE_NEIGHBORS describing this node goes to each neighbour, in table order |
| RelaySpec.RegisterReplyEffect | etapa3/Node.py:80-107 | a REGISTER_RESPONSE replaces the neighbour table by exactly the listed nodes (last listing of an IP wins), all active, and notifies each of them; any other reply changes nothing |
| RelaySpec.Newcomer | etapa3/Node.py:257-267 | a node first heard of through UPDATE_NEIGHBORS is stored active with zero failures and infinite best and accumulated times |
| RelaySpec.PingReceived | etapa3/Node.py:392-398 | a PING updates at most the sender's accumulated time and keeps the table's keys and their order |
| RelaySpec.PongFor | etapa3/Node.py:401-404 | every PING is answered by a PONG carrying this node's id |
| RelaySpec.MinAcc | etapa3/Node.py:934 | the smallest accumulated time over the neighbours (a missing time counting as infinite): no neighbour has a smaller one and, unless infinite, some neighbour has it |
| RelaySpec.PingFor | etapa3/Node.py:327-358 | the PING sent to a neighbour is of type PING and carries this node's IP and id |
| RelaySpec.FloodRoute | etapa3/Node.py:446-454 | a new route row records the advertiser's IP, id and route state, with stream and flow inactive and no RTSP request |
| RelaySpec.AddRouteValid | etapa3/Node.py:441-444 | adding a row for one stream keeps the routing table well formed and adds exactly the advertiser as a destination |
| RelaySpec.AddRouteRows | etapa3/Node.py:440-454 | one stream's row is added under the advertiser only when missing; an existing row and every other destination are kept |
| RelaySpec.RowsAddedCompose | etapa3/Node.py:439 | two rounds of row additions compose into one over the concatenated streams |
| RelaySpec.AddRoutesValid | etapa3/Node.py:432-456 | `update_route_table` keeps the table well formed and adds the advertiser as a destination exactly when it advertised some stream |
| RelaySpec.AddRoutesRows | etapa3/Node.py:432-456 | after `update_route_table` the advertiser has a row for each advertised stream; rows already there and other destinations are unchanged |
| RelaySpec.Relayed | etapa3/Node.py:423-426 | a re-sent advertisement names this node as its source and keeps the streams, type and route state |
| RelaySpec.Reflood | etapa3/Node.py:416-430 | every re-sent copy is the rewritten advertisement; the message is rewritten exactly when a connection to some target succeeds, and is left as received when none does |
| RelaySpec.RefloodTargets | etapa3/Node.py:416-430 | the advertisement is re-sent, in table order, to exactly the active non-client neighbours that are not routing destinations and accept the connection, never back to its sender |
| RelaySpec.EligibleInMembers | etapa3/Node.py:417-419 | a neighbour is a re-send target exactly when it is in the table, active, not a client and not a routing destination |
| RelaySpec.SwitchedOff | etapa3/Node.py:553-555 | a deactivated row has stream and flow inactive and keeps its source, ports and request |
| RelaySpec.DeactivateMsg | etapa3/Node.py:568-573 | the DEACTIVATE_ROUTE names only the stream and this node as source |
| RelaySpec.DeactivateOver | etapa3/Node.py:541-581 | deactivation leaves neighbours and sessions alone and keeps the routing table's destinations and their order |
| RelaySpec.DeactivateSendsAppend | etapa3/Node.py:568-581 | the deactivations sent for two runs of destinations are those of each, in order |
| RelaySpec.DeactivateAtEffect | etapa3/Node.py:548-555 | one iteration changes at most the row of the destination it visits |
| RelaySpec.DeactivateAtOutbox | etapa3/Node.py:568-581 | one iteration sends a deactivation exactly when it switches a route off |
| RelaySpec.DeactivateOverRows | etapa3/Node.py:548-555 | the loop switches off every visited destination other than `dest` that carried the stream, and leaves unvisited destinations alone |
| RelaySpec.DeactivateOverUntouched | etapa3/Node.py:548 | a destination the loop has not reached keeps its rows |
| RelaySpec.DeactivateOverSends | etapa3/Node.py:568-581 | the loop sends one DEACTIVATE_ROUTE per route it switches off, in table order |
| RelaySpec.DeactivateOverSendsStep | etapa3/Node.py:548-579 | one more destination appends its deactivation, if any, after those of the earlier ones |
| RelaySpec.DeactivateEffect | etapa3/Node.py:541-581 | `deactivate_routes(dest, f)` leaves no destination but `dest` carrying `f`, changes only the rows of `f`, and sends one DEACTIVATE_ROUTE per route it switched off |
| RelaySpec.DeactivatePrunes | etapa3/Node.py:548-555 | the row of `dest` itself is never touched |
| RelaySpec.ScanAppend | etapa3/Node.py:476-485 | the best-route search over a concatenation continues from where the first part left off |
| RelaySpec.ScanRaises | etapa3/Node.py:480-481 | the search raises (`KeyError`) exactly when a candidate destination has no neighbour entry or no accumulated time |
| RelaySpec.ScanFindsFirstLeast | etapa3/Node.py:476-485 | when it does not raise, the search returns the first candidate with the strictly least accumulated time, and nothing when every time is infinite |
| RelaySpec.CandidatesExist | etapa3/Node.py:476-478 | each candidate names an existing row of a requested stream |
| RelaySpec.RowCandidatesExist | etapa3/Node.py:477-478 | a row candidate names its own destination and a requested stream it has a row for |
| RelaySpec.ActivateMsg | etapa3/Node.py:514-519 | the ACTIVATE_ROUTE sent upstream names the one chosen stream, this node as source and its RTP port |
| RelaySpec.JoinSession | etapa3/Node.py:498-508 | joining adds the requester to the stream's session and changes no other stream |
| RelaySpec.Chosen | etapa3/Node.py:487-496 | the chosen row is switched on (stream and flow active) unless its stream is already active; no other row changes |
| RelaySpec.ActivationSends | etapa3/Node.py:512-534 | an ACTIVATE_ROUTE goes to the chosen destination exactly when its row was not yet active, and an ACTIVE request only when the row's source is a server |
| RelaySpec.ActivatedRoutes | etapa3/Node.py:487-510 | after activation the chosen row carries the stream and no other destination does |
| RelaySpec.ActivatedSessions | etapa3/Node.py:498-508 | the requester joins the stream's session; an existing entry keeps its RTP port, a new one gets the message's; other receivers and streams are unchanged |
| RelaySpec.ActivatedSends | etapa3/Node.py:510-534 | activation sends the deactivations of the competing routes, then the activation and server request |
| RelaySpec.ActivateChoice | etapa3/Node.py:476-539 | a raising search or an all-infinite search changes nothing; otherwise the chosen pair is an existing row of a requested stream and activation proceeds on it |
| RelaySpec.DeactivateReceivedEffect | etapa3/Node.py:218-229 | a DEACTIVATE_ROUTE removes the sender from the stream's session and, only when the session becomes empty, deactivates the stream's routes; a missing session or receiver changes nothing |
| RelaySpec.AfterProbe | etapa3/Node.py:372-383 | a PONG records the RTT as best time, resets failures and marks the neighbour active; a lost probe adds one failure |
| RelaySpec.ProbeNeighbor | etapa3/Node.py:320-383 | a probe sends one PING to the neighbour and keeps the routing and session tables and the neighbour keys |
| RelaySpec.LeaveStream | etapa3/Node.py:300-309 | one stream of the cascade keeps the neighbours and the tables' keys and order |
| RelaySpec.LeaveSessions | etapa3/Node.py:299-309 | the session loop keeps the neighbours and the tables' keys and order |
| RelaySpec.Expire | etapa3/Node.py:284-311 | expiry keeps the neighbour table's keys and order |
| RelaySpec.SweepStep | etapa3/Node.py:279-318 | one iteration of the sweep keeps the neighbour table's keys and order |
| RelaySpec.SweepOver | etapa3/Node.py:276-318 | the sweep keeps the neighbour table's keys and order |
| RelaySpec.AfterSweepAgrees | etapa3/Node.py:280-289 | clients are never swept; for other neighbours the sweep's expiry and failure count agree with the shared liveness rule (two failures make a neighbour inactive) |
| RelaySpec.DeactivateSendsContents | etapa3/Node.py:568-581 | the deactivations go one to each switched-off destination, in order |
| RelaySpec.DeactivateSwitchesOff | etapa3/Node.py:541-581 | `deactivate_routes` never switches a route on and sends only DEACTIVATE_ROUTE messages |
| RelaySpec.AfterDeactivateOff | etapa3/Node.py:551-555 | a row that did not carry a stream still does not after deactivation |
| RelaySpec.DeactivationsAppended | etapa3/Node.py:564-579 | appending DEACTIVATE_ROUTE messages keeps the outbox's earlier contents |
| RelaySpec.LeaveStreamSessions | etapa3/Node.py:301-304 | one stream of the cascade removes the expired neighbour from that stream's session only |
| RelaySpec.LeaveStreamEffect | etapa3/Node.py:300-309 | one stream of the cascade only switches routes off, prunes the stream when its session becomes empty, and only sends deactivations |
| RelaySpec.NoneSwitchedOnTrans | etapa3/Node.py:299-309 | switching routes off twice is switching them off |
| RelaySpec.OnlyDeactivationsTrans | etapa3/Node.py:299-309 | deactivations followed by deactivations are deactivations |
| RelaySpec.LeaveSessionsSessions | etapa3/Node.py:299-304 | the cascade removes the expired neighbour from the session of every stream it visits, and from no other |
| RelaySpec.SessionsLeftStep | etapa3/Node.py:300-304 | session removals over a stream list compose stream by stream |
| RelaySpec.LeaveSessionsEffect | etapa3/Node.py:299-309 | the cascade only switches routes off and only sends deactivations |
| RelaySpec.LeaveSessionsPrunes | etapa3/Node.py:307-309 | a visited stream left with no receivers is carried by no route |
| RelaySpec.PruneStep | etapa3/Node.py:300-309 | a later stream of the cascade does not undo the pruning of an earlier one |
| RelaySpec.StillPruned | etapa3/Node.py:299-309 | a stream carried by no route stays so while routes are only switched off |
| RelaySpec.ExpireEffect | etapa3/Node.py:284-311 | expiry marks the neighbour inactive with infinite accumulated time, deletes its routing destination, removes it from every session, and leaves no stream without receivers carried by a route |
| RelaySpec.SweepStepEntries | etapa3/Node.py:279-318 | one iteration changes at most the visited neighbour's entry, as the expire/probe/skip rule says |
| RelaySpec.SweepStepCascade | etapa3/Node.py:284-309 | one iteration keeps expired neighbours gone and streams pruned, and an expiry leaves its neighbour gone |
| RelaySpec.SweepStepSends | etapa3/Node.py:311-318 | one iteration only appends, pings only the visited neighbour and only when a probe was due |
| RelaySpec.SweepOverEntries | etapa3/Node.py:276-318 | each visited neighbour's entry becomes what the expire/probe/skip rule gives for its own probe; the others are unchanged |
| RelaySpec.SweepOverCascade | etapa3/Node.py:276-318 | every neighbour expired in the sweep ends with no routes and no sessions |
| RelaySpec.CascadeStep | etapa3/Node.py:276-318 | the cascade facts extend from a prefix of the sweep to one more neighbour |
| RelaySpec.SweepOverSends | etapa3/Node.py:276-318 | the sweep only appends and pings only neighbours whose probe was due |
| RelaySpec.SweepSendsStep | etapa3/Node.py:276-318 | the ping facts extend from a prefix of the sweep to one more neighbour |
| RelaySpec.SendsExtend | etapa3/Node.py:276-318 | two extensions of the outbox make one |
| RelaySpec.PingedKept | etapa3/Node.py:276-318 | a PING already sent stays in the outbox |
| RelaySpec.SweepOverPingsDue | etapa3/Node.py:311-316 | every visited neighbour whose probe was due is pinged |
| RelaySpec.PingedAppended | etapa3/Node.py:351-358 | a PING appended to the outbox counts as sent |
| RelaySpec.SweepOverValid | etapa3/Node.py:276-318 | the sweep keeps the routing table and the sessions well formed |
| RelaySpec.SweepRoundEffect | etapa3/Node.py:273-318 | a sweep round updates each neighbour by the expire/probe/skip rule, leaves every expired neighbour without routes and sessions, prunes streams nobody receives, pings exactly the neighbours whose probe was due, and only appends to the outbox |
| RelaySpec.AckReply | etapa3/Node.py:930-949 | an ACK goes back to the asking client with the least accumulated time; with no neighbours `min` raises and nothing is sent |
| RelaySpec.PingAnswered | etapa3/Node.py:195-196 | a PING on the control port updates only the sender's accumulated time, if known, and is answered by a PONG |
| RelaySpec.HandlersKeepValid | etapa3/Node.py:181-236 | every control-port and data-port handler keeps each table listing its keys once |
| RelaySpec.ControlKeepsValid | etapa3/Node.py:192-200 | control messages keep the tables well formed |
| RelaySpec.FloodingKeepsValid | etapa3/Node.py:202-229 | flooding messages keep the tables well formed |
| RelaySpec.FloodKeepsValid | etapa3/Node.py:407-430 | `handle_flooding_message` keeps the tables well formed |
| RelaySpec.ActivateKeepsValid | etapa3/Node.py:458-539 | `activate_best_route` keeps the tables well formed |
| RelaySpec.DeactivateReceivedKeepsValid | etapa3/Node.py:218-229 | a DEACTIVATE_ROUTE keeps the tables well formed |
| RelaySpec.SweepKeepsValid | etapa3/Node.py:273-318 | a sweep keeps the tables well formed |
| RelayNode.Relay.constructor | etapa3/Node.py:10-41 | a node starts with empty neighbour, routing and session tables and nothing sent |
| RelayNode.Relay.RegisterWithBootstrapper | etapa3/Node.py:59-109 | the node sends its REGISTER and its state becomes what `RegisterReplyEffect` describes |
| RelayNode.Relay.NotifyNeighbors | etapa3/Node.py:111-153 | the loop sends exactly `Notifications` over the table's neighbours and changes no table |
| RelayNode.Relay.HandleUpdateNeighbors | etapa3/Node.py:238-271 | a known neighbour is marked active; a new one is added as a newcomer |
| RelayNode.Relay.HandlePing | etapa3/Node.py:385-405 | the sender's accumulated time is recorded and a PONG is sent back |
| RelayNode.Relay.BestAccumulated | etapa3/Node.py:336-353 | the loop finds the least accumulated time, `MinAcc` |
| RelayNode.Relay.HandleAck | etapa3/Node.py:930-949 | the node answers with `AckReply` and changes nothing else |
| RelayNode.Relay.UpdateRouteTable | etapa3/Node.py:432-456 | the loop over the advertised streams builds `AddRoutes`; nothing else changes |
| RelayNode.Relay.AddRouteRow | etapa3/Node.py:439-454 | one stream's row is added when missing |
| RelayNode.Relay.HandleFloodingMessage | etapa3/Node.py:407-430 | the route table is updated and the advertisement re-sent to the eligible neighbours that accept the connection |
| RelayNode.Relay.ResendFlood | etapa3/Node.py:416-430 | the re-send loop sends `Reflood`'s copies, to the eligible neighbours whose connection succeeds, and changes no table |
| RelayNode.Relay.DeactivateRoutes | etapa3/Node.py:541-581 | the loop over a snapshot of the routing table does what `DeactivateEffect` describes |
| RelayNode.Relay.DeactivateRouteAt | etapa3/Node.py:548-579 | one destination is switched off and told so when it carried the stream |
| RelayNode.Relay.SearchBestRoute | etapa3/Node.py:476-485 | the nested loop computes the first strictly least candidate, or raises, as `ScanFindsFirstLeast` and `ScanRaises` describe |
| RelayNode.Relay.ScanRow | etapa3/Node.py:477-485 | the inner loop scans one destination's rows of the requested streams; it raises only when that destination is unknown |
| RelayNode.Relay.ActivateBestRoute | etapa3/Node.py:458-539 | the chosen route is switched on, the requester joins the session, competing routes are switched off and upstream is asked for the stream |
| RelayNode.Relay.SwitchOnRoute | etapa3/Node.py:487-534 | activation of a chosen row does what `ActivatedRoutes`, `ActivatedSessions` and `ActivatedSends` describe |
| RelayNode.Relay.RequestStream | etapa3/Node.py:512-534 | the ACTIVATE_ROUTE and ACTIVE request are appended as `ActivationSends` says |
| RelayNode.Relay.HandleDeactivateRoute | etapa3/Node.py:218-229 | the handler does what `DeactivateReceivedEffect` describes |
| RelayNode.Relay.ProbeNeighbor | etapa3/Node.py:320-383 | one probe of a neighbour, as `AfterProbe` describes |
| RelayNode.Relay.ExpireNeighbor | etapa3/Node.py:284-311 | expiry of a neighbour, as `ExpireEffect` describes |
| RelayNode.Relay.LeaveSessionsLoop | etapa3/Node.py:299-309 | the session loop over a snapshot of the session table |
| RelayNode.Relay.LeaveSession | etapa3/Node.py:300-309 | one stream of the cascade |
| RelayNode.Relay.SweepNeighbors | etapa3/Node.py:273-318 | one round of `send_ping_to_neighbors` does what `SweepRoundEffect` describes and keeps the tables well formed |
| RelayNode.Relay.SweepLoop | etapa3/Node.py:276-316 | the loop over a snapshot of the neighbour table |
| RelayNode.Relay.SweepNeighbor | etapa3/Node.py:279-316 | one neighbour is skipped, expired or probed |
| RelayNode.Relay.ReceiveControl | etapa3/Node.py:181-236 | a control-port message is dispatched by tag and type to its handler; unknown messages change nothing |
| RelayNode.Relay.ReceiveData | etapa3/Node.py:866-928 | a data-port datagram is dispatched by tag and type to its handler; unknown messages change nothing |
| RelayNode.CandidatesComplete | etapa3/Node.py:476-478 | every existing row of a requested stream is examined by the search |
| RelayNode.RowCandidatesComplete | etapa3/Node.py:477-478 | every requested stream a destination has a row for is examined |
| RelayNode.ScanRaisesFrom | etapa3/Node.py:480-481 | once a raising candidate is in the scan, the search raises |
| RelayNode.ScanRaisesAt | etapa3/Node.py:480-481 | a candidate with an unknown destination makes the search raise |
| RelaySockets.Connect | etapa3/Node.py:742-751 | a successful `create_rtsp_connection` leaves a socket stored under the neighbour, whatever the stream; a failed one changes nothing |
| RelaySockets.DeactivateAtAsWritten | etapa3/Node.py:549-581 | one iteration as written switches the route off like `DeactivateAt`; without a `KeyError` it also sends like `DeactivateAt`, and with one it sends nothing; it only ever closes sockets |
| RelaySockets.DeactivateOverAsWritten | etapa3/Node.py:549-581 | the loop as written, stopping at the first `KeyError`, changes no neighbour or session and only closes sockets |
| RelaySockets.ReceiversKeepSockets | etapa3/Node.py:558-563 | while the stream still has a receiver, the loop as written closes nothing, never raises and does what the intended loop does |
| RelaySockets.LastReceiverClosesSockets | etapa3/Node.py:558-563 | when the stream has no receiver and every destination holds a socket, the loop as written does what the intended loop does and closes exactly the sockets of the routes it switches off |
| RelaySockets.LeaveFirstStream | etapa3/Node.py:549-581 | leaving a stream that one of two upstreams carries tells that upstream and closes its socket |
| RelaySockets.LeaveSecondStream | etapa3/Node.py:558-563 | leaving a second stream through that upstream switches its route off and raises with nothing sent and the other upstream not reached |
| RelaySockets.LeaveSecondStreamIntended | etapa3/Node.py:541-581 | the intended loop tells both upstreams of the second stream |
| RelaySockets.SharedSocketRaises | etapa3/Node.py:558-563 | two streams through one upstream socket: the second deactivation raises, sends no DEACTIVATE_ROUTE and leaves the other upstream carrying the stream, where the intended loop tells both |
| RelayText.IpOfLines | etapa3/Node.py:590-596 | the scan finds no IP exactly when no line contains "IP", and otherwise reads a line that does |
| RelayText.ReplacedLines | etapa3/Node.py:600-606 | each line containing "IP" becomes `IP: <new ip>`; the others are kept, in order |
| RelayText.ReplaceClientIp | etapa3/Node.py:598-607 | the rewrite loop produces the replaced request |
| RelayText.SplitIpLine | etapa3/Node.py:595 | splitting `IP: x` at ": " gives "IP" then the pieces of `x` |
| RelayText.SplitOnNone | etapa3/Node.py:595 | a text without ": " is one piece |
| RelayText.IpOfReplaced | etapa3/Node.py:590-607 | after replacement the request's IP is the new one (when it has no ": "), and a request without an IP line still has none |
| RelayText.SplitLinesJoin | etapa3/Node.py:591-607 | joining lines with "\n" and splitting again gives them back |
| RelayText.GetReplacedIp | etapa3/Node.py:590-607 | `get_client_ip_from_request(replace_client_ip_in_request(r, ip)) == ip` for a request with an IP line |
| RelayText.AnyPlaying | etapa3/Node.py:689-696 | true exactly when some receiver other than the sender is playing |
| RelayText.AtLeastTwoReceiving | etapa3/Node.py:698-708 | because the count starts at one, the loop answers as `at_least_one_receiving_rtp` with no sender excluded |
| RelayText.ActiveRouteIn | etapa3/Node.py:710-725 | a found destination has an active row of the stream; nothing is found exactly when no destination has one |
| RelayText.ActiveRouteFirst | etapa3/Node.py:717-724 | the found destination is the first one in table order with an active row |
| RelayText.SetupIn | etapa3/Node.py:727-740 | true exactly when some destination's row of the stream last forwarded a SETUP |
| RelayText.ActiveRouteFound | etapa3/Node.py:710-725 | `get_active_route` returns an active row of the stream, and returns nothing exactly when there is none |
| StreamSource.SelfMessage | etapa3/Server.py:55-75 | the server's REGISTER and UPDATE_NEIGHBORS carry its id, IP, type "server" and ports |
| StreamSource.PingMessage | etapa3/Server.py:262-266 | the server's PING carries its IP and id and an accumulated time of 0 |
| StreamSource.PongMessage | etapa3/Server.py:292-299 | the server answers a PING with a PONG naming only itself |
| StreamSource.FloodMessage | etapa3/Server.py:312-324 | the FLOODING_UPDATE advertises every film, route state "active", the server as source and its control and RTSP ports |
| StreamSource.Listed | etapa3/Server.py:86-97 | a neighbour from the registration response is active with no failed probe and no RTP port yet |
| StreamSource.Newcomer | etapa3/Server.py:221-232 | a neighbour first heard of through UPDATE_NEIGHBORS is active with no failed probe and no RTP port yet |
| StreamSource.Notifications | etapa3/Server.py:104-128 | one UPDATE_NEIGHBORS naming the server goes to each neighbour, in table order |
| StreamSource.RegisterReplyEffect | etapa3/Server.py:80-102 | a REGISTER_RESPONSE replaces the table by exactly the listed neighbours, all active with no failure, keeps the workers, and notifies each neighbour |
| StreamSource.SweptNotYet | etapa3/Server.py:245-289 | before a key of the snapshot is swept its entry is unchanged |
| StreamSource.SweepOverTable | etapa3/Server.py:245-289 | after the first `i` keys of the snapshot the table is updated in exactly those entries; the workers are untouched |
| StreamSource.SweepOverPings | etapa3/Server.py:262-268 | after the first `i` keys of the snapshot the PINGs sent are exactly those of the probed neighbours among them, in order |
| StreamSource.SweepRoundIs | etapa3/Server.py:236-289 | one round of `send_ping_to_neighbors` is the shared liveness sweep under "failed-attempts" plus its PINGs |
| StreamSource.SweepRoundEffect | etapa3/Server.py:236-289 | a round keeps the table's keys and order and the workers, updates each neighbour by the liveness rule, and pings a neighbour exactly when it is live with fewer than two failures |
| StreamSource.Floods | etapa3/Server.py:305-308 | a flood round sends at most one message per neighbour |
| StreamSource.FloodsAreUpdates | etapa3/Server.py:312-324 | every message of a flood round is the server's FLOODING_UPDATE |
| StreamSource.FloodsOncePerActive | etapa3/Server.py:301-308 | a flood round sends exactly one advertisement to each active neighbour and none to the others |
| StreamSource.FirstRtpPortWins | etapa3/Server.py:200-204 | the first ACTIVATE_ROUTE from a neighbour records its RTP port, and a later one changes nothing |
| StreamSource.RtpPortKept | etapa3/Server.py:203 | a recorded RTP port is never overwritten |
| StreamSource.ActiveRoundTrip | etapa3/Server.py:366-375 | the server parses the ACTIVE request a relay writes (etapa3/Node.py:532) back into its film, IP and RTP port |
| StreamSource.ActiveLines | etapa3/Server.py:366 | the ACTIVE request splits into its three keyword lines |
| StreamSource.ActiveText | etapa3/Server.py:366 | the ACTIVE request is its three lines, each ended by a line break |
| StreamSource.NoBreak | etapa3/Server.py:366 | a keyword line built from values without line breaks has none |
| StreamSource.WorkerFor | etapa3/Server.py:418-446 | after an ACTIVE request the film has a worker; the neighbour table and outbox are unchanged |
| StreamSource.OneWorkerPerFilm | etapa3/Server.py:427-444 | the first ACTIVE for a film creates its worker for that neighbour; later ones for the same film change no worker entry; other films are untouched |
| StreamSource.PingOnlyAnswered | etapa3/Server.py:169-170 | a PING only adds the PONG; the neighbour table is unchanged |
| StreamSource.Source.constructor | etapa3/Server.py:8-36 | the server starts with no neighbours, no workers and nothing sent |
| StreamSource.Source.RegisterWithBootstrapper | etapa3/Server.py:55-102 | the server sends its REGISTER and then does what `RegisterReplyEffect` describes |
| StreamSource.Source.NotifyNeighbors | etapa3/Server.py:104-128 | the loop sends exactly `Notifications` and changes no table |
| StreamSource.Source.HandleUpdateNeighbors | etapa3/Server.py:208-234 | a known neighbour is active again; a new one is added as a newcomer |
| StreamSource.Source.HandlePing | etapa3/Server.py:292-299 | only the PONG is added |
| StreamSource.Source.ReceiveNeighborsInfo | etapa3/Server.py:200-206 | the sender's RTP port is recorded if it had none |
| StreamSource.Source.ReceiveControl | etapa3/Server.py:154-198 | a control-port message is dispatched by tag and type; DEACTIVATE_ROUTE and unknown messages change nothing |
| StreamSource.Source.ReceiveRtsp | etapa3/Server.py:334-380 | an ACTIVE request that parses gives its film a worker; anything else changes nothing |
| StreamSource.Source.FloodNeighbors | etapa3/Server.py:301-308 | one round of the flood loop does what `FloodsOncePerActive` describes |
| StreamSource.Source.SweepNeighbors | etapa3/Server.py:236-289 | one round of the sweep does what `SweepRoundEffect` describes |
| StreamSource.Source.SweepKeys | etapa3/Server.py:245-289 | the loop over the snapshot sweeps each key in turn |
| StreamSource.Source.SweepOne | etapa3/Server.py:246-289 | one neighbour is skipped, expired or probed |
| Rtp.FirstNul | etapa3/RtpPacket.py:49 | the result is the position of a NUL byte with no NUL before it; there is none exactly when no byte is NUL (the `ValueError` of `index`) |
| Rtp.Header | etapa3/RtpPacket.py:14-30 | the fixed header is always `HEADER_SIZE` = 12 bytes |
| Rtp.DecodeSpec | etapa3/RtpPacket.py:40-56 | the header kept by `decode` is the first 12 bytes, or the whole stream when it is shorter |
| Rtp.DecodeReassembles | etapa3/RtpPacket.py:40-56 | `decode` loses no byte: header, file name, NUL and payload joined again give the stream |
| Rtp.PackByte0 | etapa3/RtpPacket.py:15-18 | byte 0 is built by or-ing `(version << 6) & 0xC0`, `padding << 5`, `extension << 4` and `cc & 0x0F` |
| Rtp.NewHeader | etapa3/RtpPacket.py:14-30 | the fresh 12-byte buffer filled field by field equals the header of the arguments |
| Rtp.PutWord | etapa3/RtpPacket.py:23-30 | a 32-bit value is written as four bytes, most significant first, and no other byte changes |
| Rtp.RtpPacket.constructor | etapa3/RtpPacket.py:6-9 | a new packet carries the class attribute's 12 zero header bytes |
| Rtp.RtpPacket.Encode | etapa3/RtpPacket.py:11-38 | after `encode` the header is the 12-byte header of the fields and the payload is the file name, a NUL and the data (the data alone for an empty name) |
| Rtp.RtpPacket.Decode | etapa3/RtpPacket.py:40-56 | `decode` sets header, payload and the returned file name exactly as the specification function says |
| Rtp.RtpPacket.Packet | etapa3/RtpPacket.py:81-83 | `getPacket` is the header followed by the payload |
| Rtp.HeaderFields | etapa3/RtpPacket.py:58-75 | with each field within its width (RFC 3550 section 5.1), `version()`, `payloadType()`, `seqNum()` and `timestamp()` return the encoded values |
| Rtp.Byte0Top | etapa3/RtpPacket.py:15-18 | with one-bit padding and at most two-bit extension, the top two bits of byte 0 are the version |
| Rtp.Byte1Fields | etapa3/RtpPacket.py:19-20 | the marker is the top bit of byte 1 and the payload type its low seven bits |
| Rtp.Byte0Value | etapa3/RtpPacket.py:15-18 | with one-bit padding and extension, byte 0 is the sum of the shifted fields, `cc` masked to four bits |
| Rtp.PaddingSpill | etapa3/RtpPacket.py:16 | an unmasked padding of 4 or more sets the top bit of byte 0, so the version read back is at least 2 |
| Rtp.Bytes32Value | etapa3/RtpPacket.py:23-26 | the four bytes of a 32-bit value, weighted by place, add back to the value, as `timestamp()` reads them |
| Rtp.FilenameRoundTrip | etapa3/RtpPacket.py:33-51 | a non-empty UTF-8 file name without NUL comes back out of `decode`, and the original payload with it |
| Rtp.PacketDecode | etapa3/RtpPacket.py:42-51 | `decode` of a full header and a payload works on that payload alone |
| Rtp.NoFilenameDecode | etapa3/RtpPacket.py:49-51 | without a file name the raw payload is cut at its first NUL when the bytes before it are UTF-8; with no NUL it stays whole and the name is `None` |
| HopRouting.Advertised | etapa3/ESR-TP2/Node.py:306-314 | the stored row takes the advertiser's IP, hop count and route state, with flow "inactive" |
| HopRouting.UpdateRoutes | etapa3/ESR-TP2/Node.py:287-318 | the loop builds the table `AddHops` gives for the advertised streams, in order |
| HopRouting.UpdateRoute | etapa3/ESR-TP2/Node.py:298-314 | one iteration creates the advertiser's rows if missing and applies the fewer-hops rule to one stream |
| HopRouting.AddHopsValid | etapa3/Client.py:277-297 | the two-level routing table keeps every destination and stream listed once |
| HopRouting.KeptIdempotent | etapa3/ESR-TP2/Node.py:303-314 | the same advertisement twice changes nothing more than once, and a kept row never has more hops than the advertisement or the old row |
| HopRouting.AddHopEffect | etapa3/ESR-TP2/Node.py:298-314 | one stream's update adds the advertiser as destination, sets its row by the fewer-hops rule and leaves every other row and destination as it was |
| HopRouting.AddHopsKeys | etapa3/ESR-TP2/Node.py:296-300 | the destinations gain the advertiser exactly when some stream is advertised; other destinations are untouched |
| HopRouting.AddHopsRow | etapa3/ESR-TP2/Node.py:296-314 | each advertised stream's row for the advertiser follows the fewer-hops rule; every other row is unchanged |
| HopRouting.AddHopsEffect | etapa3/Client.py:268-299 | `update_route_table` as a whole: new destinations, rewritten rows and untouched rows |
| HopRouting.WithStatus | etapa3/ESR-TP2/Node.py:360 | setting one row's status changes that field of that row and nothing else, and keeps the table well formed |
| HopRouting.Least | etapa3/ESR-TP2/Node.py:353-357 | a least-hops row is found exactly when there is some row |
| HopRouting.LeastIsFirstLeast | etapa3/ESR-TP2/Node.py:353-357 | the strict `<` against `min_hops` keeps the first row with the fewest hops |
| HopRouting.ScanHopAppend | etapa3/ESR-TP2/Node.py:331-357 | searching two runs of rows is searching the second from where the first stopped |
| HopRouting.ScanHopStays | etapa3/ESR-TP2/Node.py:348 | once an active row is reused the search returns and nothing later matters |
| HopRouting.ScanHopResult | etapa3/ESR-TP2/Node.py:329-358 | the search reuses the first active requested row, remembering the least-hops stream seen before it, and otherwise chooses the first least-hops requested row |
| HopRouting.RowCandsAppend | etapa3/ESR-TP2/Node.py:332-334 | the inner loop over two runs of requested streams examines the rows of each in order |
| HopRouting.CandsAppend | etapa3/ESR-TP2/Node.py:331 | the outer loop over two runs of destinations examines the rows of each in order |
| HopRouting.SearchRoutes | etapa3/ESR-TP2/Node.py:329-357 | the nested loops compute `ScanHop` of the rows of the requested streams, in table order |
| HopRouting.SearchRow | etapa3/ESR-TP2/Node.py:332-357 | the inner loop over one destination's requested streams continues the search over its rows |
| HopRouting.CandsExist | etapa3/ESR-TP2/Node.py:332-334 | every row examined exists in the table and is for a requested stream |
| HopRouting.RowCandsExist | etapa3/ESR-TP2/Node.py:333-334 | every row examined for a destination is that destination's row for a requested stream |
| HopRouting.FirstOn | etapa3/ESR-TP2/Node.py:477-490 | a route found has the stream at that destination with the field "active" |
| HopRouting.FirstOnIsFirst | etapa3/ESR-TP2/Node.py:483-490 | no route is found exactly when no destination has the stream active; a found route is the first such destination |
| HopRouting.FindRoute | etapa3/ESR-TP2/Node.py:492-505 | the loop returns the first destination, in table order, whose row for the stream is active |
| HopNode.SelfMessage | etapa3/ESR-TP2/Node.py:45-51 | REGISTER and UPDATE_NEIGHBORS carry the node's type tag, id, IP, node type and control and data ports |
| HopNode.PingMessage | etapa3/ESR-TP2/Node.py:224-227 | the sweep's PING carries the node's IP and id |
| HopNode.PongMessage | etapa3/ESR-TP2/Node.py:252-254 | the answer to a PING is a PONG naming only the node |
| HopNode.Relayed | etapa3/ESR-TP2/Node.py:270-281 | a re-sent flood has one more hop and this node's IP, id, control port and RTSP port, the rest unchanged |
| HopNode.ActivateMessage | etapa3/ESR-TP2/Node.py:374-379 | the upstream ACTIVATE_ROUTE names the one stream and carries this node's IP, RTP port and RTSP port |
| HopNode.RegisterReplyEffect | etapa3/ESR-TP2/Node.py:62-78 | a REGISTER_RESPONSE makes the table exactly the listed neighbours, each active with 0 failed attempts, and announces the node to each; routes and sessions are untouched |
| HopNode.SweepRoundEffect | etapa3/ESR-TP2/Node.py:209-247 | one sweep applies the shared counter rule to every neighbour and pings exactly the live ones with fewer than two failures; routes and sessions are untouched |
| HopNode.Reflood | etapa3/ESR-TP2/Node.py:271-285 | the re-sent floods go only to neighbours, all carry the relayed message, and there is at least one exactly when some send happens |
| HopNode.RefloodTargets | etapa3/ESR-TP2/Node.py:272-281 | the flood is re-sent to a neighbour exactly when it is not a routing destination and the connection succeeds; never back to the sender |
| HopNode.FloodEffect | etapa3/ESR-TP2/Node.py:264-285 | a flood updates the routes by the hop rule, leaves neighbours and sessions alone and only appends relayed copies, to the targets `RefloodTargets` names |
| HopNode.EmptyFloodEchoes | etapa3/ESR-TP2/Node.py:272 | a flood advertising no stream leaves the sender out of the routing table, so it is echoed back to the sender too |
| HopNode.Recorded | etapa3/ESR-TP2/Node.py:343-347 | the requester's entry gets its RTP port and the stream as session; its RTSP port is kept when the message has none |
| HopNode.Enrol | etapa3/ESR-TP2/Node.py:339-347 | the requester can be recorded exactly when the stream's session exists or is the one just created |
| HopNode.EnrolEffect | etapa3/ESR-TP2/Node.py:339-347 | the session key is created if missing, the requester of an existing stream session is recorded, and other sessions and receivers are untouched |
| HopNode.ActivateChosen | etapa3/ESR-TP2/Node.py:359-367 | once no row is active, the corrected activation marks the chosen row and records the requester under its stream |
| HopNode.ActivateReuses | etapa3/ESR-TP2/Node.py:334-348 | when a requested row is already active, the first such row is reused: the requester is recorded under its stream, nothing is sent, routes and neighbours are unchanged |
| HopNode.ChooseEffect | etapa3/ESR-TP2/Node.py:359-381 | activating a chosen row marks it "active", changes no other row, sends exactly one ACTIVATE_ROUTE to its destination and records the requester |
| HopNode.ActivateChooses | etapa3/ESR-TP2/Node.py:352-381 | with no active requested row, the activation is that of the first requested row with the fewest hops |
| HopNode.ActivateNone | etapa3/ESR-TP2/Node.py:389-391 | with no requested row at all, nothing changes and nothing is sent |
| HopNode.OneRouteCands | etapa3/ESR-TP2/Node.py:331-334 | in a one-row table the search examines just that row |
| HopNode.ScanOne | etapa3/ESR-TP2/Node.py:335-357 | a single row is reused if active and chosen otherwise |
| HopNode.OneRouteActivated | etapa3/ESR-TP2/Node.py:360 | marking the one row "active" gives the table with that row active |
| HopNode.ReuseWithoutSession | etapa3/ESR-TP2/Node.py:339-341 | as written, reusing an active route creates a session under `None` and then fails at the stream's missing session, recording nobody; corrected, the requester is recorded under the stream |
| HopNode.ChosenUnderLastStream | etapa3/ESR-TP2/Node.py:359-381 | as written, a request for "m" then "x" marks m's row active but fails at the missing session of "x" before sending; corrected, one ACTIVATE_ROUTE for "m" is sent |
| HopNode.PingEffect | etapa3/ESR-TP2/Node.py:249-262 | a PING is answered with a PONG and only a known sender changes: 0 failed attempts and active |
| HopNode.Node.constructor | etapa3/ESR-TP2/Node.py:9-34 | a node starts with no neighbours, routes or sessions and nothing sent |
| HopNode.Node.RegisterWithBootstrapper | etapa3/ESR-TP2/Node.py:36-81 | the node sends its REGISTER and its state becomes `RegisterReply` of the old one |
| HopNode.Node.HandleUpdateNeighbors | etapa3/ESR-TP2/Node.py:178-203 | a known announcer becomes active again, an unknown one is added active with 0 failed attempts; nothing else changes |
| HopNode.Node.HandlePing | etapa3/ESR-TP2/Node.py:249-262 | the PONG is sent and a known sender is reset to 0 failed attempts and active |
| HopNode.Node.SweepNeighbors | etapa3/ESR-TP2/Node.py:205-247 | one round of the sweep loop gives the state `SweepRound` describes |
| HopNode.Node.HandleFloodingMessage | etapa3/ESR-TP2/Node.py:264-285 | the state becomes `Flood` of the old one |
| HopNode.Node.ResendFlood | etapa3/ESR-TP2/Node.py:271-285 | the loop appends exactly the re-sent floods `Reflood` gives, in neighbour order, and changes nothing else |
| HopNode.Node.EnrolRequester | etapa3/ESR-TP2/Node.py:339-347 | the session registry becomes `Enrol` of the old one; nothing else changes |
| HopNode.Node.ActivateBestRoute | etapa3/ESR-TP2/Node.py:320-392 | the state becomes `Activate` of the old one |
| HopNode.Node.ActivateRow | etapa3/ESR-TP2/Node.py:359-381 | activating the chosen row gives the state `Choose` describes |
| HopNode.Node.GetRouteWithStream | etapa3/ESR-TP2/Node.py:477-490 | the first route of the stream whose flow is "active", else none |
| HopNode.Node.GetActiveRoute | etapa3/ESR-TP2/Node.py:492-505 | the first route of the stream whose status is "active", else none |
| HopNode.Node.ReceiveControl | etapa3/ESR-TP2/Node.py:128-176 | one message on the control port changes the state as `ControlServer` describes |
| HopClient.SelfMessage | etapa3/Client.py:57-63 | REGISTER and UPDATE_NEIGHBORS carry the client's id and IP, type "client", control port 5001 and data port 5002 |
| HopClient.PingMessage | etapa3/Client.py:228-231 | the sweep's PING carries the client's IP and id |
| HopClient.PongMessage | etapa3/Client.py:256-258 | the answer to a PING is a PONG naming only the client |
| HopClient.ActivateMessage | etapa3/Client.py:359-363 | the ACTIVATE_ROUTE names the film and carries the client's IP and RTP port and no RTSP port |
| HopClient.RegisterReplyEffect | etapa3/Client.py:74-89 | a REGISTER_RESPONSE makes the table exactly the listed neighbours, each active with 0 failed attempts, and announces the client to each; routes are untouched |
| HopClient.NewcomerCountsFromZero | etapa3/Client.py:196-251 | an announcer is stored with "tentativas" at 0 and no "failed-attempts", which the sweep reads as 0, so one lost probe leaves it at 1 |
| HopClient.SweepRoundEffect | etapa3/Client.py:212-251 | one sweep applies the shared counter rule to every neighbour and pings exactly the live ones with fewer than two failures; routes are untouched |
| HopClient.AllCands | etapa3/Client.py:347-349 | as written, the rows compared all belong to destinations that have the film |
| HopClient.RowCandsAt | etapa3/Client.py:349 | every row compared for a destination leads to that destination |
| HopClient.ClientCands | etapa3/Client.py:347-353 | as written or corrected, every row compared belongs to a destination that has the film |
| HopClient.ActivateByLeast | etapa3/Client.py:344-378 | the corrected activation marks the film's row at the least-hops destination "active", sends one ACTIVATE_ROUTE there and returns the row when the send succeeds; with no destination it changes nothing and returns none |
| HopClient.ActivateEffect | etapa3/Client.py:344-378 | the chosen destination is the first one whose film row has the fewest hops; the rest of the state is unchanged |
| HopClient.TwoRoutesAll | etapa3/Client.py:347-353 | as written, every stream row of each destination holding the film is compared, the film's or not |
| HopClient.TwoRoutesFilm | etapa3/Client.py:347-353 | corrected, only the film's row of each destination is compared |
| HopClient.FarthestFilmChosen | etapa3/Client.py:350-354 | as written, a destination is chosen by another stream's hop count, so the farther one gets the activation; corrected, the nearer one does |
| HopClient.Retry | etapa3/Client.py:311-335 | `start_new_session` never makes more attempts than there are outcomes |
| HopClient.RetryStep | etapa3/Client.py:313-335 | an attempt that returns a route ends the loop; otherwise the loop goes on from the state that attempt left |
| HopClient.RowCandsOne | etapa3/Client.py:348 | a destination contributes its film row when it has one and nothing otherwise |
| HopClient.FilmStep | etapa3/Client.py:347-353 | one more destination replaces the best row only when its film row has strictly fewer hops |
| HopClient.CandsNonEmpty | etapa3/Client.py:348 | there are rows to compare exactly when some destination has the film |
| HopClient.ActivateKeepsFilm | etapa3/Client.py:356-358 | an attempt changes only a status, so whether the film has a route stays the same |
| HopClient.AttemptOutcome | etapa3/Client.py:356-378 | an attempt returns a route exactly when the film has a route and the send succeeds |
| HopClient.RetryStops | etapa3/Client.py:311-335 | the loop stops with a route exactly when the film has a route and some send succeeds, and it stops at the first successful send |
| HopClient.FirstTrue | etapa3/Client.py:311-335 | a successful send is in the outcomes exactly when it is the first or among the rest |
| HopClient.FloodEffect | etapa3/Client.py:168-181 | a FLOODING_UPDATE only rewrites routing rows by the hop rule; neighbours and sends are untouched |
| HopClient.Client.constructor | etapa3/Client.py:24-46 | a client starts with no neighbours, no routes and nothing sent |
| HopClient.Client.RegisterWithBootstrapper | etapa3/Client.py:48-91 | the client sends its REGISTER and its state becomes `RegisterReply` of the old one |
| HopClient.Client.HandleUpdateNeighbors | etapa3/Client.py:183-206 | a known announcer becomes active again, an unknown one is added with "tentativas" at 0; nothing else changes |
| HopClient.Client.HandlePing | etapa3/Client.py:253-266 | the PONG is sent and a known sender is reset to 0 failed attempts and active |
| HopClient.Client.SweepNeighbors | etapa3/Client.py:208-251 | one round of the sweep loop gives the state `SweepRound` describes |
| HopClient.Client.UpdateRouteTable | etapa3/Client.py:268-299 | the routing table becomes `AddHops` of the old one for the advertised streams |
| HopClient.Client.SearchFilm | etapa3/Client.py:344-354 | the corrected loop finds the first destination whose film row has the fewest hops |
| HopClient.Client.ActivateBestRoute | etapa3/Client.py:337-378 | the state and result are `Activate` of the old state |
| HopClient.Client.ActivateAt | etapa3/Client.py:356-372 | the film's row at the destination becomes "active", one ACTIVATE_ROUTE goes there, and the row is returned when the send succeeds |
| HopClient.Client.StartNewSession | etapa3/Client.py:307-335 | the loop's state, route and attempt count are `Retry` of the old state |
| HopClient.Client.ReceiveControl | etapa3/Client.py:136-181 | one message on the control port changes the state as `ControlServer` describes |
| Rtsp.MethodName | etapa3/VideoSession.py:133-151 | each request word is non-empty and holds no space, no line break and no `I` |
| Rtsp.MethodNameInjective | etapa3/ServerWorker.py:8-11 | the four methods have four different request words |
| Rtsp.AckedState | etapa3/VideoSession.py:191-213 | a 200 reply returns the client to INIT exactly when it answers TEARDOWN |
| Rtsp.Field | etapa3/VideoSession.py:180-184 | a word picked by line and position exists only when the line and word do, and holds no space |
| Rtsp.ReadInt | etapa3/VideoSession.py:180 | `int(...)` of a picked word succeeds only when the word exists and parses |
| Rtsp.RequestLines | etapa3/ServerWorker.py:43-57 | a request the client sends reads back, line by line, as its method, its file and its CSeq |
| Rtsp.RequestSplit | etapa3/ServerWorker.py:43 | a request splits into its three lines and the empty tail |
| Rtsp.HeadWords | etapa3/ServerWorker.py:44-53 | the request line splits into the method, the file and "RTSP/1.0" |
| Rtsp.LabelWords | etapa3/ServerWorker.py:57 | a "Label: value" line splits into the label and the value |
| Rtsp.ReplyLines | etapa3/VideoSession.py:178-191 | a 200 reply reads back as status 200, its CSeq and its session |
| Rtsp.ReplySplit | etapa3/ServerWorker.py:157 | a 200 reply splits into its three lines |
| Rtsp.StatusWords | etapa3/ServerWorker.py:157 | the status line splits into "RTSP/1.0", "200" and "OK" |
| Rtsp.Status200 | etapa3/VideoSession.py:191 | the status word reads as 200 |
| Rtsp.MissingFirst | etapa3/ServerWorker.py:46-47 | a line without the first letter of a label does not contain the label |
| RtspSession.Requested | etapa3/VideoSession.py:126-157 | a request is sent exactly when the state allows it; then the CSeq goes up by one and the method is recorded, otherwise nothing changes |
| RtspSession.RequestedReadable | etapa3/VideoSession.py:131-152 | the request sent has four lines: the method and file, the new CSeq, and the client's RTP port for SETUP or the session otherwise |
| RtspSession.Acknowledged | etapa3/VideoSession.py:191-213 | a 200 reply moves the client to the state its last request leads to, and without a request changes nothing |
| RtspSession.StaleReplyIgnored | etapa3/VideoSession.py:183 | a reply whose CSeq is not the last one sent changes nothing |
| RtspSession.SessionFixed | etapa3/VideoSession.py:186-190 | once a session is accepted it never changes, and a reply naming another session changes nothing |
| RtspSession.ReplyMovesState | etapa3/VideoSession.py:126-213 | a request answered by the server's 200 reply moves the client to the acknowledged state, fixes the session, counts one request and marks TEARDOWN acknowledged |
| RtspSession.FrameRule | etapa3/VideoSession.py:94-105 | a packet makes the session active and only moves the frame number forward, to the packet's number, except that packet 1 of an active session resets it to 0 |
| RtspSession.RequestedWellFormed | etapa3/VideoSession.py:126-157 | a request keeps the fields consistent: a request is recorded exactly when one was counted |
| RtspSession.RepliedWellFormed | etapa3/VideoSession.py:176-213 | a reply keeps the fields consistent: outside INIT a session and a request are known |
| RtspSession.ReceivedWellFormed | etapa3/VideoSession.py:94-105 | a packet keeps the fields consistent |
| RtspSession.VideoSession.constructor | etapa3/VideoSession.py:22-33 | a session starts in INIT with CSeq 0, no request, no session id, frame 0 and inactive |
| RtspSession.VideoSession.SendRtspRequest | etapa3/VideoSession.py:126-157 | the fields become `Requested` of the old ones and the text, if any, is sent |
| RtspSession.VideoSession.ParseRtspReply | etapa3/VideoSession.py:176-213 | the fields become `Replied` of the old ones and nothing is sent |
| RtspSession.VideoSession.Acknowledge | etapa3/VideoSession.py:191-213 | the fields become `Acknowledged` of the old ones |
| RtspSession.VideoSession.ReceiveFrame | etapa3/VideoSession.py:86-105 | the fields become `Received` of the old ones and nothing is sent |
| RtspWorker.IndiceOf | etapa3/ServerWorker.py:47-49 | an "Indice:" line yields its number or the failure of `int`, never "no index" |
| RtspWorker.ScanIndice | etapa3/ServerWorker.py:46-50 | the scan finds nothing exactly when no line contains "Indice:", and otherwise reads the first such line |
| RtspWorker.NoIndiceLines | etapa3/ServerWorker.py:46-47 | lines without a capital I never contain "Indice:" |
| RtspWorker.FindIndice | etapa3/ServerWorker.py:46-50 | the loop stops at the first "Indice:" line and gives what `ScanIndice` gives |
| RtspWorker.MethodOf | etapa3/ServerWorker.py:45-60 | a request word names a method exactly when it is that method's word |
| RtspWorker.Answered | etapa3/ServerWorker.py:153-159 | a 200 reply can be sent exactly when the CSeq line has a second word |
| RtspWorker.AnsweredOr | etapa3/ServerWorker.py:153-159 | replying changes nothing but the replies, and adds at most the 200 text with the CSeq and the session |
| RtspWorker.ProcessedSteps | etapa3/ServerWorker.py:40-110 | a request moves the worker only along INIT→READY, READY→PLAYING or PLAYING→READY, sends at most one reply and may set the session to the requested file |
| RtspWorker.ActedSteps | etapa3/ServerWorker.py:59-110 | a state change happens only for a request allowed in that state, to the state the client expects; a reply sent is the 200 text for the file |
| RtspWorker.ServerAcked | etapa3/ServerWorker.py:101-110 | the worker's state after answering is the client's acknowledged state, except that TEARDOWN leaves it unchanged |
| RtspWorker.RequestNoIndice | etapa3/ServerWorker.py:46-50 | the clients' requests never hold an "Indice:" line, so the scan never fails on them |
| RtspWorker.TransportNoIndice | etapa3/ServerWorker.py:47 | the SETUP transport line has no capital I |
| RtspWorker.ServerAnswers | etapa3/ServerWorker.py:40-110 | a request the state allows is answered with one 200 reply naming the file as session, moves the state as RTSP says and sets or clears the stop event |
| RtspWorker.ServerIgnores | etapa3/ServerWorker.py:59-110 | a request the state does not allow gets no reply; only a PAUSE before any PLAY still moves PLAYING to READY and then fails |
| RtspWorker.MissingFileAnswered | etapa3/ServerWorker.py:65-72 | a SETUP whose file cannot be opened stays in INIT yet is still answered 200 |
| RtspWorker.Lockstep | etapa3/ServerWorker.py:40-110 | a client request the worker answers brings the client to the acknowledged state under the file as session, and the worker to the same state except after TEARDOWN |
| RtspWorker.ServerWorker.constructor | etapa3/ServerWorker.py:24-26 | a new worker starts in INIT with no session, no event and no reply |
| RtspWorker.ServerWorker.ProcessRtspRequest | etapa3/ServerWorker.py:40-110 | the worker becomes `Processed` of the old one |
| RtspWorker.ServerWorker.Act | etapa3/ServerWorker.py:59-110 | the branch on the request type gives `Acted` of the old worker |
| RtspWorker.ServerWorker.Reply | etapa3/ServerWorker.py:153-159 | the 200 text is sent exactly when the CSeq line has a second word |
| RtspWorker.MakeRtp | etapa3/ServerWorker.py:135-151 | the packet is a 12-byte header then the frame, with version 2, payload type 98, sequence number the frame number and SSRC 0; a frame number of 2^16 or more fails |
| IndexedWorker.NewSession | etapa3/ESR-TP2/ServerWorkerOk.py:52-62 | a new session is in INIT with no event, no node address and the random id drawn |
| IndexedWorker.NodeScanSkips | etapa3/ESR-TP2/ServerWorkerOk.py:87-91 | lines without a capital N are passed over by the Node-RTP scan |
| IndexedWorker.OnlyAtStart | etapa3/ESR-TP2/ServerWorkerOk.py:88-90 | a label whose first letter appears only at the start of a line, which does not start with it, is not in the line |
| IndexedWorker.PortLine | etapa3/ESR-TP2/ServerWorkerOk.py:88-89 | the "Node-RTP-Port:" line is recognised as such and reads back as the port |
| IndexedWorker.IpLine | etapa3/ESR-TP2/ServerWorkerOk.py:90-91 | the "Node-RTP-IP:" line is recognised as such and reads back as the host |
| IndexedWorker.NodeLinesScanned | etapa3/ESR-TP2/ServerWorkerOk.py:87-91 | lines without an N followed by the point of presence's two lines scan to its port and host |
| IndexedWorker.FiveLines | etapa3/ESR-TP2/ServerWorkerOk.py:43 | five lines each ended by a line break split into the five and an empty tail |
| IndexedWorker.ForwardedSetupLines | ProgEx/Python/PoP.py:254 | a SETUP augmented by the point of presence splits into the client's three lines, the port line, the IP line and an empty tail |
| IndexedWorker.SetupLinesUnbroken | etapa3/ESR-TP2/ServerWorkerOk.py:43 | none of the five lines of an augmented SETUP holds a line break |
| IndexedWorker.NodeLinesText | ProgEx/Python/PoP.py:254 | the point of presence appends exactly "Node-RTP-Port: p" and "Node-RTP-IP: h", each ended by a line break |
| IndexedWorker.Regroup | ProgEx/Python/PoP.py:254 | the augmented request is the five lines in order |
| IndexedWorker.ForwardedSetupScanned | etapa3/ESR-TP2/ServerWorkerOk.py:86-91 | the worker reads back exactly the port and host the point of presence appended |
| IndexedWorker.SetupLinesNoN | etapa3/ESR-TP2/ServerWorkerOk.py:87-91 | the SETUP's own lines hold no capital N when the file name has none |
| IndexedWorker.TransportNoN | etapa3/ESR-TP2/ServerWorkerOk.py:88-90 | the SETUP transport line has no capital N |
| IndexedWorker.SessionActed | etapa3/ESR-TP2/ServerWorkerOk.py:71-129 | handling a request never changes the session's id |
| IndexedWorker.NoIndexNoChange | etapa3/ESR-TP2/ServerWorkerOk.py:46-52 | a request without a readable "Indice:" fails before any session is created or changed, and nothing is sent |
| IndexedWorker.SessionsIsolated | etapa3/ESR-TP2/ServerWorkerOk.py:52-63 | a request touches only the session of its index, creating it if needed; an existing session keeps its id |
| IndexedWorker.NewIndexStarts | etapa3/ESR-TP2/ServerWorkerOk.py:52-84 | a first request for an index creates a session with an id in [100000, 999999], which a SETUP can move to READY and nothing else moves from INIT |
| IndexedWorker.ReplyNamesId | etapa3/ESR-TP2/ServerWorkerOk.py:173-179 | a reply is one 200 text whose session line reads back as the session's numeric id |
| IndexedWorker.SessionSteps | etapa3/ESR-TP2/ServerWorkerOk.py:71-129 | an existing session moves only along INIT→READY, READY→PLAYING or PLAYING→READY |
| IndexedWorker.IndexedServerWorker.constructor | etapa3/ESR-TP2/ServerWorkerOk.py:24-26 | a new worker has no session and has sent nothing |
| IndexedWorker.IndexedServerWorker.ProcessRtspRequest | etapa3/ESR-TP2/ServerWorkerOk.py:40-129 | the table becomes `Processed` of the old one |
| IndexedWorker.IndexedServerWorker.ActOn | etapa3/ESR-TP2/ServerWorkerOk.py:71-129 | the branch on the request type gives `SessionActed`; the table of sessions is not touched |
| IndexedWorker.IndexedServerWorker.Reply | etapa3/ESR-TP2/ServerWorkerOk.py:173-179 | the 200 text is sent exactly when the CSeq line has a second word; the sessions are untouched |
| IndexedWorker.ScanNode | etapa3/ESR-TP2/ServerWorkerOk.py:87-91 | the loop over the lines gives `NodeScan` |
| FloodSource.ServerIdentity | etapa3/ESR-TP2/Server.py:33-39 | the server announces itself with its own id, IP, type, control port and data port |
| FloodSource.FloodOf | etapa3/ESR-TP2/Server.py:270-278 | the flood is a FLOODING_UPDATE from the server's id and IP, offering its movies, "inactive", at 0 hops, with its control and RTSP ports |
| FloodSource.FloodTo | etapa3/ESR-TP2/Server.py:280-288 | `send_flooding_message` sends the flood once to each neighbour, in table order |
| FloodSource.LiveCount | etapa3/ESR-TP2/Server.py:260-263 | the number of neighbours not marked inactive never exceeds the table size |
| FloodSource.FloodToOnce | etapa3/ESR-TP2/Server.py:280-288 | with each neighbour listed once, every neighbour receives one copy and no other address any |
| FloodSource.FloodRoundNext | etapa3/ESR-TP2/Server.py:260-264 | one more neighbour adds the whole flood when it is not inactive and nothing otherwise |
| FloodSource.FloodRoundCopies | etapa3/ESR-TP2/Server.py:256-288 | a round brings each address of the table as many copies as there are live neighbours, and no other address any |
| FloodSource.FloodRoundLength | etapa3/ESR-TP2/Server.py:256-288 | a round sends (live neighbours) × (all neighbours) messages |
| FloodSource.CopiesPerNeighbour | etapa3/ESR-TP2/Server.py:256-264 | as written, every neighbour, inactive ones included, receives one copy per live neighbour in each round |
| FloodSource.RoundIsFlood | etapa3/ESR-TP2/Server.py:264-284 | everything a round sends is the server's flood |
| FloodSource.FloodMultiplied | etapa3/ESR-TP2/Server.py:256-264 | with two live neighbours and one inactive one, the written round gives each of the three two copies; the corrected round gives the live ones one and the inactive one none |
| FloodSource.FloodLiveOnce | etapa3/ESR-TP2/Server.py:256-264 | the corrected round gives each live neighbour exactly one copy and every other address none |
| FloodSource.FloodLiveNext | etapa3/ESR-TP2/Server.py:260-264 | the corrected round over one more neighbour adds one copy to it exactly when it is not inactive |
| FloodSource.Recorded | etapa3/ESR-TP2/Server.py:162-167 | recording an activation keeps the table of sender ports well formed |
| FloodSource.FirstActivationWins | etapa3/ESR-TP2/Server.py:163-167 | the first ACTIVATE_ROUTE from a sender stores its RTSP and RTP ports after the known senders; later ones from it change nothing |
| FloodSource.OthersKept | etapa3/ESR-TP2/Server.py:163-167 | an activation leaves every other sender's entry, and its presence, as it was |
| FloodSource.DispatchedSeparates | etapa3/ESR-TP2/Server.py:124-160 | only an ACTIVATE_ROUTE touches the port table, only a control message touches the neighbours, and a control message other than UPDATE_NEIGHBORS or PING changes nothing |
| FloodSource.Server.constructor | etapa3/ESR-TP2/Server.py:8-22 | a server starts with no neighbours, nothing sent and no sender ports, and marks neighbours "active" with "failed-attempts" |
| FloodSource.Server.ReceiveNeighborsInfo | etapa3/ESR-TP2/Server.py:162-169 | the port table becomes `Recorded` of the old one |
| FloodSource.Server.SendFloodingMessage | etapa3/ESR-TP2/Server.py:266-288 | the sends are the flood to every neighbour, in table order |
| FloodSource.Server.FloodNeighbors | etapa3/ESR-TP2/Server.py:256-264 | one round as written appends the whole flood once per live neighbour, neighbours unchanged |
| FloodSource.Server.FloodNeighborsOnce | etapa3/ESR-TP2/Server.py:256-264 | one corrected round appends one copy per live neighbour, in table order, neighbours unchanged |
| FloodSource.Server.HandleControlConnection | etapa3/ESR-TP2/Server.py:114-160 | one received message changes the neighbours and the port table as `Dispatched` says |
| PointOfPresence.PopIdentity | ProgEx/Python/PoP.py:42-48 | the node announces its id and host with control port 50051 and data port 50052 and no node type |
| PointOfPresence.RegisteredUntyped | ProgEx/Python/PoP.py:61-77 | a REGISTER_RESPONSE makes the table exactly the listed neighbours, each active with 0 failed attempts and no type stored |
| PointOfPresence.MainConfig | ProgEx/Python/PoP.py:296-309 | `main` uses RTP port 25001 and the RTSP server at 10.0.4.10:30000 |
| PointOfPresence.Augmented | ProgEx/Python/PoP.py:254 | the forwarded request starts with the client's request and is longer |
| PointOfPresence.Relay | ProgEx/Python/PoP.py:253-264 | one exchange sends the augmented request to the server and the server's response to the client |
| PointOfPresence.Exchanged | ProgEx/Python/PoP.py:247-275 | one exchange relays both texts, touches no other client's entry, and leaves the table as it was when the loop ends |
| PointOfPresence.ServedLeavesNoTrace | ProgEx/Python/PoP.py:244-279 | a whole connection, once closed, leaves every other client's entry as it was and none for this one |
| PointOfPresence.ServedStopsAtEmpty | ProgEx/Python/PoP.py:248-250 | nothing after the first empty read is handled |
| PointOfPresence.ServedNext | ProgEx/Python/PoP.py:246-275 | one pass of the loop handles one exchange and goes on only when it did not fail |
| PointOfPresence.RelayedAll | ProgEx/Python/PoP.py:253-264 | relaying every exchange sends two texts per exchange |
| PointOfPresence.ServedRelaysPrefix | ProgEx/Python/PoP.py:246-275 | what a connection relays is, in order, both texts of each exchange of a prefix of non-empty requests |
| PointOfPresence.FourWords | ProgEx/Python/PoP.py:269 | four space-free words joined by spaces split back into the four |
| PointOfPresence.TransportWords | ProgEx/Python/PoP.py:269 | the client's Transport line splits into four words, the last the port |
| PointOfPresence.LinesThen | ProgEx/Python/PoP.py:268 | three lines ended by line breaks stay the first three lines whatever follows |
| PointOfPresence.ForwardedLines | ProgEx/Python/PoP.py:254-268 | the forwarded request's first three lines are the client's |
| PointOfPresence.SetupPortRoundTrip | ProgEx/Python/PoP.py:267-269 | a forwarded SETUP is recognised and reads back as the client's RTP port |
| PointOfPresence.SetupRecognised | ProgEx/Python/PoP.py:267 | a forwarded SETUP contains "SETUP" |
| PointOfPresence.SetupPortRead | ProgEx/Python/PoP.py:268-269 | the fourth word of a forwarded SETUP's third line reads as the client's port |
| PointOfPresence.SetupRecorded | ProgEx/Python/PoP.py:267-271 | after a SETUP exchange the client's entry is its RTP port and IP, and the loop goes on |
| PointOfPresence.Pop.constructor | ProgEx/Python/PoP.py:8-34 | a node starts with no neighbours, nothing sent and no client entry |
| PointOfPresence.Pop.HandleClient | ProgEx/Python/PoP.py:244-279 | a connection relays what `Served` gives, and at its end the client's entry is deleted and the rest kept |
| PointOfPresence.Pop.Exchange | ProgEx/Python/PoP.py:247-275 | one pass of the loop gives `Exchanged` |
| RtspPlayer.PlayerIdentity | ProgEx/Python/Client.py:68-72 | the client announces its id and IP with control port 5001, data port 5002 and no node type |
| RtspPlayer.AnnouncerCountsFromZero | ProgEx/Python/Client.py:171-237 | an announcer is stored with "tentativas" at 0 and no "failed-attempts" or type, which the sweep reads as 0: it becomes inactive at the third sweep exactly when the first two probes are lost |
| RtspPlayer.Requested | ProgEx/Python/Client.py:348-379 | a request is sent exactly when the state allows it; then the CSeq goes up by one and the method is recorded, otherwise nothing changes |
| RtspPlayer.SetupThroughPop | ProgEx/Python/Client.py:355 | the point of presence reads back the client's RTP port from the SETUP it forwards |
| RtspPlayer.Acknowledged | ProgEx/Python/Client.py:411-432 | a 200 reply moves the client to the state its last request leads to, and without a request changes nothing |
| RtspPlayer.StaleReplyIgnored | ProgEx/Python/Client.py:403 | a reply whose CSeq is not the last one sent changes nothing |
| RtspPlayer.SessionFixed | ProgEx/Python/Client.py:404-410 | once a non-zero integer session is accepted it never changes, and a reply naming another one changes nothing |
| RtspPlayer.ReplyMovesState | ProgEx/Python/Client.py:348-432 | a request answered by a 200 reply with an integer session moves the client to the acknowledged state, fixes the session and counts one request |
| RtspPlayer.FrameOnlyForward | ProgEx/Python/Client.py:312-314 | a packet only moves the frame number forward, to the packet's number, and changes nothing else |
| RtspPlayer.RequestedWellFormed | ProgEx/Python/Client.py:348-379 | a request keeps the fields consistent: a request is recorded exactly when one was counted |
| RtspPlayer.RepliedWellFormed | ProgEx/Python/Client.py:397-432 | a reply keeps the fields consistent: outside INIT a request is known |
| RtspPlayer.Player.constructor | ProgEx/Python/Client.py:25-55 | a client starts in INIT with CSeq 0, session 0, no request and frame 0, and with an empty neighbour table |
| RtspPlayer.Player.SendRtspRequest | ProgEx/Python/Client.py:348-381 | the fields become `Requested` of the old ones and the text, if any, is sent |
| RtspPlayer.Player.ParseRtspReply | ProgEx/Python/Client.py:397-432 | the fields become `Replied` of the old ones and nothing is sent |
| RtspPlayer.Player.Acknowledge | ProgEx/Python/Client.py:411-432 | the fields become `Acknowledged` of the old ones |
| RtspPlayer.Player.ReceiveFrame | ProgEx/Python/Client.py:300-314 | the fields become `Received` of the old ones and nothing is sent |
| Peers.Announcement | etapa2/Node.py:43-49 | REGISTER and UPDATE_NEIGHBORS carry the node's id, IP, type and ports and no neighbour list |
| Peers.PingOf | etapa2/Node.py:200-203 | the sweep's PING carries the node's IP and id |
| Peers.PongOf | etapa2/Node.py:228-230 | the PONG carries only the node's id |
| Peers.InactiveReport | Client.py:206-212 | INACTIVE_NODE names the neighbour that expired |
| Peers.RegisteredEffect | etapa2/Node.py:60-77 | a REGISTER_RESPONSE replaces the table by exactly the listed neighbours, each stored as the variant's rules say, and announces the node to each of them; any other reply changes nothing |
| Peers.PingedEffect | etapa2/Node.py:226-238 | a PING is answered by a PONG, and only the sender, if a neighbour, is changed: its counter is reset and it is active |
| Peers.NoticesAppend | etapa2/Node.py:184-223 | the sends of two stretches of a sweep are those of each, in order |
| Peers.NoticesContents | Client.py:165-202 | a sweep pings exactly the neighbours it probes and reports exactly those it expires, and sends nothing else |
| Peers.SweptEffect | Client.py:160-202 | one sweep updates each neighbour as the shared liveness rule says, only appends to the outbox, pings a neighbour exactly when it is live with fewer than two failures, and reports it exactly when it has two or more |
| Peers.ReportedOnce | Client.py:166-174 | a neighbour reported in one sweep is neither reported nor pinged again in the next one |
| Peers.Peer.constructor | etapa2/Node.py:13-30 | a node starts with an empty neighbour table and nothing sent |
| Peers.Peer.RegisterWithBootstrapper | etapa2/Node.py:34-77 | the node sends its REGISTER and then does what `RegisteredEffect` describes |
| Peers.Peer.HandleUpdateNeighbors | etapa2/Node.py:155-179 | a known announcer becomes active again and an unknown one is stored as a newcomer |
| Peers.Peer.HandlePing | etapa2/Node.py:226-238 | the handler does what `PingedEffect` describes |
| Peers.Peer.SweepNeighbors | etapa2/Node.py:181-224 | one round of the sweep loop does what `SweptEffect` describes |
| Peers.Peer.ReceiveControl | etapa2/Node.py:127-153 | an UPDATE_NEIGHBORS or PING is handled as above; any other message changes nothing |
| PlainNode.NodeIdentity | etapa2/Node.py:279-286 | a node started from the command line uses control port 50051 and data port 50052 |
| PlainNode.NewNode | etapa2/Node.py:13-30 | a new node has no neighbours, nothing sent, and counts "failed-attempts" without reporting expiries |
| PlainNode.RegisteredLive | etapa2/Node.py:62-72 | after registration every neighbour is active with a failure counter |
| PlainNode.AnnouncedPingedLive | etapa2/Node.py:155-179 | an announcement or a PING keeps every neighbour active with a failure counter |
| PlainNode.SweepOnlyPings | etapa2/Node.py:181-224 | the sweep of this node sends nothing but its PING |
| PlainNode.DataReplies | etapa2/Node.py:242-264 | only a point of presence answers datagrams, each with `ACK` to its sender, in order |
| TentativasClient.ClientIdentity | Client.py:8-16 | the client uses control port 5001, data port 5002 and type "client" |
| TentativasClient.Listed | Client.py:49-56 | a listed neighbour is stored without a "status" key and with "tentativas" at 0 |
| TentativasClient.ClientRules | Client.py:160-214 | the sweep counts "tentativas" and reports expiries to the bootstrapper |
| TentativasClient.NewClient | Client.py:8-16 | a new client has no neighbours and nothing sent |
| TentativasClient.ListedEntry | Client.py:47-56 | a listed neighbour has no "status" key and no failure |
| TentativasClient.ListedIsProbed | Client.py:166-197 | a listed neighbour is probed at the first sweep and a PONG makes it active |
| TentativasClient.ReportedAtThirdSweep | Client.py:166-174 | a neighbour that loses two probes after registering is reported to the bootstrapper at the third sweep and not before |
| TentativasClient.PingedAsWritten | Client.py:216-229 | as written, the PONG goes out but a known sender's counter is not reset and the handler never returns |
| TentativasClient.NestedLockLosesReset | Client.py:225-229 | a known neighbour at two failures that pings the client keeps two failures as written, and is reset to zero with a single lock |
| SessionClient.ClientIdentity | etapa3/ESR-TP2/ClientOk.py:39-40 | the client uses control port 5001, data port 5002 and type "client" |
| SessionClient.NewcomerCountsFromZero | etapa3/ESR-TP2/ClientOk.py:183-237 | an announcer stored with "tentativas" has no "failed-attempts" key, which the sweep reads as zero: it expires at the third sweep exactly when the first two probes are lost |
| SessionClient.OpenedFresh | etapa3/ESR-TP2/ClientOk.py:258-268 | a new session gets a number no open session has, and the others are untouched |
| SessionClient.ClosedEffect | etapa3/ESR-TP2/ClientOk.py:271-277 | a session is closed only when it exists and its video has stopped; the others are untouched |
| SessionClient.CloseUndoesOpen | etapa3/ESR-TP2/ClientOk.py:258-277 | closing the session just opened, once stopped, leaves the open sessions as they were |
| SessionClient.Client.constructor | etapa3/ESR-TP2/ClientOk.py:23-50 | a client starts with no neighbours, nothing sent, and no session |
| SessionClient.Client.StartNewSession | etapa3/ESR-TP2/ClientOk.py:258-268 | the counter goes up by one and the new session is stored under it |
| SessionClient.Client.CloseSession | etapa3/ESR-TP2/ClientOk.py:271-277 | the session registry becomes `Closed` of the old one |
| OverlayNode.Listing | ONode.py:37-41 | the stored entry takes the listing's IP, control port and data port |
| OverlayNode.Replaced | ONode.py:33-41 | the directory after an update is well formed, each id listed once |
| OverlayNode.ReplacedKeys | ONode.py:35-37 | after an update the directory holds exactly the listed node ids, nothing kept from before |
| OverlayNode.ReplacedLast | ONode.py:36-41 | a node id listed twice keeps its last listing |
| OverlayNode.ReplacedAsWritten | ONode.py:35-38 | as written the directory is emptied, and the update completes only for an empty listing: the first listing's `ip` field does not exist |
| OverlayNode.MissingFieldEmptiesDirectory | ONode.py:35-41 | as written one listed neighbour leaves the directory empty and raises; reading `node_ip` stores it |
| OverlayNode.RegisterOf | ONode.py:61-65 | REGISTER carries the node id and the control and data ports, and no IP |
| OverlayNode.PingOf | ONode.py:80-82 | the PING carries only the node id |
| OverlayNode.PongOf | ONode.py:28-30 | the PONG carries only the node id |
| OverlayNode.Controlled | ONode.py:16-25 | a PING is answered with a PONG and changes nothing, UPDATE_NEIGHBORS replaces the directory by the listed ids and is not answered, anything else is ignored |
| OverlayNode.Node.constructor | ONode.py:8-14 | a node starts with no neighbours and no bootstrapper |
| OverlayNode.Node.HandleUpdateNeighbors | ONode.py:33-42 | the directory becomes exactly the listing, keyed by node id |
| OverlayNode.Node.RegisterWithBootstrapper | ONode.py:57-72 | the bootstrapper is remembered, REGISTER is sent to it, and a REGISTER_RESPONSE replaces the directory; any other reply leaves it |
| OverlayNode.Node.HandleControlConnection | ONode.py:16-25 | one message changes the directory and the answer as `Controlled` says |
| OverlayNode.Node.SendPing | ONode.py:74-83 | a PING goes to the bootstrapper once one is known, and nothing is sent before |
| Common.CostOrder | etapa3/Node.py:480-483 | the `<` the route search uses on float times with infinity is a strict total order |
| Common.PlusMonotone | etapa3/Node.py:355 | adding a link time to an accumulated time never makes it smaller, and the sum is infinite exactly when a part is |
| Messages.Control | etapa3/Node.py:402-403 | a fresh `ControlMessage()` with its type set has every other field at its protobuf default |
| Messages.Flooding | etapa3/Node.py:513-514 | a fresh `FloodingMessage()` with its type set has every other field at its protobuf default |
| Messages.Frame | etapa3/BootStrapper.py:12-26 | a framed message is the one-byte tag followed by the serialized body |
| Messages.Unframe | etapa3/Node.py:881-928 | a datagram is accepted exactly when it is non-empty and starts with tag 0x01 or 0x02 |
| Messages.FrameRoundTrip | etapa3/BootStrapper.py:12-26 | unframing a framed message gives back its kind and body, and only a framed message unframes to them |
| OrdMap.OMap.Put | etapa3/Node.py:441-444 | `d[k] = v` on a Python dict: an existing key keeps its place, a new key goes last |
| OrdMap.OMap.Remove | etapa3/Node.py:221 | `del d[k]`: the key leaves the iteration order, the others keep theirs |
| OrdMap.Empty | etapa3/Node.py:20-27 | `{}` has no keys |
| OrdMap.UpdatedPrefixEntries | etapa3/Node.py:276-316 | updating each key of a snapshot in turn changes exactly the visited entries, each once |
| OrdMap.UpdatedAll | etapa3/Node.py:276-316 | a loop over a snapshot of a dict that updates each entry in place updates every entry once |
| Text.SplitOn | etapa3/Node.py:595 | `s.split(sep)` always gives at least one piece |
| Text.Split | etapa3/Server.py:349 | `s.split(c)` always gives at least one piece |
| Text.SplitLines | etapa3/Server.py:348 | `s.splitlines()` gives lines without line breaks |
| Text.Strip | etapa3/BootStrapper.py:32 | `s.strip()` is no longer than `s` and has no white space (Python's full `isspace` set) at either end |
| Text.Words | etapa3/BootStrapper.py:33 | `s.split()` gives non-empty words without white space (Python's full `isspace` set) |
| Text.NatToString | etapa3/Node.py:532 | a formatted number is a non-empty run of digits without a leading zero |
| Text.IntToString | etapa3/Node.py:532 | a formatted integer has no space or line break in it |
| Text.ParseInt | etapa3/Server.py:375 | `int(s)` succeeds only on a text holding a digit |
| Text.StripInside | etapa3/BootStrapper.py:32 | stripping adds no character |
| Text.StripClean | etapa3/BootStrapper.py:32 | a text with no white space at its ends strips to itself |
| Text.SplitNoSep | etapa3/BootStrapper.py:32 | no piece of `s.split(c)` contains `c` |
| Text.SplitFirst | etapa3/Server.py:349 | splitting `p + c + rest` at `c` gives `p` then the pieces of `rest` |
| Text.SplitJoin | etapa3/BootStrapper.py:32 | `c.join(parts).split(c) == parts` when no part contains `c` |
| Text.JoinSplit | etapa3/Node.py:595 | `sep.join(s.split(sep)) == s` |
| Text.ParseNatToString | etapa3/Server.py:375 | `int(str(n)) == n` for a natural number |
| Text.ParseIntToString | etapa3/Server.py:375 | `int(str(i)) == i` for any integer |
| Text.DigitsRoundTrip | etapa3/Server.py:375 | reading back the digits of `str(n)` gives `n` |
| Text.SpacePair | etapa3/Server.py:368-370 | `"KEY value".split(' ')` gives the key and the value when neither holds a space |
| Liveness.WithCount | Client.py:202 | storing a counter makes reading it back give the stored value |
| Liveness.Rebuild | etapa2/Node.py:62-72 | the table rebuilt from a REGISTER_RESPONSE lists each key once |
| Liveness.ListedActive | etapa2/Node.py:64-72 | a listed neighbour is stored active with zero failed attempts and its id, ports and type |
| Liveness.AnnouncedActive | etapa2/Node.py:169-177 | an unknown announcer is stored active with zero failed attempts and its id, ports and type |
| Liveness.AnnouncedTentativas | Client.py:150-157 | an unknown announcer is stored active with zero `tentativas` and no `failed-attempts` key |
| Liveness.ListedUntyped | ProgEx/Python/PoP.py:64-72 | a listed neighbour stored without a type is active with zero failed attempts |
| Liveness.AnnouncedUntyped | ProgEx/Python/PoP.py:167-175 | an unknown announcer stored without a type is active with zero failed attempts |
| Liveness.AnnouncedUntypedTentativas | ProgEx/Python/Client.py:185-191 | an unknown announcer stored without a type is active with zero `tentativas` |
| Liveness.Register | etapa2/Node.py:62-72 | the registration loop builds exactly `Rebuild` of the listed neighbours |
| Liveness.RebuildKeys | etapa2/Node.py:62-72 | after a registration the table holds exactly the listed IPs |
| Liveness.RebuildLast | etapa2/Node.py:63-65 | the last listing of an IP decides its entry |
| Liveness.RebuildEntries | etapa2/Node.py:63-72 | every entry comes from some listing of its IP |
| Liveness.Announce | etapa2/Node.py:163-178 | an announcement keeps the table well formed |
| Liveness.AnnounceEffect | etapa2/Node.py:163-178 | a known announcer only becomes active again; an unknown one is added; nobody else changes |
| Liveness.PingedBy | etapa2/Node.py:235-238 | a PING keeps the table well formed |
| Liveness.PingedByEffect | etapa2/Node.py:235-238 | the PING sender, if a neighbour, gets its counter reset and is active; nothing else changes |
| Liveness.SweepTable | etapa2/Node.py:184-223 | a sweep keeps the table's keys and order |
| Liveness.Sweep | etapa2/Node.py:184-223 | the sweep loop over a snapshot updates each entry once and reports, in order, whom it expired and whom it probed |
| Liveness.SweepKeys | etapa2/Node.py:184-223 | the loop updates each key of the snapshot in turn |
| Liveness.SweepPrefixNext | etapa2/Node.py:184-223 | one more key updates exactly that key's entry |
| Liveness.SweepTableUpdated | etapa2/Node.py:184-223 | the swept table is the table updated key by key |
| Liveness.SweepEntryAt | etapa2/Node.py:186-223 | one iteration of the sweep on one entry |
| Liveness.EventsStep | etapa2/Node.py:186-223 | one more key adds that key's event |
| Liveness.SweepEntryEffect | etapa2/Node.py:186-223 | an entry becomes inactive exactly when it had two failures; a PONG resets the counter, a lost probe adds one, a silent probe changes nothing |
| Liveness.ThreeSweepsToExpire | etapa2/Node.py:186-223 | from zero failures a neighbour survives two sweeps and is inactive after the third exactly when the first two probes were lost |
| Liveness.EventsContents | etapa2/Node.py:186-196 | the sweep probes exactly the active neighbours with fewer than two failures and expires exactly those with two or more |
| Liveness.Pings | etapa2/Node.py:198-206 | a sweep sends at most one PING per visited neighbour |
| Liveness.PingsAppend | etapa2/Node.py:184-223 | the PINGs of two stretches of a sweep are those of each, in order |
| Liveness.PingsContents | etapa2/Node.py:198-206 | a sweep sends a PING to a neighbour exactly when it probes it |
| Liveness.Broadcast | etapa2/Node.py:79-98 | one copy of the announcement goes to each neighbour, in order |
| Liveness.Notify | etapa2/Node.py:79-98 | the announcement loop appends exactly `Broadcast` to what was sent before |

## Left out

- Sockets, `recv`/`sendall`, `accept` loops, threads and `time.sleep` timers. Each handler is one sequential method, and a send is an append to the node's `outbox`.
- Locks and concurrency. The nested acquisitions of one lock (etapa3/Node.py:299-307 with 559; Client.py:224-229) would deadlock. The model states the effect the code evidently intends, as the Findings table records for Client.py.
- Floating-point time. `time.time()` round-trip measurements and timestamps are parameters, and costs are `Common.Cost`, a natural number or infinity.
- Protobuf serialisation. The generated `control_protocol_pb2` modules are foreign code. Messages are datatypes, and only the one-byte tag framing is modelled as bytes. A body that fails to parse is a `None` parameter.
- GUI and image code: the tkinter widgets, `writeFrame`/`updateMovie` and the cache deletion in `exitClient`.
- `VideoStream.py` in etapa3 and in etapa3/ESR-TP2. These are OpenCV wrappers, so each frame is a parameter.
- The RTP relay and send loops `forward_rtp` and `sendRtp`. They are byte-forwarding I/O. What is modelled is the packet each builds, through `Rtp` and `RtspWorker.MakeRtp`.
- Opening the RTSP socket in `openRTSP_socket` and `handle_rtsp_connection2`. The model keeps only the parse of the `ACTIVE` request and the worker registry.
- The `main()` argument parsing of every program.
- The root `BootStrapper.py` and `Node.py`. The first holds unresolved merge-conflict markers and is not valid Python. The second is a single registration round trip with no state.
- Cross-file call mismatches. Each file is modelled against its own definitions. Examples: the two-argument `ServerWorker(...)` call in etapa3/Server.py:411, the nine-argument `encode` call in etapa3/ServerWorker.py:149, and `remove_connection` without `self` in etapa3/ESR-TP2/Node.py:569.
- An exception that is not caught ends the handler thread in Python. In the model it ends that handler's effect. Any change made before the exception is kept, as the as-written members show.
- Rtp: reading `payload` before `encode` or `decode` is an `AttributeError` in Python. The model starts every packet with an empty payload.
- FloodSource: registration, PING and the sweep of etapa3/ESR-TP2/Server.py go through the shared `Peers.Peer` table with `Peers.ActiveRules`. Its lemmas state them once for every variant.
- FloodSource.Recorded: its own contract states only that the port table stays well formed. What it records is stated by `FloodSource.FirstActivationWins` and `FloodSource.OthersKept`.
- Random session ids (`random.randint`) are method parameters. The range [100000, 999999] is a precondition where the source draws it.
- RelaySpec.DeactivateAt: models one iteration of `deactivate_routes` without the socket close of etapa3/Node.py:558-563 and its `KeyError`. The loop as written is `RelaySockets.DeactivateAtAsWritten`, and the Findings table records the difference.
- RelaySpec.DeactivateOver: the loop without the socket close of etapa3/Node.py:558-563. `RelaySockets.ReceiversKeepSockets` and `RelaySockets.LastReceiverClosesSockets` state when the loop as written agrees with it.
- RelaySpec.DeactivateReceived: a DEACTIVATE_ROUTE that empties a session runs the loop without the socket close of etapa3/Node.py:558-563, so a `KeyError` there is not modelled.
- RelaySpec.DeactivateSendsAppend: states the sends of the loop without the `KeyError` of etapa3/Node.py:562.
- RelaySpec.DeactivateAtOutbox: states the sends of one iteration without the `KeyError` of etapa3/Node.py:562.
- RelaySpec.DeactivateOverRows: states the rows after the loop without the `KeyError` of etapa3/Node.py:562, which stops the loop early.
- RelaySpec.DeactivateOverSends: states the sends of the loop without the `KeyError` of etapa3/Node.py:562.
- RelaySpec.DeactivateOverSendsStep: states the sends of the loop without the `KeyError` of etapa3/Node.py:562.
- RelaySpec.DeactivateEffect: states `deactivate_routes` as intended, without the socket close of etapa3/Node.py:558-563. `RelaySockets.SharedSocketRaises` shows where the code as written falls short of it.
- RelaySpec.DeactivateReceivedEffect: states the DEACTIVATE_ROUTE handler with the intended deactivation loop, without the `KeyError` of etapa3/Node.py:562.
- RelaySpec.DeactivateSendsContents: states the sends of the loop without the `KeyError` of etapa3/Node.py:562.
- RelayNode.Relay.DeactivateRouteAt: one iteration without the socket close of etapa3/Node.py:558-563. The class holds no sockets.
- RelayNode.Relay.DeactivateRoutes: the intended loop, without the socket close of etapa3/Node.py:558-563.
- RelayNode.Relay.HandleDeactivateRoute: runs the intended loop, without the socket close of etapa3/Node.py:558-563.
- Text.SplitLines: splits only at "\n". Python's `splitlines` also breaks at "\r", "\r\n", "\v", "\f", "\x1c" to "\x1e", "\x85", U+2028 and U+2029. The requests the nodes and clients build separate their lines with "\n" only (for example etapa3/Node.py:534).
- Text.ParseInt: answers `None` for the digit group separators `_` and for the non-ASCII decimal digits that Python's `int` accepts. The source parses port numbers and sequence numbers written in ASCII.

## Findings

| source | as written | input that shows it | evidently intended | confidence | as-written member | corrected member |
|---|---|---|---|---|---|---|
| etapa3/ESR-TP2/Server.py:256-264 | `send_flood_to_neighbors` calls `send_flooding_message` once per neighbour not marked inactive, and each call sends to every neighbour | two live neighbours and one inactive one: each of the three receives two floods per round | each live neighbour receives one flood per round | not executed | FloodSource.FloodMultiplied | FloodSource.FloodLiveOnce |
| ONode.py:38 | the listing's address is read as `neighbor.ip`, but `NeighborInfo` has only `node_ip`, so the update raises after `clear()` | an UPDATE_NEIGHBORS listing one neighbour empties the directory, stores nothing and raises | the directory holds exactly the listed nodes | not executed | OverlayNode.MissingFieldEmptiesDirectory | OverlayNode.ReplacedKeys |
| etapa3/ESR-TP2/Node.py:339 | the reuse branch tests `filename`, which is still `None`, instead of the requested stream | a request for stream "m" whose only row is already "active", with no session yet: the handler creates a session under `None` and raises, and the requester is not recorded | the requester is recorded under "m" and nothing is sent upstream | not executed | HopNode.ReuseWithoutSession | HopNode.ActivateReuses |
| etapa3/ESR-TP2/Node.py:362-363 | after the search loop, the chosen row is looked up under the loop variable `stream_id` left from the last row scanned | a request for streams "m" and "x" whose best row is that of "m": the row is marked "active", the handler then indexes the missing session of "x" and raises, and no ACTIVATE_ROUTE is sent | the chosen row is activated and one ACTIVATE_ROUTE goes to its neighbour | not executed | HopNode.ChosenUnderLastStream | HopNode.ActivateChooses |
| etapa3/Client.py:350-354 | hop counts are compared over every stream a destination advertises, not over the requested film's row | film "f" at 5 hops via "a", which also carries another stream at 1 hop, and at 2 hops via "b": the ACTIVATE_ROUTE goes to "a" | the destination whose row for the film has fewest hops is chosen | not executed | HopClient.FarthestFilmChosen | HopClient.ActivateByLeast |
| Client.py:224-229 | `handle_ping` acquires the non-reentrant `neighbors_lock` again while holding it, so the reset is never reached | a PING from a known neighbour whose `tentativas` is 2 leaves it at 2, and the handler never returns | a PING from a known neighbour resets its counter and marks it active | not executed | TentativasClient.NestedLockLosesReset | Peers.PingedEffect |
| etapa3/Node.py:558-563 | once a stream has no receiver, `deactivate_routes` closes and deletes the one `rtsp_socket` kept per upstream neighbour; a later stream through that neighbour then raises `KeyError` after switching its route off and before the DEACTIVATE_ROUTE | streams f and g both through upstream u, g also through v, sockets to u and v: leaving f tells u and closes its socket; leaving g switches off u's route, raises, tells no one and leaves v carrying g | every switched-off route is told, whatever the sockets | not executed | RelaySockets.SharedSocketRaises | RelaySpec.DeactivateEffect |
