# Peregrine: a verified model of the proxy's protocol machinery

Peregrine is a proxy server. This project models, in Dafny, the parts of it that speak protocols, and proves what they
promise:

- both ends of SOCKS5 (the server's session and the client the connectors use), as programs over a stream that arrives
  in chunks, as machines, and composed with each other in every interleaving;
- the chain connector, which threads one stream through several proxies;
- the UDP relay, whose tasks and listeners share a map;
- the accept loops, which share a semaphore, with the shutdown notice and the drain;
- access control, the domain filter, `host:port` texts and Basic credentials.

## How it is laid out

Strings are their UTF-8 bytes (`Bytes.Text`); `as u8` is `LowByte`, which keeps eight bits; errors are their variants
without texts. Code that updates state step by step is a method over a class (`Transport.Stream`, `UpstreamConfigs.Wire`,
`UdpRelayProgram.SharedRelay`, `ProxyServer.SharedServer`), proved against a function: a session machine, the hops of a
chain, or one step of a transition system. The theorems are about those functions.

A concurrent part is a transition system: a state, labels, and the step of each label; a run is a sequence of labels, and
a theorem about every run is an invariant that each step keeps. Where a property of the code holds only under a condition,
there is an equivalence with that condition, for all inputs or all received packets, and a concrete run or input shows
what happens without it.

| file | what it holds |
|---|---|
| `Bytes.dfy`, `Utf8.dfy`, `Address.dfy`, `Credentials.dfy`, `Transport.dfy` | bytes, UTF-8, the SOCKS5 address field, credentials, chunked streams |
| `Socks5Server.dfy`, `Socks5Session.dfy`, `Socks5Outcome.dfy` | the server session: program and machine; which inputs it admits, what it leaves and says, how it ends |
| `Socks5Client.dfy`, `Socks5ClientSession.dfy` | the client handshake: program and machine; what it takes from its stream |
| `Socks5Pair.dfy` | client and server composed: agreement, progress, bounded runs, outcome |
| `UdpCodec.dfy`, `UdpRelay.dfy`, `UdpRelayRuns.dfy` | the UDP header; the relay as an interleaving system; what it can do with the packets it receives |
| `UdpRelayProgram.dfy` | the relay's shared state updated in place: loop, task and listener |
| `UpstreamConfigs.dfy`, `ProxyChain.dfy`, `ChainLaws.dfy`, `UpstreamRouter.dfy`, `HttpConnect.dfy` | connectors, chains, what chains mean, the HTTP CONNECT exchange |
| `HttpRequest.dfy` | HTTP requests as a reader sees them |
| `ChainStream.dfy` | the handshakes of a chain on the bytes of its one stream |
| `ConnectionPermits.dfy`, `ProxyServer.dfy` | permits, shutdown and drain; the shared counters updated in place: accept loop and shutdown |
| `HostPort.dfy`, `Base64.dfy`, `BasicAuth.dfy` | text codecs |
| `DomainFilter.dfy`, `AccessControl.dfy` | compiled filters and rules |

## Where the code parts from its documentation

The model follows the code.

- Comments in `src/upstream/chain.rs:132-134` and `:178-179` say TLS is handled at the first hop of a chain. No hop of a
  chain uses TLS: `UpstreamRouter.ChainOfOneIff` gives the exact condition under which a chain of one proxy is that proxy's
  own connector.
- The comment in `src/acl/mod.rs:99-100` says the credential lookup gives `None` when no users are configured. With
  `Authenticate` as the default action it gives an empty list (`AccessControl.DefaultGivesEmptyList`; `NoUsersIff` is the
  exact condition for the comment). It also ignores method filters, which the access check does not
  (`LookupFollowsDecisionIff`, `LookupIgnoresMethodFilter`).
- `src/server.rs:189-196` means to stop every accept loop. The notice reaches only the loops that are at their `select!`
  at that moment; `ConnectionPermits.NoticeReachesAllIff` says exactly when shutdown can still get past the join.
- The comment in `src/server.rs:278` says all connections are done once all permits are acquired. The count is cast to 32
  bits; `ConnectionPermits.DrainIsSoundIff` gives the limits for which the comment is right.
- A `Direct` entry before a proxy makes the hop before it ask for the final target, so later handshakes run inside that
  connection (`ChainLaws.AlwaysEndToEndIff`; `DirectInTheMiddle` is an example).
- A datagram from a UDP target carries the target first asked for on its socket, not its real source
  (`src/protocol/socks5/udp_associate.rs:127-130`, `:228-234`); `UdpRelay.Isolation` says what the label is, and
  `UdpRelayRuns.MislabelledAnswerIff` for which packets it can be another target's.
- The UDP association ends with its control channel (RFC 1928, section 7), but listeners go on answering
  (`UdpRelayRuns.AnswersAfterCloseIff`).
- A client can come to have several sockets, and one that no map entry leads to, although the map is keyed by client
  (`src/protocol/socks5/udp_associate.rs:116-135`); `UdpRelayRuns.TwoSocketsIff` and `OrphanIff` say for which packets.
- Lengths go through `as u8` without a check (`src/upstream/chain.rs:205-207`, `:236`); `Socks5Pair.TargetSurvivesIff` and
  `Socks5Pair.CredentialSurvivesIff` say exactly which targets and credentials survive.

## Model

A "session", "dialogue" or "run" below is any one: all lemmas are for every input, every division of it into chunks, every
configuration and every interleaving, under the conditions named. The agreement, progress and outcome of `Socks5Pair` are
for a domain of at most 255 bytes and, if the server has users, a user name and a password of at most 255 bytes
(`Socks5Pair.Fits`). `Socks5Pair.OverlongNameBreaksAgreement` is a run without it; `TargetSurvivesIff` and
`CredentialSurvivesIff` say exactly which length bytes are right.

| member | source | states |
|---|---|---|
| Socks5Pair.StepKeeps | src/upstream/socks5_proxy.rs:39-147 | every step of client, server, channel or fault keeps the invariant that says whose turn it is and which exact bytes are under way each way |
| Socks5Pair.Agreement | src/protocol/socks5/mod.rs:15-44 | in every interleaving, with failures: a client that reports success is joined to a server that dialled exactly its target and is tunnelling to it, and the unread bytes each way are exactly the tunnel traffic, from its first byte; nothing is ever dialled for an unauthorized client, nor any other target |
| Socks5Pair.StepCost | src/protocol/socks5/handshake.rs:29-210 | every step but tunnel traffic lowers one number (reads to come, bytes to write, bytes to carry, endpoints still up), whatever the state |
| Socks5Pair.StepsAreBounded | src/upstream/chain.rs:181-283 | every run, of any length, takes at most its starting potential in handshake steps plus one for each byte of tunnel traffic: every handshake ends |
| Socks5Pair.Progress | src/upstream/chain.rs:181-283 | deadlock-freedom: in every reachable state either both endpoints are over or a step other than a fault or tunnel traffic is possible |
| Socks5Pair.NobodyGivesUp | src/protocol/socks5/handshake.rs:31-45 | in a run without faults neither endpoint ever starves at a read |
| Socks5Pair.Outcome | src/protocol/socks5/mod.rs:15-44 | a failure-free run that cannot go on has ended on both sides; the client succeeded if and only if it is authorized and its target was dialled with success, if and only if the server tunnels; a target is dialled if and only if the client is authorized |
| Socks5Pair.TargetSurvivesIff | src/upstream/chain.rs:234-238 | the server handles the request the client meant if and only if the name fits its length byte |
| Socks5Pair.OverlongNameDialsElsewhere | src/upstream/chain.rs:234-238 | a 256-byte name makes the server handle a request for the empty name on port 24929 |
| Socks5Pair.OverlongNameBreaksAgreement | src/upstream/chain.rs:234-238 | a run of client and server with a 256-byte name: the client reports success while the server tunnels to the empty name on port 24929, with the rest of the name as the first bytes in the tunnel |
| Socks5Pair.CredentialSurvivesIff | src/upstream/chain.rs:203-208 | whatever users a server lists, it accepts the wire form of a credential if and only if that credential is listed and both its fields fit their length bytes |
| Socks5Session.AdmissionIff | src/protocol/socks5/handshake.rs:29-133 | the authentication gate, both ways: the session comes to read a request if and only if the input is a method message offering the required method and, with users configured, a message carrying a listed credential; each message is consumed to its last byte and no further |
| Socks5Session.AuthParsedIff | src/protocol/socks5/handshake.rs:76-133 | the field-by-field reading of an authentication message succeeds if and only if the bytes are the message of a listed credential followed by the rest |
| Socks5Session.RequestIsDecoding | src/protocol/socks5/handshake.rs:136-210 | after version, command and an unchecked reserved byte the request phase reads exactly one encoded target, or ends with an error when there is none |
| Socks5Session.SessionIff | src/protocol/socks5/mod.rs:15-29 | a request is handled, with exactly the admission replies sent and exactly the rest unread, if and only if the input is an admission followed by that request in wire form |
| Socks5Session.MoreInput | src/protocol/socks5/handshake.rs:29-210 | self-delimitation: a session that was not cut short has the same result and output, and leaves every extra byte unread, whatever follows its input |
| Socks5Session.ConsumptionBound | src/protocol/socks5/handshake.rs:29-210 | at most 1032 bytes are consumed before a command is handled, and correspondingly less from every later phase |
| Socks5Session.OutputShape | src/protocol/socks5/handshake.rs:29-133 | what a session writes before a command, from any phase, is at most one method reply and then at most one authentication reply, refusals included; if a command is reached it is exactly the accepting ones still due |
| Socks5Session.WholeOutput | src/protocol/socks5/mod.rs:15-44 | everything written before tunnel or relay, and how the session ends: after a CONNECT a tunnel to the target if it can be dialled and otherwise the end, after BIND the end, after UDP ASSOCIATE the relay if its socket can be bound and otherwise an error without a reply |
| Socks5Outcome.TunnelsIff | src/protocol/socks5/mod.rs:15-44 | for every input: the session tunnels to t with this rest unread if and only if the input is an admission and a CONNECT for t followed by that rest, and t can be dialled |
| Socks5Outcome.RelaysIff | src/protocol/socks5/mod.rs:35-37 | for every input: the session becomes a control channel with this rest unread if and only if the input is an admission and a UDP ASSOCIATE followed by that rest, and a relay socket can be bound |
| Socks5Outcome.ConnectOutcome | src/protocol/socks5/tcp_connect.rs:22-45 | after an admitted CONNECT: reply 05 00 00 01 and six zeros and the tunnel if the target can be dialled, 05 05 00 01 and six zeros and the end otherwise |
| Socks5Outcome.BindOutcome | src/protocol/socks5/mod.rs:38-40 | after an admitted BIND: reply 05 07 00 01 and six zeros, and the end |
| Socks5Outcome.UdpOutcome | src/protocol/socks5/udp_associate.rs:10-50 | after an admitted UDP ASSOCIATE: the reply ends with the two bytes of the bound port, high byte first, or there is none and the session fails |
| Socks5Outcome.NothingPlaced | src/protocol/socks5/mod.rs:15-29 | for every input that is not an admission and a request: the session fails, and neither tunnels nor relays |
| Socks5Outcome.SaidIs | src/protocol/socks5/handshake.rs:29-133 | for every input, exactly the bytes said before any command: the answer to a complete method message, and the verdict on a complete and readable pair |
| Socks5Outcome.MethodRefused | src/protocol/socks5/handshake.rs:49-70 | a client that does not offer the required method is answered 05 FF, and that is all |
| Socks5Outcome.CredentialRefused | src/protocol/socks5/handshake.rs:122-132 | a client with an unlisted pair is answered 05 02 01 01, and that is all |
| Socks5Server.NegotiateMethod | src/protocol/socks5/handshake.rs:29-73 | chunk by chunk, leaves stream and output where the session machine stands after negotiation; method 2 is chosen only when users are configured, so the error branch of the caller is never taken |
| Socks5Server.AuthenticateUser | src/protocol/socks5/handshake.rs:76-133 | leaves stream and output where the machine stands after authentication, accepting or not |
| Socks5Server.ReadRequest | src/protocol/socks5/handshake.rs:136-210 | leaves the stream where the machine stands when it handles the request it returns, or has failed with the error it returns |
| Socks5Server.SendReply | src/protocol/socks5/handshake.rs:213-222 | appends the ten bytes of the reply to what was sent |
| Socks5Server.HandleConnect | src/protocol/socks5/tcp_connect.rs:7-48 | if the target can be dialled, ten bytes with code 0 and the tunnel to exactly that target; otherwise ten bytes with code 5 and the end |
| Socks5Server.HandleUdpAssociate | src/protocol/socks5/udp_associate.rs:10-50 | announces the bound port, high byte first, and becomes the control channel, or fails before writing anything |
| Socks5Server.HandleCommand | src/protocol/socks5/mod.rs:31-42 | CONNECT ends as a tunnel exactly when the target can be dialled, UDP ASSOCIATE as the relay exactly when its socket can be bound, BIND always with code 7 |
| Socks5Server.Admit | src/protocol/socks5/mod.rs:17-26 | leaves stream and output where the machine stands after both admission phases |
| Socks5Server.HandleSocks5 | src/protocol/socks5/mod.rs:15-44 | segmentation independence: outcome, unread rest and output are a function of the concatenated input, whatever the chunks |
| Transport.Stream.ReadExact | src/protocol/socks5/handshake.rs:31-35 | takes exactly the next n bytes over any division into chunks, or everything and an error |
| Transport.AfterFlatten | src/protocol/socks5/handshake.rs:31-35 | taking n bytes off the front of any chunks leaves the byte string without its first n |
| Transport.Stream.Read | src/upstream/chain.rs:155-157 | takes the next non-empty chunk, or as much of it as fits, off the front; nothing only at the end of the stream |
| Transport.PieceSize | src/upstream/chain.rs:155-157 | one read takes as much of the first non-empty chunk as fits, which is a prefix of everything that is to come |
| Socks5Client.PerformSocks5Handshake | src/upstream/socks5_proxy.rs:39-147 | result, unread rest and output are those of the client machine, over any division into chunks; on success the last thing written is the request for exactly the given host and port |
| Socks5Client.Authenticate | src/upstream/chain.rs:181-220 | negotiation and credentials leave the dialogue at the reply phase or at its error |
| Socks5Client.BuildAuth | src/upstream/socks5_proxy.rs:67-73 | the pushed bytes are the message that the server-side lemmas are about |
| Socks5Client.BuildRequest | src/upstream/socks5_proxy.rs:86-104 | the pushed bytes are 05 01 00, then the IPv4 form of the host if it has one, else its IPv6 form, else the name with its length byte, then exactly the given port, high byte first |
| Socks5Client.ReadReply | src/upstream/socks5_proxy.rs:106-144 | reads what the machine reads from the reply phase on, and no more |
| Socks5ClientSession.ReplyIsConsumed | src/upstream/chain.rs:243-280 | a success reply is consumed to its last byte, whatever address it says was bound |
| Socks5ClientSession.UnknownBoundTypeIsNotConsumed | src/upstream/chain.rs:278 | a reply with an unknown address type counts as success after four bytes, the rest of it left in the tunnel |
| Socks5ClientSession.RequestIsRead | src/upstream/socks5_proxy.rs:86-104 | for every host that fits and every port: the server here reads the request as a CONNECT for that port, and for the IPv4 form of the host if it has one, else its IPv6 form, else the name itself |
| Socks5ClientSession.EstablishedIff | src/upstream/chain.rs:187-283 | for everything a proxy can send: the client succeeds if and only if the negotiation is accepted and a complete reply with code 0 follows; it has then written its credentials if asked and its request, and leaves what follows unread |
| Socks5ClientSession.RejectedIff | src/upstream/chain.rs:187-262 | for everything a proxy can send: which of the errors the client reports, each if and only if its own bytes are there |
| Socks5ClientSession.HopIsExact | src/upstream/chain.rs:172-284 | over a hop whose proxy accepts, the client writes exactly its messages, reads exactly the replies and succeeds, whatever follows |
| Socks5ClientSession.ServerIsAcceptingHop | src/protocol/socks5/mod.rs:15-44 | given everything an authorized client writes over a hop, the server here tunnels to the client's target, has answered exactly what `HopIsExact` takes for an accepting hop, and leaves every later byte unread |
| Address.DecodeIffEncode | src/protocol/socks5/udp_associate.rs:165-210 | an address field decodes to a target if and only if the target is encodable and the field is its encoding, byte for byte |
| Address.OverlongNameIsNeverDecoded | src/upstream/chain.rs:234-238 | a name with a truncated length is never read back, whatever follows |
| Address.WireLayout | src/upstream/chain.rs:221-239 | the field is a type byte 1, 3 or 4, the octets or the name after its length modulo 256, and the port with its high byte first |
| Utf8.ValidUtf8Iff | src/protocol/socks5/handshake.rs:188-190 | bytes are taken for text if and only if they are the encodings of some scalar values, by range and six-bit groups (RFC 3629, section 3) |
| UdpCodec.ParseSocks5UdpPacket | src/protocol/socks5/udp_associate.rs:146-215 | the offset-driven parser stays in bounds and, its minimum of seven bytes included, accepts exactly what the address decoder accepts after three zero bytes |
| UdpCodec.BuildSocks5UdpResponse | src/protocol/socks5/udp_associate.rs:251-284 | the pushed bytes are the packet the codec lemmas are about |
| UdpCodec.UdpBijection | src/protocol/socks5/udp_associate.rs:146-215 | for all byte strings: a packet parses to target and payload if and only if the target is encodable and the packet is what the builder makes of them |
| UdpCodec.StreamAndPacketAgree | src/protocol/socks5/handshake.rs:136-210 | the stream reader of requests and the packet parser accept the same addresses and stop at the same byte |
| UdpRelay.StepKeeps | src/protocol/socks5/udp_associate.rs:105-142 | every step of loop, task or listener, races included, keeps tasks, sockets, map and history consistent |
| UdpRelay.NoDeadEntries | src/protocol/socks5/udp_associate.rs:117-135 | in every reachable state a mapped socket belongs to its key and its listener has not run its cleanup |
| UdpRelay.Isolation | src/protocol/socks5/udp_associate.rs:218-244 | every response went to a client through a socket bound for that client by one of its own packets; its label is a target that packet asked for, never truncated, and the packet parses back to label and payload |
| UdpRelay.TaskIsolation | src/protocol/socks5/udp_associate.rs:117-139 | a task about to send holds a socket of its own client, found or bound |
| UdpRelay.ForwardedOnce | src/protocol/socks5/udp_associate.rs:112-139 | everything sent to a target is what one received packet parses to, sent through a socket of its client, at most once for each packet |
| UdpRelayRuns.SocketsAreBounded | src/protocol/socks5/udp_associate.rs:117-122 | for the packets received over any run: a client never has more sockets than it sent packets that parse |
| UdpRelayRuns.Conservation | src/protocol/socks5/udp_associate.rs:77-90 | for the packets received over any run: the multiset of datagrams sent to targets is included in the multiset of what those packets parse to |
| UdpRelayRuns.TwoSocketsIff | src/protocol/socks5/udp_associate.rs:117-135 | for any received packets: some interleaving gives a client two sockets, and even listens on both at once, if and only if two packets of one client parse |
| UdpRelayRuns.OrphanIff | src/protocol/socks5/udp_associate.rs:122-135 | for any received packets: some interleaving leaves a socket that is listened to and that no map entry leads to, if and only if two packets of one client parse |
| UdpRelayRuns.RaceOrphansSocket | src/protocol/socks5/udp_associate.rs:117-135 | the run itself, for any two such packets among any others: in the end the map is empty and the second socket is still listened to |
| UdpRelayRuns.OneSocketPerClient | src/protocol/socks5/udp_associate.rs:117-135 | a refinement: in an interleaving in which no other task of the client is between lookup and insertion at any lookup, each client has at most one socket not cleaned up, and the map leads to it once it is published |
| UdpRelayRuns.MislabelledAnswerIff | src/protocol/socks5/udp_associate.rs:127-130 | for any received packets: some interleaving gives a client the answer of one target under the name of another if and only if two packets of one client ask for different targets; otherwise every answer carries its sender |
| UdpRelayRuns.MislabelledResponseIff | src/protocol/socks5/udp_associate.rs:228-234 | from arbitrary senders a response can carry a name that is not its sender's if and only if some packet parses |
| UdpRelayRuns.AnswersAfterCloseIff | src/protocol/socks5/udp_associate.rs:64-69 | for any received packets: some interleaving answers a client after the control channel has closed if and only if one of the packets parses |
| UdpRelayProgram.SharedRelay.ParseAndLookUp | src/protocol/socks5/udp_associate.rs:112-119 | keeps the invariant of all runs; with the offset-driven parser, the task drops, misses, or takes the socket mapped at that moment |
| UdpRelayProgram.SharedRelay.Respond | src/protocol/socks5/udp_associate.rs:228-237 | keeps the invariant of all runs; the built packet goes to the owner of the socket under the label fixed when it was bound, or the listener breaks |
| UdpRelayProgram.SharedRelay.RelayLoop | src/protocol/socks5/udp_associate.rs:59-98 | over any events, keeps the invariant, starts exactly one task for each packet before the control channel closes or the relay socket fails, and closes if and only if one of these happens |
| UdpRelayProgram.SharedRelay.HandleUdpPacket | src/protocol/socks5/udp_associate.rs:105-142 | a task run without interruption is a run of the transition system and keeps the invariant; a packet that parses goes out at most once, through the socket its client is mapped to, old or newly bound and listened to; result `Ok` exactly when it went out, and nothing changes but the task when the packet is malformed or no socket can be bound |
| UdpRelayProgram.SharedRelay.ListenForResponses | src/protocol/socks5/udp_associate.rs:218-248 | over any arrivals, a listener is a run of the transition system and keeps the invariant: exactly the payloads before the first failure are answered, in order and under the label of the socket, and after a failure the entry of its client is gone, whichever socket it led to |
| ProxyChain.ChainConnector.Connect | src/upstream/chain.rs:16-76 | the loop over hops, on any network and any chain, has the result and the log of the recursive definition that the laws are about |
| ProxyChain.ProxyHandshake | src/upstream/chain.rs:103-123 | one handshake, none for `Direct`, an error for a nested chain |
| ChainLaws.EndToEndIff | src/upstream/chain.rs:45-75 | for every chain and every target: a successful connection leads through every configured proxy once, in order, to the target, if and only if every proxy right after a `Direct` is itself the target |
| ChainLaws.AlwaysEndToEndIff | src/upstream/chain.rs:45-75 | for every chain that can connect at all: on all networks its connections lead through the proxies to the target if and only if every proxy right after a `Direct` is itself the target; otherwise one does connect by another path |
| ChainLaws.DirectInTheMiddle | src/upstream/chain.rs:57-60 | `p, Direct, q` connects, by way of p, the target and the target again, instead of p, q and the target |
| ChainLaws.ConnectableIff | src/upstream/chain.rs:16-87 | some network lets a chain connect if and only if it is a lone `Direct`, or starts at a proxy and every entry is `Direct` or a proxy with an address that parses |
| ChainLaws.EndToEnd | src/upstream/chain.rs:45-75 | proxies followed by any number of `Direct`: the stream leads through the proxies, in order, to the target, whatever the target |
| ChainLaws.ConnectPath | src/upstream/chain.rs:45-75 | the path of every successful connection through any chain, as a list of the proxies and targets that its hops ask for |
| ChainLaws.RunHopsPath | src/upstream/chain.rs:53-73 | the loop invariant: from hop i on, success extends the path by exactly the addresses asked for |
| ChainLaws.FarEndIsTarget | src/upstream/chain.rs:16-76 | whatever its shape, a chain that connects ends at the target |
| ChainLaws.ConnectTrace | src/upstream/chain.rs:45-75 | success or not, the log is the dial of the first proxy and then each proxy asked in turn, in its own protocol with its own credentials, for the next; a failure leaves a prefix, success all of it |
| ChainLaws.ConnectOutcome | src/upstream/chain.rs:16-76 | for every network and every chain that can connect: result and log are those of the course, taken up to the first refusal; a refused dial is an upstream error, a refused handshake its own error |
| ChainLaws.ConnectsIff | src/upstream/chain.rs:16-76 | a chain connects if and only if it can and the network accepts each step of its course |
| ChainLaws.UnusableOutcome | src/upstream/chain.rs:53-70 | a chain with an entry that has no usable address goes exactly as far as it can without naming it, then fails with an upstream error |
| ChainLaws.NoFirstProxy | src/upstream/chain.rs:17-47 | an empty chain, or one that starts with `Direct` or a nested chain, fails with nothing on the network |
| ChainLaws.NestedChainFails | src/upstream/chain.rs:80-87 | a chain with a chain anywhere inside never connects, whatever the network does |
| ChainLaws.TrailingDirectIff | src/upstream/chain.rs:53-73 | appending `Direct` changes neither trace nor result on any network if and only if something other than a lone `Direct` stands before it |
| UpstreamRouter.ChainOfOneIff | src/upstream/mod.rs:75-94 | a chain of one proxy and that proxy's own connector have the same trace and result on every network if and only if TLS plays no part |
| UpstreamRouter.ChainOfDirect | src/upstream/chain.rs:23-33 | a chain of one `Direct` and the direct connector differ in the variant of a dial error only |
| UpstreamRouter.OwnConnectorOutcome | src/upstream/mod.rs:75-94 | for every network: a proxy's own connector dials its address, wraps the stream under the host of that address exactly if configured, and makes one handshake in its protocol with its credentials for the target, up to the first refusal |
| UpstreamRouter.BadAddressFails | src/upstream/http_proxy.rs:17-19 | a proxy address without a valid port is an upstream error |
| UpstreamRouter.DirectOutcome | src/upstream/direct.rs:10-18 | without a proxy the target itself is dialled, and a refusal is an I/O error |
| UpstreamRouter.RoutedToTarget | src/upstream/mod.rs:75-94 | every connector the router can select ends at the target when it succeeds |
| HttpConnect.BuildConnect | src/upstream/chain.rs:139-152 | the pushed text, read back line by line, is one CONNECT request for the target in HTTP/1.1, with the host and, if configured, the credentials, for every host that fits on a line |
| HttpConnect.PerformHttpHandshake | src/upstream/chain.rs:126-169 | writes the request of `ConnectIsReadIff`, takes one piece of the stream and decides on that piece alone, however little of the response it is |
| HttpConnect.ConnectIsReadIff | src/upstream/chain.rs:139-152 | a reader that cuts lines at CRLF, the first line at spaces and headers at a colon gets the method CONNECT, the target, HTTP/1.1 and exactly these headers, with anything after the empty line unread, if and only if the host has no space and no line end in it |
| HttpConnect.ConnectAsksForTarget | src/upstream/chain.rs:139-152 | the authority read back parses to exactly the host and port; there is a second header if and only if there are credentials, and the server's check accepts it for a list if and only if the pair is listed (user names without a colon) |
| HttpConnect.AcceptsIff | src/upstream/chain.rs:158-165 | a response is a success if and only if it starts with the bytes of HTTP/1.0 200 or HTTP/1.1 200 |
| HttpConnect.ProxyAuthenticationRequired | src/upstream/chain.rs:160-165 | a 407 response is never a success |
| ChainStream.ShakeHands | src/upstream/chain.rs:103-123 | one handshake on the bytes of a stream: result, chunks left and output, over any division into chunks |
| ChainStream.ThreadStream | src/upstream/chain.rs:53-75 | the loop of handshakes on one stream has the result, the chunks left and the output of the recursive definition that the laws are about |
| ChainStream.LegsLeaveTunnel | src/upstream/chain.rs:53-75 | through any number of HTTP and SOCKS5 proxies in any order, whose SOCKS5 answers come in any pieces, the client says exactly its messages in order and the chunks left are exactly the tunnel |
| ChainStream.HttpLegExactIff | src/upstream/chain.rs:155-157 | however head and tunnel arrive: an HTTP leg that succeeds drops as many bytes as the first non-empty chunk holds, 4096 at most, so the tunnel starts at its first byte if and only if that is the length of the head |
| ChainStream.HttpLegAcceptsIff | src/upstream/chain.rs:155-165 | an HTTP leg succeeds if and only if those first bytes start with status 200, whatever else arrives |
| ChainStream.CutHeadLeaksIntoTunnel | src/upstream/chain.rs:155-165 | a head cut after its status code: success, with the rest of the head in the tunnel |
| ChainStream.JoinedHeadLosesTunnel | src/upstream/chain.rs:155-165 | a head that arrives together with tunnel bytes: success, with those bytes lost |
| ChainStream.ChainOnStreamIff | src/upstream/chain.rs:45-75 | on the network that one stream of bytes makes, a chain that starts at a proxy connects if and only if all its addresses can be used and all its handshakes succeed on that stream, one after the other |
| ChainStream.ChainLeavesTunnel | src/upstream/chain.rs:16-76 | one run, both levels: through usable proxies that answer smoothly, the connection leads through the proxies in order to the target, the client has said exactly its messages, and the tunnel starts at its first byte |
| ConnectionPermits.PermitsAreConserved | src/server.rs:223-274 | at every moment of every run, with any number of accept loops, free permits and permit-holding tasks add up to the limit |
| ConnectionPermits.NoNewTasksAfterJoin | src/server.rs:193-196 | once the accept loops are joined the number of tasks in flight never rises again |
| ConnectionPermits.DrainedIsIdle | src/server.rs:198-210 | a completed drain leaves no permit-holding task for the rest of the run, if the limit fits in 32 bits |
| ConnectionPermits.LargeLimitDrainsEarly | src/server.rs:277-280 | for every larger limit that a semaphore can have there is a run whose drain completes while a connection is served |
| ConnectionPermits.DrainIsSoundIff | src/server.rs:277-280 | for the limits a semaphore can have: drained means idle, for every number of loops and every run, if and only if the limit fits in 32 bits |
| ConnectionPermits.MissedForever | src/server.rs:224-271 | a loop that is away from its `select!` when the notice is given goes on forever, and shutdown never gets past joining it |
| ConnectionPermits.CanJoinIff | src/server.rs:191-196 | from any state after the notice, shutdown can still get past the join if and only if every loop has stopped or holds an unread notice; a loop not yet polled, between two turns, holding a connection, or listening without the notice prevents it |
| ConnectionPermits.NoticeReachesAllIff | src/server.rs:191-196 | from the moment of the notice in any reachable state, shutdown can get past the join if and only if every accept loop was at its `select!` at that moment |
| ConnectionPermits.NoticeCanBeLost | src/server.rs:224-271 | each way of being away from the `select!` at the notice (not polled yet, just after an accept error, holding a connection) is reachable, and from there no run gets past the join |
| ProxyServer.SharedServer.NotifyWaiters | src/server.rs:191 | keeps the invariant of all runs; the scan marks the loops that are at their `select!` at that moment and no others |
| ProxyServer.SharedServer.JoinLoops | src/server.rs:193-196 | keeps the invariant of all runs; joins if and only if every loop has returned |
| ProxyServer.SharedServer.AcceptLoop | src/server.rs:223-274 | over any results of `accept`, a loop on its own serves exactly as many connections as there are permits; it ends up listening again, or, if and only if more arrived, waiting with one more, deaf to the notice |
| ProxyServer.SharedServer.StopAccepting | src/server.rs:191-196 | notice, break and join: the join is reached if and only if every loop is at its `select!` at the notice |
| ProxyServer.SharedServer.Shutdown | src/server.rs:189-218 | hangs, in every continuation, if and only if some loop was away from its `select!` at the notice; otherwise ends gracefully if and only if few enough of the connections outlast the wait, none for limits that fit in 32 bits |
| HostPort.ParseIff | src/upstream/chain.rs:90-100 | a text parses to host and port if and only if it is the host, a colon, perhaps a plus sign, any zeros, and the decimal digits of a port of at most 65535; everything else is refused |
| HostPort.ParseU16Iff | src/upstream/chain.rs:94 | the port parser accepts a text for p if and only if it is perhaps a plus sign, any zeros, and the decimal digits of p |
| HostPort.BadPortsAreRefused | src/upstream/chain.rs:94-95 | `h`, `8h`, `+`, `65536` and the empty text are no ports, `443` is |
| HostPort.ExtractHostIs | src/upstream/mod.rs:54-60 | the extracted host is what stands before the last colon, whatever follows it, or the whole text |
| HostPort.PrintParse | src/upstream/chain.rs:90-100 | printing then parsing gives back every host, colons included, and every port |
| HostPort.ParsersAgree | src/protocol/http_handler.rs:175-183 | the parser of the chain and the parser of CONNECT authorities accept the same texts with the same result, and the extracted host is theirs |
| Base64.Base64Bijection | src/acl/auth.rs:21-25 | decoding gives some bytes if and only if encoding those bytes gives the text (RFC 4648, section 4, canonical padding) |
| Base64.AlphabetIs | src/acl/auth.rs:22 | the 64 symbols, in the order of the standard alphabet |
| Base64.PaddingExamples | src/acl/auth.rs:22 | the padded examples of RFC 4648, section 10 |
| Base64.PackIsRadixChange | src/upstream/chain.rs:147-148 | the four symbols of a group are the base-64 digits of the number its three bytes denote |
| BasicAuth.ParseBasicIff | src/acl/auth.rs:11-41 | a header parses to a credential if and only if the user name has no colon and the header is `Basic`, a space and the encoding of name, colon and password, with any white space around it |
| BasicAuth.BasicRoundTripIff | src/upstream/chain.rs:145-149 | what the connectors send is read back as the same pair if and only if the user name has no colon |
| BasicAuth.CheckProxyAuthIff | src/protocol/http_handler.rs:187-208 | a header is accepted if and only if its bytes are visible ASCII or tabs and it carries, between white space, the credential of a listed user without a colon in the name |
| BasicAuth.ConnectorAccepted | src/protocol/http_handler.rs:187-208 | a connector with a colon-free user name is accepted if and only if its pair is listed |
| BasicAuth.ConnectorAcceptedIff | src/protocol/http_handler.rs:187-208 | acceptance of a connector is membership in the list, for every list, if and only if its user name has no colon |
| DomainFilter.NewFilter | src/acl/domain_filter.rs:19-61 | compiles if and only if every pattern compiles, and then the buckets hold exactly the patterns, each under its kind |
| DomainFilter.KindsAre | src/acl/domain_filter.rs:26-40 | a pattern is an expression if it starts with `~`, else a glob if it has a `*` or a `?` in it, else a name |
| DomainFilter.FilterRefinesScan | src/acl/domain_filter.rs:64-85 | a compiled filter matches a name if and only if some pattern matches it under its own kind |
| DomainFilter.FilterIgnoresOrder | src/acl/domain_filter.rs:64-85 | lists with the same patterns, in any order and with any repetition, compile to filters that decide alike |
| DomainFilter.EmptyIff | src/acl/domain_filter.rs:88-92 | a filter is empty if and only if it was made from no patterns, and then it matches nothing |
| AccessControl.ParseNets | src/acl/mod.rs:34-41 | all networks, in order, if and only if every text parses |
| AccessControl.UpperSet | src/acl/mod.rs:52-57 | exactly the upper-cased verbs |
| AccessControl.BuildRule | src/acl/mod.rs:28-72 | a rule with exactly the parts that its configuration says, if and only if they compile |
| AccessControl.FromConfig | src/acl/mod.rs:19-76 | a controller if and only if every rule compiles, and then rule by rule what the configuration says |
| AccessControl.FirstMatch | src/acl/mod.rs:79-86 | the least index from which on a rule applies, none if none does |
| AccessControl.BuiltRuleMeans | src/acl/mod.rs:123-201 | a built rule matches a request if and only if the conditions of its configuration do |
| AccessControl.FirstConfiguredRuleDecides | src/acl/mod.rs:79-86 | from configuration to decision: the least rule whose own conditions hold decides, the default if there is none |
| AccessControl.AccessSkipsMethodRules | src/acl/mod.rs:88-92 | without a method, the first rule matching address and name that has no method filter decides, or the default |
| AccessControl.SubsumedRuleIsDead | src/acl/mod.rs:79-86 | deleting a rule that an earlier one subsumes changes no decision |
| AccessControl.LookupFollowsDecisionIff | src/acl/mod.rs:101-120 | for every request, method included: the credential lookup settles on the rule that decides the request if and only if that rule's method filter lets the method through |
| AccessControl.LookupYieldsDecidingUsersIff | src/acl/mod.rs:101-120 | whatever actions and credentials the rules carry, the lookup yields exactly the users of the decision if and only if the rule it settles on lets the method through |
| AccessControl.OffersWithoutAsking | src/acl/mod.rs:101-120 | otherwise rules with the same conditions exist whose lookup offers any given user for a request that is allowed without asking |
| AccessControl.DecidedUsersMean | src/acl/mod.rs:79-86 | the users of a decision are those of the rule that decides, an empty list for the default, and only if the decision is to authenticate |
| AccessControl.NoUsersIff | src/acl/mod.rs:99-120 | when no rule carries users: the lookup gives `None` for every address and name if and only if the default is not to authenticate or every address and name has a matching rule |
| AccessControl.DefaultGivesEmptyList | src/acl/mod.rs:112-119 | with no rules and `Authenticate` as the default the lookup gives an empty list |
| AccessControl.LookupIgnoresMethodFilter | src/acl/mod.rs:101-120 | with a method filter, users can be offered for an access that the default allows |

## Left out

- PerformSocks5Handshake: like `PerformHttpHandshake` and `ThreadStream`, takes a peer that eventually closes, because the client has no timeout and would otherwise wait; waiting on an open stream is part of `Socks5Pair`.
- HandleSocks5: its writes always succeed; an endpoint that fails between its steps is part of `Socks5Pair`.
- StepKeeps: in `Socks5Pair` every write is all or nothing; an endpoint that fails in the middle of one, with a part of it already under way, is not a behaviour of that model.
- HandleConnect: the dial is an oracle on the target; the printing of IP literals and their resolution belong to libraries.
- HandleUdpAssociate: the relay socket is bound on an IPv4 address, so the IPv6 arm of its reply, which cannot be reached, is not modelled.
- ConnectPath: a far end that accepts a handshake is taken to have dialled what it was asked for; `Socks5Pair.Agreement` proves this of the server here.
- LegsLeaveTunnel: asks that an HTTP response head comes in one piece of at most 4096 bytes; `ChainStream.HttpLegExactIff` says exactly when the single read is harmless.
- ParseBasicIff: trims ASCII white space only; the check that calls the parser passes visible ASCII.
- NewFilter: a glob or expression set that is refused for its size, although each pattern compiles, is not modelled.
- Shutdown: is one schedule of the end of `run`, with the connections that finish in time as a parameter; all schedules are in `ConnectionPermits`. The 30-second clock, and the order in which a semaphore serves its waiters, are not modelled.
- HandleUdpPacket: like `ListenForResponses` and `RelayLoop`, runs without interruption; all interleavings are in `UdpRelay` and `UdpRelayRuns`.
- MislabelledAnswerIff: names a sender as the client would write it; two names of one host are two targets.
- LargeLimitDrainsEarly: takes the largest semaphore of a 64-bit machine; on a 32-bit machine no such limit exists.
- CanJoinIff: is about what can still happen; that it does happen depends on scheduling and is not claimed.
- The connectors of `src/upstream/socks5_proxy.rs` and `src/upstream/http_proxy.rs` outside their handshakes are modelled on values (`UpstreamRouter.ConnectWith`), not over `UpstreamConfigs.Wire`: dial, optional TLS, one handshake, with no loop and no state of their own.
- TLS, certificates and `ProxyStream` (`src/server.rs:20-113`, `src/upstream/mod.rs:32-51`): foreign libraries and delegation.
- HTTP serving, forwarding and upgrade (`src/protocol/http_handler.rs:14-173`): the behaviour is in a library that is not part of this model.
- Glob, expression and network matching, upper-casing and the reading of IP literals: parameters (`DomainFilter.Matchers`, `AccessControl.Libraries`, `Socks5Client.HostForms`).
- DNS, sockets, clocks: outcomes are labels of the transition systems or parameters of the sessions.
- `copy_bidirectional`: the session ends where the tunnel takes the stream over; in `Socks5Pair` tunnel traffic is arbitrary.
- Data on the UDP control channel, which the relay ignores.
- Which users the server passes to a SOCKS5 session: its accept path passes none (`src/server.rs:317`), and the sessions here are for any.
- The branch for a closed semaphore (`src/server.rs:258-261`): nothing closes it.
- Protocol detection, metrics, logging, configuration files, command line, reload on SIGHUP, error texts.
