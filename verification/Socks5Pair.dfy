/**
 * The client and the server of this repository connected to each other, in every interleaving: two byte channels that
 * deliver in arbitrary pieces, endpoints that take one step per completed read, failures at any moment, tunnel traffic
 * as soon as an endpoint believes the tunnel is open.
 */
module Socks5Pair {
  import opened Bytes
  import opened Address
  import opened Credentials
  import opened Socks5Server
  import opened Socks5Session
  import opened Socks5Client

  /** One direction: bytes under way, then bytes delivered and not yet read. */
  datatype Channel = Channel(wire: seq<byte>, arrived: seq<byte>) {
    function Pending(): seq<byte> {
      arrived + wire
    }

    function Send(data: seq<byte>): Channel {
      Channel(wire + data, arrived)
    }

    function Carry(k: nat): Channel
      requires k <= |wire|
    {
      Channel(wire[k..], arrived + wire[..k])
    }

    function Take(n: nat): Channel
      requires n <= |arrived|
    {
      Channel(wire, arrived[n..])
    }
  }

  datatype Setup = Setup(cfg: ClientConfig, users: Users)

  datatype Dial = Dial(target: TargetAddr, connected: bool)

  /** `clientDown` and `serverDown` mark an endpoint that gave up at a read; its phase stays where it was. */
  datatype Pair = Pair(
    client: ClientPhase, server: ServerPhase, up: Channel, down: Channel,
    clientDown: bool, serverDown: bool,
    dialled: Option<Dial>, upTunnel: seq<byte>, downTunnel: seq<byte>)

  datatype Label =
    | CarryUp(k: nat)
    | CarryDown(k: nat)
    | ServerReads
    | ClientReads
    | Dials(connected: bool)
    | ServerSeesEof
    | ClientSeesEof
    | ServerFails
    | ClientFails
    | ClientTunnels(data: seq<byte>)
    | ServerTunnels(data: seq<byte>)
  {
    predicate Fault() {
      ServerFails? || ClientFails?
    }

    predicate Tunnel() {
      ClientTunnels? || ServerTunnels?
    }
  }

  function Start(setup: Setup): Pair {
    Pair(AwaitMethod, AwaitHeader, Channel(Greeting(setup.cfg), []), Channel([], []), false, false, None, [], [])
  }

  /** The state after a step, or `None` when the step is not possible. */
  function Step(setup: Setup, s: Pair, l: Label): Option<Pair> {
    match l
    case CarryUp(k) =>
      if 1 <= k <= |s.up.wire| then Some(s.(up := s.up.Carry(k))) else None
    case CarryDown(k) =>
      if 1 <= k <= |s.down.wire| then Some(s.(down := s.down.Carry(k))) else None
    case ServerReads =>
      if !s.serverDown && s.server.Waiting() && |s.up.arrived| >= s.server.Need() then
        var n := s.server.Need();
        var (next, out) := OnRead(setup.users, s.server, s.up.arrived[..n]);
        Some(s.(server := next, up := s.up.Take(n), down := s.down.Send(out)))
      else None
    case ClientReads =>
      if !s.clientDown && s.client.Waiting() && |s.down.arrived| >= s.client.Need() then
        var n := s.client.Need();
        var (next, out) := OnReply(setup.cfg, s.client, s.down.arrived[..n]);
        Some(s.(client := next, down := s.down.Take(n), up := s.up.Send(out)))
      else None
    case Dials(connected) =>
      if !s.serverDown && s.server.Handling? && s.server.request.command == Connect then
        var target := s.server.request.target;
        var (next, out) := OnDial(target, connected);
        Some(s.(server := next, down := s.down.Send(out), dialled := Some(Dial(target, connected))))
      else None
    case ServerSeesEof =>
      if !s.serverDown && s.server.Waiting() && (s.clientDown || s.client.Rejected?)
         && s.up.wire == [] && |s.up.arrived| < s.server.Need() then Some(s.(serverDown := true)) else None
    case ClientSeesEof =>
      if !s.clientDown && s.client.Waiting() && (s.serverDown || s.server.Finished?)
         && s.down.wire == [] && |s.down.arrived| < s.client.Need() then Some(s.(clientDown := true)) else None
    case ServerFails =>
      if !s.serverDown && (s.server.Waiting() || s.server.Handling?) then Some(s.(serverDown := true)) else None
    case ClientFails =>
      if !s.clientDown && s.client.Waiting() then Some(s.(clientDown := true)) else None
    case ClientTunnels(data) =>
      if s.client.Established? && data != [] then
        Some(s.(up := s.up.Send(data), upTunnel := s.upTunnel + data)) else None
    case ServerTunnels(data) =>
      if s.server.Tunnelling? && data != [] then
        Some(s.(down := s.down.Send(data), downTunnel := s.downTunnel + data)) else None
  }

  /** A run: the state after all the labels, if each step was possible. */
  function Exec(setup: Setup, s: Pair, labels: seq<Label>): Option<Pair>
    decreases |labels|
  {
    if labels == [] then Some(s)
    else
      var next := Step(setup, s, labels[0]);
      if next.None? then None else Exec(setup, next.value, labels[1..])
  }

  /** The hypothesis of everything below: no length byte that is sent is truncated. */
  predicate Fits(setup: Setup) {
    && Encodable(setup.cfg.target)
    && (setup.users.Some? && setup.cfg.auth.Some? ==>
          |setup.cfg.auth.value.username| <= 255 && |setup.cfg.auth.value.password| <= 255)
  }

  /** The server accepts this client: it asks for no credentials, or the client's are listed. */
  predicate Authorized(setup: Setup) {
    setup.users.None? || (setup.cfg.auth.Some? && setup.cfg.auth.value in setup.users.value)
  }

  function Method(setup: Setup): byte {
    if setup.users.None? then 0x00 else if setup.cfg.auth.Some? then 0x02 else 0xFF
  }

  // The turns of the conversation.

  predicate Greeted(p: ServerPhase) {
    p.AwaitHeader? || p.AwaitMethods?
  }

  predicate Authenticating(p: ServerPhase) {
    p.AwaitAuthVersion? || p.AwaitUserLen? || p.AwaitUser? || p.AwaitPassLen? || p.AwaitPass?
  }

  predicate Requested(p: ServerPhase) {
    p.AwaitRequest? || p.AwaitIpv4? || p.AwaitIpv4Port? || p.AwaitDomainLen? || p.AwaitDomain? || p.AwaitDomainPort?
    || p.AwaitIpv6? || p.AwaitIpv6Port? || p.Handling?
  }

  /** What the server has gathered so far is what this client sent. */
  predicate OnTrack(setup: Setup, p: ServerPhase) {
    var t := setup.cfg.target;
    match p
    case AwaitHeader => true
    case AwaitMethods(n) => n == |Greeting(setup.cfg)| - 2
    case AwaitAuthVersion | AwaitUserLen => true
    case AwaitUser(n) => setup.cfg.auth.Some? && n == |setup.cfg.auth.value.username|
    case AwaitPassLen(user) => setup.cfg.auth.Some? && user == setup.cfg.auth.value.username
    case AwaitPass(user, n) =>
      setup.cfg.auth.Some? && user == setup.cfg.auth.value.username && n == |setup.cfg.auth.value.password|
    case AwaitRequest => true
    case AwaitIpv4(c) => c == Connect && t.Ipv4?
    case AwaitIpv4Port(c, a) => c == Connect && t.Ipv4? && a == t.v4
    case AwaitDomainLen(c) => c == Connect && t.Domain?
    case AwaitDomain(c, n) => c == Connect && t.Domain? && n == |t.name|
    case AwaitDomainPort(c, name) => c == Connect && t.Domain? && name == t.name
    case AwaitIpv6(c) => c == Connect && t.Ipv6?
    case AwaitIpv6Port(c, a) => c == Connect && t.Ipv6? && a == t.v6
    case Handling(request) => request == SocksRequest(Connect, t)
    case Tunnelling(_) | Relaying | Finished(_) => false
  }

  /** The part of the client's current message that a server on track has not read yet. */
  function Remaining(setup: Setup, p: ServerPhase): seq<byte>
    requires OnTrack(setup, p)
  {
    var t := setup.cfg.target;
    match p
    case AwaitHeader => Greeting(setup.cfg)
    case AwaitMethods(_) => Greeting(setup.cfg)[2..]
    case AwaitAuthVersion => AuthTail(setup, 0)
    case AwaitUserLen => AuthTail(setup, 1)
    case AwaitUser(_) => AuthTail(setup, 2)
    case AwaitPassLen(user) => AuthTail(setup, 2 + |user|)
    case AwaitPass(user, _) => AuthTail(setup, 3 + |user|)
    case AwaitRequest => ConnectMessage(setup.cfg)
    case AwaitIpv4(_) => t.v4 + BigEndian(t.port)
    case AwaitDomainLen(_) => [LowByte(|t.name|)] + t.name + BigEndian(t.port)
    case AwaitDomain(_, _) => t.name + BigEndian(t.port)
    case AwaitIpv6(_) => t.v6 + BigEndian(t.port)
    case AwaitIpv4Port(_, _) | AwaitDomainPort(_, _) | AwaitIpv6Port(_, _) => BigEndian(t.port)
    case Handling(_) => []
  }

  function AuthTail(setup: Setup, i: nat): seq<byte> {
    if setup.cfg.auth.None? then []
    else
      var m := AuthMessage(setup.cfg.auth.value.username, setup.cfg.auth.value.password);
      if i <= |m| then m[i..] else []
  }

  // One read by a server on track.

  lemma GreetedStep(setup: Setup, p: ServerPhase)
    requires Greeted(p) && OnTrack(setup, p)
    ensures |Remaining(setup, p)| >= p.Need()
    ensures var m := Remaining(setup, p); var r := OnRead(setup.users, p, m[..p.Need()]);
            if p.AwaitHeader? then
              r.1 == [] && Greeted(r.0) && OnTrack(setup, r.0) && Remaining(setup, r.0) == m[p.Need()..]
            else
              r == (AfterMethod(setup.users, Method(setup)), [0x05, Method(setup)]) && m[p.Need()..] == []
  {
    if p.AwaitMethods? {
      var methods := Remaining(setup, p);
      assert methods[..p.Need()] == methods;
      assert methods == if setup.cfg.auth.Some? then [0x00, 0x02] else [0x00];
    }
  }

  lemma AuthStep(setup: Setup, p: ServerPhase)
    requires Fits(setup) && setup.users.Some? && setup.cfg.auth.Some?
    requires Authenticating(p) && OnTrack(setup, p)
    ensures |Remaining(setup, p)| >= p.Need()
    ensures var m := Remaining(setup, p); var r := OnRead(setup.users, p, m[..p.Need()]);
            if !p.AwaitPass? then
              r.1 == [] && Authenticating(r.0) && OnTrack(setup, r.0) && Remaining(setup, r.0) == m[p.Need()..]
            else if Authorized(setup) then r == (AwaitRequest, [0x01, 0x00]) && m[p.Need()..] == []
            else r == (Finished(Err(Socks5)), [0x01, 0x01]) && m[p.Need()..] == []
  {
    var c := setup.cfg.auth.value;
    AuthMessageAt(c.username, c.password, []);
    var a := AuthMessage(c.username, c.password);
    assert a + [] == a;
    if p.AwaitPass? {
      var m := Remaining(setup, p);
      assert m == c.password && m[..p.Need()] == m && m[p.Need()..] == [];
      assert VerifyCredentials(c.username, c.password, setup.users.value) <==> c in setup.users.value;
    }
  }

  lemma RequestStep(setup: Setup, p: ServerPhase)
    requires Fits(setup)
    requires Requested(p) && !p.Handling? && OnTrack(setup, p)
    ensures |Remaining(setup, p)| >= p.Need()
    ensures var m := Remaining(setup, p); var r := OnRead(setup.users, p, m[..p.Need()]);
            r.1 == [] && Requested(r.0) && OnTrack(setup, r.0) && Remaining(setup, r.0) == m[p.Need()..]
  {
    hide ValidUtf8, EncodeTarget;
    if p.AwaitRequest? {
      RequestHeadStep(setup);
    } else if p.AwaitDomainLen? || p.AwaitDomain? || p.AwaitDomainPort? {
      NameStep(setup, p);
    } else {
      BigEndianRoundTrip(setup.cfg.target.port, [0, 0]);
    }
  }

  lemma NameStep(setup: Setup, p: ServerPhase)
    requires Fits(setup)
    requires (p.AwaitDomainLen? || p.AwaitDomain? || p.AwaitDomainPort?) && OnTrack(setup, p)
    ensures |Remaining(setup, p)| >= p.Need()
    ensures var m := Remaining(setup, p); var r := OnRead(setup.users, p, m[..p.Need()]);
            r.1 == [] && Requested(r.0) && OnTrack(setup, r.0) && Remaining(setup, r.0) == m[p.Need()..]
  {
    hide ValidUtf8, EncodeTarget;
    BigEndianRoundTrip(setup.cfg.target.port, [0, 0]);
  }

  lemma RequestHeadStep(setup: Setup)
    requires Fits(setup)
    ensures var m := ConnectMessage(setup.cfg); var r := OnRead(setup.users, AwaitRequest, m[..4]);
            |m| >= 4 && r.1 == [] && Requested(r.0) && OnTrack(setup, r.0) && Remaining(setup, r.0) == m[4..]
  {
    hide ValidUtf8;
    var e := EncodeTarget(setup.cfg.target);
    var m := ConnectMessage(setup.cfg);
    assert m[..4] == [0x05, 0x01, 0x00, e[0]] && m[4..] == e[1..];
  }

  // What every step keeps: whose turn it is, and exactly which bytes are under way each way.

  /** The server is reading the client's current message; nothing is under way to the client. */
  predicate Reading(setup: Setup, s: Pair) {
    OnTrack(setup, s.server) && s.up.Pending() == Remaining(setup, s.server) && s.down.Pending() == []
  }

  /** The server has read all of it and said `reply`. */
  predicate Replied(s: Pair, next: ServerPhase, reply: seq<byte>) {
    s.server == next && s.up.Pending() == [] && s.down.Pending() == reply
  }

  predicate NegotiationTurn(setup: Setup, s: Pair) {
    || (Greeted(s.server) && Reading(setup, s))
    || Replied(s, AfterMethod(setup.users, Method(setup)), [0x05, Method(setup)])
  }

  predicate AuthTurn(setup: Setup, s: Pair) {
    && Method(setup) == 0x02
    && (|| (Authenticating(s.server) && Reading(setup, s))
        || Replied(s, if Authorized(setup) then AwaitRequest else Finished(Err(Socks5)),
                   [0x01, if Authorized(setup) then 0x00 else 0x01]))
  }

  predicate Answered(setup: Setup, s: Pair) {
    && s.dialled == Some(Dial(setup.cfg.target, s.server.Tunnelling?))
    && (s.server == Tunnelling(setup.cfg.target) || (s.server == Finished(Ok(())) && s.downTunnel == []))
  }

  predicate RequestTurn(setup: Setup, s: Pair) {
    || (Requested(s.server) && Reading(setup, s) && s.dialled == None)
    || (Answered(setup, s) && s.up.Pending() == []
        && s.down.Pending() == Reply(if s.server.Tunnelling? then 0x00 else 0x05, 0) + s.downTunnel)
  }

  predicate Connected(setup: Setup, s: Pair) {
    Authorized(setup) && s.server == Tunnelling(setup.cfg.target) && s.dialled == Some(Dial(setup.cfg.target, true))
  }

  predicate Refused(setup: Setup, s: Pair, e: ProxyError) {
    && s.server.Finished?
    && (if Authorized(setup) then s.dialled == Some(Dial(setup.cfg.target, false)) && e == Upstream
        else s.dialled == None && e == if Method(setup) == 0xFF then Socks5 else AuthFailed)
  }

  predicate Inv(setup: Setup, s: Pair) {
    && (!s.client.Established? ==> s.upTunnel == [])
    && (!s.server.Tunnelling? ==> s.downTunnel == [])
    && match s.client
       case AwaitMethod => s.dialled == None && NegotiationTurn(setup, s)
       case AwaitAuthReply => s.dialled == None && AuthTurn(setup, s)
       case AwaitReply => Authorized(setup) && RequestTurn(setup, s)
       case AwaitBoundLen => false
       case AwaitBound(n) =>
         n == 6 && Connected(setup, s) && s.up.Pending() == [] && s.down.Pending() == Reply(0x00, 0)[4..] + s.downTunnel
       case Established =>
         Connected(setup, s) && s.up.Pending() == s.upTunnel && s.down.Pending() == s.downTunnel
       case Rejected(e) => Refused(setup, s, e)
  }

  lemma ChannelFacts(c: Channel, k: nat, data: seq<byte>)
    ensures c.Send(data).Pending() == c.Pending() + data
    ensures k <= |c.wire| ==> c.Carry(k).Pending() == c.Pending()
    ensures k <= |c.arrived| ==> c.Pending()[..k] == c.arrived[..k] && c.Take(k).Pending() == c.Pending()[k..]
  {
  }

  lemma CarryKeeps(setup: Setup, s: Pair, l: Label)
    requires Inv(setup, s) && (l.CarryUp? || l.CarryDown?) && Step(setup, s, l).Some?
    ensures Inv(setup, Step(setup, s, l).value)
  {
    ChannelFacts(if l.CarryUp? then s.up else s.down, l.k, []);
  }

  lemma ServerReadKeeps(setup: Setup, s: Pair)
    requires Fits(setup) && Inv(setup, s) && Step(setup, s, ServerReads).Some?
    ensures Inv(setup, Step(setup, s, ServerReads).value)
  {
    var n, p := s.server.Need(), s.server;
    ChannelFacts(s.up, n, []);
    var out := OnRead(setup.users, p, s.up.arrived[..n]).1;
    ChannelFacts(s.down, 0, out);
    match s.client
    case AwaitMethod =>
      if Greeted(p) {
        GreetedStep(setup, p);
      }
    case AwaitAuthReply =>
      if Authenticating(p) {
        AuthStep(setup, p);
      }
    case AwaitReply =>
      RequestStep(setup, p);
  }

  /** A client read takes a prefix of what is pending. */
  lemma ClientReadEffect(setup: Setup, s: Pair)
    requires Step(setup, s, ClientReads).Some?
    ensures var t := Step(setup, s, ClientReads).value; var n := s.client.Need();
            && n <= |s.down.Pending()|
            && var r := OnReply(setup.cfg, s.client, s.down.Pending()[..n]);
            && t.client == r.0 && t.up.Pending() == s.up.Pending() + r.1 && t.down.Pending() == s.down.Pending()[n..]
            && t == s.(client := t.client, up := t.up, down := t.down)
  {
    var n := s.client.Need();
    ChannelFacts(s.down, n, []);
    ChannelFacts(s.up, 0, OnReply(setup.cfg, s.client, s.down.arrived[..n]).1);
  }

  lemma MethodReadKeeps(setup: Setup, s: Pair)
    requires Fits(setup) && Inv(setup, s) && s.client.AwaitMethod? && Step(setup, s, ClientReads).Some?
    ensures Inv(setup, Step(setup, s, ClientReads).value)
  {
    hide ValidUtf8, EncodeTarget, AuthMessage, ConnectMessage, Greeting;
    ClientReadEffect(setup, s);
    assert !Greeted(s.server);
    assert s.down.Pending()[..2] == [0x05, Method(setup)];
  }

  lemma AuthReadKeeps(setup: Setup, s: Pair)
    requires Fits(setup) && Inv(setup, s) && s.client.AwaitAuthReply? && Step(setup, s, ClientReads).Some?
    ensures Inv(setup, Step(setup, s, ClientReads).value)
  {
    ClientReadEffect(setup, s);
  }

  lemma ReplyReadKeeps(setup: Setup, s: Pair)
    requires Fits(setup) && Inv(setup, s) && s.client.AwaitReply? && Step(setup, s, ClientReads).Some?
    ensures Inv(setup, Step(setup, s, ClientReads).value)
  {
    ClientReadEffect(setup, s);
    var reply := Reply(if s.server.Tunnelling? then 0x00 else 0x05, 0);
    assert (reply + s.downTunnel)[4..] == reply[4..] + s.downTunnel;
  }

  lemma BoundReadKeeps(setup: Setup, s: Pair)
    requires Fits(setup) && Inv(setup, s) && s.client.AwaitBound? && Step(setup, s, ClientReads).Some?
    ensures Inv(setup, Step(setup, s, ClientReads).value)
  {
    ClientReadEffect(setup, s);
    assert (Reply(0x00, 0)[4..] + s.downTunnel)[6..] == s.downTunnel;
  }

  lemma ClientReadKeeps(setup: Setup, s: Pair)
    requires Fits(setup) && Inv(setup, s) && Step(setup, s, ClientReads).Some?
    ensures Inv(setup, Step(setup, s, ClientReads).value)
  {
    match s.client
    case AwaitMethod => MethodReadKeeps(setup, s);
    case AwaitAuthReply => AuthReadKeeps(setup, s);
    case AwaitReply => ReplyReadKeeps(setup, s);
    case AwaitBound(_) => BoundReadKeeps(setup, s);
  }

  lemma DialKeeps(setup: Setup, s: Pair, connected: bool)
    requires Fits(setup) && Inv(setup, s) && Step(setup, s, Dials(connected)).Some?
    ensures Inv(setup, Step(setup, s, Dials(connected)).value)
  {
  }

  lemma TunnelKeeps(setup: Setup, s: Pair, l: Label)
    requires Inv(setup, s) && l.Tunnel() && Step(setup, s, l).Some?
    ensures Inv(setup, Step(setup, s, l).value)
  {
    ChannelFacts(if l.ClientTunnels? then s.up else s.down, 0, l.data);
    if l.ServerTunnels? && s.client.AwaitReply? {
      assert (Reply(0x00, 0) + s.downTunnel) + l.data == Reply(0x00, 0) + (s.downTunnel + l.data);
    }
    if l.ServerTunnels? && s.client.AwaitBound? {
      assert (Reply(0x00, 0)[4..] + s.downTunnel) + l.data == Reply(0x00, 0)[4..] + (s.downTunnel + l.data);
    }
  }

  lemma StepKeeps(setup: Setup, s: Pair, l: Label)
    requires Fits(setup) && Inv(setup, s) && Step(setup, s, l).Some?
    ensures Inv(setup, Step(setup, s, l).value)
  {
    match l
    case CarryUp(_) | CarryDown(_) => CarryKeeps(setup, s, l);
    case ServerReads => ServerReadKeeps(setup, s);
    case ClientReads => ClientReadKeeps(setup, s);
    case Dials(connected) => DialKeeps(setup, s, connected);
    case ClientTunnels(_) | ServerTunnels(_) => TunnelKeeps(setup, s, l);
    case ServerSeesEof | ClientSeesEof | ServerFails | ClientFails =>
  }

  lemma StartInv(setup: Setup)
    ensures Inv(setup, Start(setup))
  {
  }

  lemma {:induction false} RunKeeps(setup: Setup, s: Pair, labels: seq<Label>)
    requires Fits(setup) && Inv(setup, s) && Exec(setup, s, labels).Some?
    ensures Inv(setup, Exec(setup, s, labels).value)
    decreases |labels|
  {
    if labels != [] {
      StepKeeps(setup, s, labels[0]);
      RunKeeps(setup, Step(setup, s, labels[0]).value, labels[1..]);
    }
  }

  /**
   * Agreement, in every interleaving with any failures: a client that has returned success is joined to a server that
   * dialled exactly the client's target and is tunnelling to it, and what is still unread each way is exactly what was
   * written into the tunnel, from its first byte.
   */
  lemma Agreement(setup: Setup, labels: seq<Label>, s: Pair)
    requires Fits(setup) && Exec(setup, Start(setup), labels) == Some(s)
    ensures s.client.Established? ==>
              && Authorized(setup)
              && s.server == Tunnelling(setup.cfg.target) && s.dialled == Some(Dial(setup.cfg.target, true))
              && s.up.Pending() == s.upTunnel && s.down.Pending() == s.downTunnel
    ensures s.dialled.Some? ==> Authorized(setup) && s.dialled.value.target == setup.cfg.target
    ensures s.server.Tunnelling? ==> s.client.AwaitReply? || s.client.AwaitBound? || s.client.Established?
  {
    StartInv(setup);
    RunKeeps(setup, Start(setup), labels);
  }

  // Every handshake ends.

  /** Bytes a server at this phase may still write during the handshake. */
  function ServerOutput(p: ServerPhase): nat {
    if Greeted(p) then 14 else if Authenticating(p) then 12 else if Requested(p) then 10 else 0
  }

  function ClientOutput(cfg: ClientConfig, p: ClientPhase): nat {
    if p.AwaitMethod? then |AuthTail(Setup(cfg, None), 0)| + |ConnectMessage(cfg)|
    else if p.AwaitAuthReply? then |ConnectMessage(cfg)|
    else 0
  }

  /** Reads and dials to come, bytes to be written, bytes to be carried, endpoints that can still give up. */
  function Potential(cfg: ClientConfig, s: Pair): nat {
    s.server.Rank() + ServerOutput(s.server) + s.client.Rank() + ClientOutput(cfg, s.client)
    + |s.up.wire| + |s.down.wire| + (if s.clientDown then 0 else 1) + (if s.serverDown then 0 else 1)
  }

  lemma ServerReadCost(users: Users, p: ServerPhase, data: seq<byte>)
    requires p.Waiting() && |data| == p.Need()
    ensures var (q, out) := OnRead(users, p, data);
            q.Rank() + ServerOutput(q) + |out| < p.Rank() + ServerOutput(p)
  {
  }

  lemma ClientReadCost(cfg: ClientConfig, p: ClientPhase, data: seq<byte>)
    requires p.Waiting() && |data| == p.Need()
    ensures var (q, out) := OnReply(cfg, p, data);
            q.Rank() + ClientOutput(cfg, q) + |out| < p.Rank() + ClientOutput(cfg, p)
  {
    if cfg.auth.Some? {
      var m := AuthMessage(cfg.auth.value.username, cfg.auth.value.password);
      assert AuthTail(Setup(cfg, None), 0) == m;
    }
  }

  lemma StepCost(setup: Setup, s: Pair, l: Label)
    requires Step(setup, s, l).Some?
    ensures var t := Step(setup, s, l).value;
            if l.Tunnel() then Potential(setup.cfg, t) == Potential(setup.cfg, s) + |l.data|
            else Potential(setup.cfg, t) < Potential(setup.cfg, s)
  {
    match l
    case ServerReads => ServerReadCost(setup.users, s.server, s.up.arrived[..s.server.Need()]);
    case ClientReads => ClientReadCost(setup.cfg, s.client, s.down.arrived[..s.client.Need()]);
    case _ =>
  }

  function HandshakeSteps(labels: seq<Label>): nat {
    if labels == [] then 0 else (if labels[0].Tunnel() then 0 else 1) + HandshakeSteps(labels[1..])
  }

  function Traffic(labels: seq<Label>): nat {
    if labels == [] then 0 else (if labels[0].Tunnel() then |labels[0].data| else 0) + Traffic(labels[1..])
  }

  /** No run takes more steps than the potential it starts with, plus one for every byte of tunnel traffic. */
  lemma {:induction false} StepsAreBounded(setup: Setup, s: Pair, labels: seq<Label>)
    requires Exec(setup, s, labels).Some?
    ensures HandshakeSteps(labels) + Potential(setup.cfg, Exec(setup, s, labels).value)
         <= Potential(setup.cfg, s) + Traffic(labels)
    decreases |labels|
  {
    if labels != [] {
      StepCost(setup, s, labels[0]);
      StepsAreBounded(setup, Step(setup, s, labels[0]).value, labels[1..]);
    }
  }

  predicate ClientOver(s: Pair) {
    s.clientDown || !s.client.Waiting()
  }

  predicate ServerOver(s: Pair) {
    s.serverDown || !(s.server.Waiting() || s.server.Handling?)
  }

  predicate Ordinary(l: Label) {
    !l.Fault() && !l.Tunnel()
  }

  /** While the server is at a read, it or the client or a channel can move. */
  lemma ServerProgress(setup: Setup, s: Pair) returns (l: Label)
    requires Fits(setup) && Inv(setup, s) && !ServerOver(s)
    requires ClientOver(s) || (s.down.wire == [] && |s.down.arrived| < s.client.Need())
    ensures Ordinary(l) && Step(setup, s, l).Some?
  {
    if s.server.Handling? {
      return Dials(true);
    }
    if |s.up.arrived| >= s.server.Need() {
      return ServerReads;
    }
    if s.up.wire != [] {
      return CarryUp(1);
    }
    if s.clientDown || s.client.Rejected? {
      return ServerSeesEof;
    }
    match s.client
    case AwaitMethod =>
      if Greeted(s.server) && Reading(setup, s) {
        GreetedStep(setup, s.server);
      }
    case AwaitAuthReply =>
      if Authenticating(s.server) && Reading(setup, s) {
        AuthStep(setup, s.server);
      }
    case AwaitReply =>
      RequestStep(setup, s.server);
    case _ =>
  }

  /** Deadlock-freedom: in every reachable state, either both endpoints are over or some ordinary step is possible. */
  lemma Progress(setup: Setup, labels: seq<Label>, s: Pair) returns (l: Label)
    requires Fits(setup) && Exec(setup, Start(setup), labels) == Some(s)
    requires !(ClientOver(s) && ServerOver(s))
    ensures Ordinary(l) && Step(setup, s, l).Some?
  {
    StartInv(setup);
    RunKeeps(setup, Start(setup), labels);
    if !ClientOver(s) && |s.down.arrived| >= s.client.Need() {
      return ClientReads;
    }
    if !ClientOver(s) && s.down.wire != [] {
      return CarryDown(1);
    }
    if !ServerOver(s) {
      l := ServerProgress(setup, s);
      return;
    }
    return ClientSeesEof;
  }

  predicate FaultFree(labels: seq<Label>) {
    forall i :: 0 <= i < |labels| ==> !labels[i].Fault()
  }

  /** No ordinary or tunnel step makes an endpoint give up: whoever it waits for has neither failed nor refused. */
  lemma NobodyGivesUpAt(setup: Setup, s: Pair, l: Label)
    requires Fits(setup) && Inv(setup, s) && !s.clientDown && !s.serverDown
    requires Step(setup, s, l).Some? && !l.Fault()
    ensures var t := Step(setup, s, l).value; !t.clientDown && !t.serverDown
  {
    hide OnRead, OnReply, OnTrack, Remaining, Reply;
  }

  /** Without failures no endpoint ever gives up at a read. */
  lemma {:induction false} NobodyGivesUp(setup: Setup, s: Pair, labels: seq<Label>)
    requires Fits(setup) && Inv(setup, s) && !s.clientDown && !s.serverDown
    requires Exec(setup, s, labels).Some? && FaultFree(labels)
    ensures var t := Exec(setup, s, labels).value; !t.clientDown && !t.serverDown
    decreases |labels|
  {
    hide Inv, Step;
    if labels != [] {
      assert !labels[0].Fault();
      StepKeeps(setup, s, labels[0]);
      NobodyGivesUpAt(setup, s, labels[0]);
      NobodyGivesUp(setup, Step(setup, s, labels[0]).value, labels[1..]);
    }
  }

  /**
   * The outcome of every failure-free run that cannot go on: both endpoints are done, and the client succeeded exactly
   * when it is authorized and the dial of its target succeeded, which is exactly when the server is tunnelling.
   */
  lemma Outcome(setup: Setup, labels: seq<Label>, s: Pair)
    requires Fits(setup) && Exec(setup, Start(setup), labels) == Some(s) && FaultFree(labels)
    requires forall l: Label | Ordinary(l) :: Step(setup, s, l).None?
    ensures s.client.Established? <==> Authorized(setup) && s.dialled == Some(Dial(setup.cfg.target, true))
    ensures s.client.Established? <==> s.server.Tunnelling?
    ensures Authorized(setup) <==> s.dialled.Some?
    ensures !s.client.Established? ==> s.client.Rejected? && s.server.Finished?
  {
    StartInv(setup);
    RunKeeps(setup, Start(setup), labels);
    NobodyGivesUp(setup, Start(setup), labels);
    if !(ClientOver(s) && ServerOver(s)) {
      var l := Progress(setup, labels, s);
    }
  }

  // Where the hypothesis `Fits` fails: the length bytes are truncated and the server reads something else.

  /** The server handles the request this client meant exactly when the name fits its length byte. */
  lemma TargetSurvivesIff(cfg: ClientConfig, users: Users, rest: seq<byte>)
    ensures RunServer(users, Io, AwaitRequest, ConnectMessage(cfg) + rest, []).phase
            == Handling(SocksRequest(Connect, cfg.target))
       <==> Encodable(cfg.target)
  {
    var head, b := [0x05, 0x01, 0x00], EncodeTarget(cfg.target) + rest;
    assert ConnectMessage(cfg) + rest == head + b;
    RequestIsDecoding(users, Io, head, b, []);
    if Encodable(cfg.target) {
      DecodeEncoding(cfg.target, rest);
    } else {
      OverlongNameIsNeverDecoded(cfg.target, rest);
    }
  }

  /** A name of 256 bytes `a` is read as the empty name with port 24929, and that is what would be dialled. */
  lemma OverlongNameDialsElsewhere(name: Text, port: u16)
    requires name == seq(256, i => 0x61)
    ensures RunServer(None, Io, AwaitRequest, ConnectMessage(ClientConfig(None, Domain(name, port))), []).phase
         == Handling(SocksRequest(Connect, Domain([], 24929)))
  {
    var head, b := [0x05, 0x01, 0x00], EncodeTarget(Domain(name, port));
    assert ConnectMessage(ClientConfig(None, Domain(name, port))) == head + b;
    assert b[2..2] == [] && b[2..4] == [0x61, 0x61];
    RequestIsDecoding(None, Io, head, b, []);
  }

  /** One more step at the end of a run. */
  lemma {:induction false} ExecAppend(setup: Setup, s: Pair, labels: seq<Label>, l: Label)
    requires Exec(setup, s, labels).Some? && Step(setup, Exec(setup, s, labels).value, l).Some?
    ensures Exec(setup, s, labels + [l]) == Step(setup, Exec(setup, s, labels).value, l)
    decreases |labels|
  {
    hide Step;
    if labels == [] {
      assert (labels + [l])[1..] == [];
    } else {
      assert (labels + [l])[1..] == labels[1..] + [l];
      ExecAppend(setup, Step(setup, s, labels[0]).value, labels[1..], l);
    }
  }

  /** A client without credentials that asks for this name, and a server without users. */
  function Overlong(name: Text, port: u16): Setup {
    Setup(ClientConfig(None, Domain(name, port)), None)
  }

  /** A run ends with one read of everything up to `rest` by the server. */
  lemma ServerTakes(setup: Setup, labels: seq<Label>, s: Pair, data: seq<byte>, rest: seq<byte>)
    requires Exec(setup, Start(setup), labels) == Some(s) && !s.serverDown && s.server.Waiting()
    requires s.up == Channel([], data + rest) && |data| == s.server.Need()
    ensures var r := OnRead(setup.users, s.server, data);
            Exec(setup, Start(setup), labels + [ServerReads])
            == Some(s.(server := r.0, up := Channel([], rest), down := if r.1 == [] then s.down else s.down.Send(r.1)))
  {
    hide OnRead, Exec;
    assert (data + rest)[..|data|] == data && (data + rest)[|data|..] == rest;
    assert s.down.wire + [] == s.down.wire;
    ExecAppend(setup, Start(setup), labels, ServerReads);
  }

  lemma ClientTakes(setup: Setup, labels: seq<Label>, s: Pair, data: seq<byte>, rest: seq<byte>)
    requires Exec(setup, Start(setup), labels) == Some(s) && !s.clientDown && s.client.Waiting()
    requires s.down == Channel([], data + rest) && |data| == s.client.Need()
    ensures var r := OnReply(setup.cfg, s.client, data);
            Exec(setup, Start(setup), labels + [ClientReads])
            == Some(s.(client := r.0, down := Channel([], rest), up := if r.1 == [] then s.up else s.up.Send(r.1)))
  {
    hide OnReply, Exec;
    assert (data + rest)[..|data|] == data && (data + rest)[|data|..] == rest;
    assert s.up.wire + [] == s.up.wire;
    ExecAppend(setup, Start(setup), labels, ClientReads);
  }

  /** Everything under way arrives. */
  lemma AllArrives(setup: Setup, labels: seq<Label>, s: Pair, up: bool)
    requires Exec(setup, Start(setup), labels) == Some(s) && (if up then s.up else s.down).wire != []
    requires (if up then s.up else s.down).arrived == []
    ensures var c := if up then s.up else s.down; var all := Channel([], c.wire);
            Exec(setup, Start(setup), labels + [if up then CarryUp(|c.wire|) else CarryDown(|c.wire|)])
            == Some(if up then s.(up := all) else s.(down := all))
  {
    hide Exec;
    var c := if up then s.up else s.down;
    assert c.wire[..|c.wire|] == c.wire && c.wire[|c.wire|..] == [] && [] + c.wire == c.wire;
    ExecAppend(setup, Start(setup), labels, if up then CarryUp(|c.wire|) else CarryDown(|c.wire|));
  }

  /** Negotiation is over and the whole request has arrived. */
  lemma OverlongRequested(name: Text, port: u16) returns (labels: seq<Label>, s: Pair)
    ensures var setup := Overlong(name, port);
            && Exec(setup, Start(setup), labels) == Some(s)
            && s == Pair(AwaitReply, AwaitRequest, Channel([], ConnectMessage(setup.cfg)), Channel([], []),
                         false, false, None, [], [])
  {
    hide ConnectMessage, ValidUtf8, Exec;
    var setup := Overlong(name, port);
    var m := ConnectMessage(setup.cfg);
    NoSteps(setup);
    labels, s := [], Start(setup);
    AllArrives(setup, labels, s, true);
    labels, s := labels + [CarryUp(3)], s.(up := Channel([], Greeting(setup.cfg)));
    assert Greeting(setup.cfg) == [0x05, 0x01] + [0x00];
    ServerTakes(setup, labels, s, [0x05, 0x01], [0x00]);
    labels, s := labels + [ServerReads], s.(server := AwaitMethods(1), up := Channel([], [0x00]));
    assert [0x00] == [0x00] + [];
    ServerTakes(setup, labels, s, [0x00], []);
    labels, s := labels + [ServerReads],
      s.(server := AwaitRequest, up := Channel([], []), down := s.down.Send([0x05, 0x00]));
    assert s.down == Channel([0x05, 0x00], []);
    AllArrives(setup, labels, s, false);
    labels, s := labels + [CarryDown(2)], s.(down := Channel([], [0x05, 0x00]));
    assert [0x05, 0x00] == [0x05, 0x00] + [];
    ClientTakes(setup, labels, s, [0x05, 0x00], []);
    RequestIsLong(setup.cfg);
    labels, s := labels + [ClientReads], s.(client := AwaitReply, down := Channel([], []), up := s.up.Send(m));
    assert s.up == Channel(m, []);
    AllArrives(setup, labels, s, true);
    labels, s := labels + [CarryUp(|m|)], s.(up := Channel([], m));
  }

  lemma NoSteps(setup: Setup)
    ensures Exec(setup, Start(setup), []) == Some(Start(setup))
  {
  }

  lemma RequestIsLong(cfg: ClientConfig)
    ensures |ConnectMessage(cfg)| >= 7
  {
  }

  /** What comes after the port that the server reads. */
  function Leftover(name: Text, port: u16): seq<byte>
    requires |name| >= 2
  {
    name[2..] + BigEndian(port)
  }

  lemma OverlongBytes(name: Text, port: u16)
    requires name == seq(256, i => 0x61)
    ensures ConnectMessage(Overlong(name, port).cfg)
         == [0x05, 0x01, 0x00, 0x03] + ([0x00] + ([] + ([0x61, 0x61] + Leftover(name, port))))
  {
    assert name == [0x61, 0x61] + name[2..];
  }

  /** The server reads the empty name, and two letters of the real one as the port. */
  lemma OverlongHandled(name: Text, port: u16) returns (labels: seq<Label>, s: Pair)
    requires name == seq(256, i => 0x61)
    ensures var setup := Overlong(name, port);
            && Exec(setup, Start(setup), labels) == Some(s)
            && s == Pair(AwaitReply, Handling(SocksRequest(Connect, Domain([], 24929))),
                         Channel([], Leftover(name, port)), Channel([], []), false, false, None, [], [])
  {
    hide ConnectMessage, Exec, Leftover;
    var setup, left := Overlong(name, port), Leftover(name, port);
    OverlongBytes(name, port);
    labels, s := OverlongRequested(name, port);
    ServerTakes(setup, labels, s, [0x05, 0x01, 0x00, 0x03], [0x00] + ([] + ([0x61, 0x61] + left)));
    labels, s := labels + [ServerReads],
      s.(server := AwaitDomainLen(Connect), up := Channel([], [0x00] + ([] + ([0x61, 0x61] + left))));
    ServerTakes(setup, labels, s, [0x00], [] + ([0x61, 0x61] + left));
    labels, s := labels + [ServerReads],
      s.(server := AwaitDomain(Connect, 0), up := Channel([], [] + ([0x61, 0x61] + left)));
    ServerTakes(setup, labels, s, [], [0x61, 0x61] + left);
    labels, s := labels + [ServerReads],
      s.(server := AwaitDomainPort(Connect, []), up := Channel([], [0x61, 0x61] + left));
    ServerTakes(setup, labels, s, [0x61, 0x61], left);
    labels, s := labels + [ServerReads],
      s.(server := Handling(SocksRequest(Connect, Domain([], 24929))), up := Channel([], left));
  }

  /**
   * Agreement fails without `Fits`: here the client reports success while the server tunnels to a target it was never
   * asked for, and the rest of the name is the first thing in the tunnel.
   */
  lemma OverlongNameBreaksAgreement(name: Text, port: u16) returns (labels: seq<Label>, s: Pair)
    requires name == seq(256, i => 0x61)
    ensures var setup := Overlong(name, port);
            && Exec(setup, Start(setup), labels) == Some(s)
            && s.client.Established? && s.dialled == Some(Dial(Domain([], 24929), true))
            && s.server == Tunnelling(Domain([], 24929)) && s.server.target != setup.cfg.target
            && s.upTunnel == [] && s.up.Pending() == name[2..] + BigEndian(port)
  {
    hide ConnectMessage, Exec;
    var setup := Overlong(name, port);
    labels, s := OverlongHandled(name, port);
    ExecAppend(setup, Start(setup), labels, Dials(true));
    var head: seq<byte>, bound: seq<byte> := [0x05, 0x00, 0x00, 0x01], [0x00, 0x00, 0x00, 0x00, 0x00, 0x00];
    assert Reply(0x00, 0) == head + (bound + []);
    labels, s := labels + [Dials(true)],
      s.(server := Tunnelling(Domain([], 24929)), down := s.down.Send(Reply(0x00, 0)),
         dialled := Some(Dial(Domain([], 24929), true)));
    assert s.down == Channel(head + (bound + []), []);
    AllArrives(setup, labels, s, false);
    labels, s := labels + [CarryDown(10)], s.(down := Channel([], head + (bound + [])));
    ClientTakes(setup, labels, s, head, bound + []);
    labels, s := labels + [ClientReads], s.(client := AwaitBound(6), down := Channel([], bound + []));
    assert |bound| == s.client.Need();
    ClientTakes(setup, labels, s, bound, []);
    labels, s := labels + [ClientReads], s.(client := Established, down := Channel([], []));
  }

  /** A truncated length makes the message end somewhere else. */
  lemma AuthMessageInjective(u: seq<byte>, p: seq<byte>, v: seq<byte>, q: seq<byte>)
    requires |v| <= 255 && |q| <= 255 && AuthMessage(u, p) == AuthMessage(v, q)
    ensures u == v && p == q
  {
    AuthMessageAt(v, q, []);
    var m := AuthMessage(u, p);
    assert m == AuthMessage(v, q) + [];
    assert m[1] == LowByte(|u|) && |m| == 3 + |u| + |p|;
    assert |u| % 256 == |v| && |u| == |v|;
    assert u == m[2..2 + |u|] && p == m[3 + |u|..];
  }

  /** A credential is accepted in its wire form exactly when it is listed and both its fields fit. */
  lemma CredentialSurvivesIff(list: seq<Credential>, c: Credential, rest: seq<byte>)
    ensures Reaches(Some(list), AwaitAuthVersion, AuthMessage(c.username, c.password) + rest, AwaitRequest, rest)
       <==> c in list && |c.username| <= 255 && |c.password| <= 255
  {
    hide Reaches, AuthParsed, AuthMessage, ValidUtf8;
    var b := AuthMessage(c.username, c.password) + rest;
    AuthReached(list, b, rest);
    AuthParsedIff(list, b, rest);
    if AuthParsed(list, b, rest) {
      var d: Credential :| d in list && |d.username| <= 255 && |d.password| <= 255
                        && b == AuthMessage(d.username, d.password) + rest;
      SameFront(AuthMessage(c.username, c.password), AuthMessage(d.username, d.password), rest);
      AuthMessageInjective(c.username, c.password, d.username, d.password);
    }
  }

  lemma SameFront(a: seq<byte>, b: seq<byte>, rest: seq<byte>)
    requires a + rest == b + rest
    ensures a == b
  {
    assert a == (a + rest)[..|a|] && b == (b + rest)[..|b|];
  }
}
