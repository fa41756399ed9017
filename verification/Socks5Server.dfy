/** The server half of SOCKS5 (RFC 1928, RFC 1929): the session as it reads and writes its stream. */
module Socks5Server {
  import opened Bytes
  import opened Address
  import opened Credentials
  import opened Transport

  datatype SocksCommand = Connect | Bind | UdpAssociate

  datatype SocksRequest = SocksRequest(command: SocksCommand, target: TargetAddr)

  /** Where a session stands: at one of its reads, about to handle a command, or past the handshake. */
  datatype ServerPhase =
    | AwaitHeader
    | AwaitMethods(n: nat)
    | AwaitAuthVersion
    | AwaitUserLen
    | AwaitUser(n: nat)
    | AwaitPassLen(user: seq<byte>)
    | AwaitPass(user: seq<byte>, n: nat)
    | AwaitRequest
    | AwaitIpv4(command: SocksCommand)
    | AwaitIpv4Port(command: SocksCommand, v4: Octets4)
    | AwaitDomainLen(command: SocksCommand)
    | AwaitDomain(command: SocksCommand, n: nat)
    | AwaitDomainPort(command: SocksCommand, name: seq<byte>)
    | AwaitIpv6(command: SocksCommand)
    | AwaitIpv6Port(command: SocksCommand, v6: Octets16)
    | Handling(request: SocksRequest)
    | Tunnelling(target: TargetAddr)
    | Relaying
    | Finished(result: Result<()>)
  {
    predicate Waiting() {
      !Handling? && !Tunnelling? && !Relaying? && !Finished?
    }

    /** The size of the read the session is at. */
    function Need(): nat
      requires Waiting()
    {
      match this
      case AwaitHeader => 2
      case AwaitMethods(n) => n
      case AwaitAuthVersion => 1
      case AwaitUserLen => 1
      case AwaitUser(n) => n
      case AwaitPassLen(_) => 1
      case AwaitPass(_, n) => n
      case AwaitRequest => 4
      case AwaitIpv4(_) => 4
      case AwaitIpv4Port(_, _) => 2
      case AwaitDomainLen(_) => 1
      case AwaitDomain(_, n) => n
      case AwaitDomainPort(_, _) => 2
      case AwaitIpv6(_) => 16
      case AwaitIpv6Port(_, _) => 2
    }

    /** Reads still to come, at most. */
    function Rank(): nat {
      match this
      case AwaitHeader => 12
      case AwaitMethods(_) => 11
      case AwaitAuthVersion => 10
      case AwaitUserLen => 9
      case AwaitUser(_) => 8
      case AwaitPassLen(_) => 7
      case AwaitPass(_, _) => 6
      case AwaitRequest => 5
      case AwaitDomainLen(_) => 4
      case AwaitIpv4(_) | AwaitDomain(_, _) | AwaitIpv6(_) => 3
      case AwaitIpv4Port(_, _) | AwaitDomainPort(_, _) | AwaitIpv6Port(_, _) => 2
      case Handling(_) => 1
      case Tunnelling(_) | Relaying | Finished(_) => 0
    }
  }

  function SelectMethod(users: Users, methods: seq<byte>): byte {
    if users.Some? then
      if 0x02 in methods then 0x02 else 0xFF
    else
      if 0x00 in methods then 0x00 else 0xFF
  }

  function AfterMethod(users: Users, selected: byte): ServerPhase {
    if selected == 0xFF then Finished(Err(Socks5))
    else if selected == 0x02 then
      if users.Some? then AwaitAuthVersion else Finished(Err(Socks5))
    else AwaitRequest
  }

  function CommandOf(b: byte): Option<SocksCommand> {
    if b == 0x01 then Some(Connect)
    else if b == 0x02 then Some(Bind)
    else if b == 0x03 then Some(UdpAssociate)
    else None
  }

  /** One completed read: the next phase, and what is written before the next read. */
  function OnRead(users: Users, p: ServerPhase, data: seq<byte>): (ServerPhase, seq<byte>)
    requires p.Waiting() && |data| == p.Need()
  {
    var failed := (Finished(Err(Socks5)), []);
    match p
    case AwaitHeader =>
      if data[0] != 0x05 then failed else (AwaitMethods(data[1] as nat), [])
    case AwaitMethods(_) =>
      var m := SelectMethod(users, data); (AfterMethod(users, m), [0x05, m])
    case AwaitAuthVersion =>
      if data[0] != 0x01 then failed else (AwaitUserLen, [])
    case AwaitUserLen => (AwaitUser(data[0] as nat), [])
    case AwaitUser(_) => (AwaitPassLen(data), [])
    case AwaitPassLen(user) => (AwaitPass(user, data[0] as nat), [])
    case AwaitPass(user, _) =>
      if !ValidUtf8(user) || !ValidUtf8(data) then failed
      else if users.Some? && VerifyCredentials(user, data, users.value) then (AwaitRequest, [0x01, 0x00])
      else (Finished(Err(Socks5)), [0x01, 0x01])
    case AwaitRequest =>
      if data[0] != 0x05 || CommandOf(data[1]) == None then failed
      else
        var command := CommandOf(data[1]).value;
        if data[3] == 0x01 then (AwaitIpv4(command), [])
        else if data[3] == 0x03 then (AwaitDomainLen(command), [])
        else if data[3] == 0x04 then (AwaitIpv6(command), [])
        else failed
    case AwaitIpv4(command) => (AwaitIpv4Port(command, data), [])
    case AwaitIpv4Port(command, a) => (Handling(SocksRequest(command, Ipv4(a, FromBigEndian(data)))), [])
    case AwaitDomainLen(command) => (AwaitDomain(command, data[0] as nat), [])
    case AwaitDomain(command, _) => (AwaitDomainPort(command, data), [])
    case AwaitDomainPort(command, name) =>
      if !ValidUtf8(name) then failed
      else (Handling(SocksRequest(command, Domain(name, FromBigEndian(data)))), [])
    case AwaitIpv6(command) => (AwaitIpv6Port(command, data), [])
    case AwaitIpv6Port(command, a) => (Handling(SocksRequest(command, Ipv6(a, FromBigEndian(data)))), [])
  }

  lemma OnReadDescends(users: Users, p: ServerPhase, data: seq<byte>)
    requires p.Waiting() && |data| == p.Need()
    ensures OnRead(users, p, data).0.Rank() < p.Rank()
  {
  }

  /** What is left of the input, and what has been written, when a session stops reading. */
  datatype Session = Session(phase: ServerPhase, rest: seq<byte>, sent: seq<byte>)

  /**
   * The session from phase `p` on the whole input, with `sent` already written; `starved` is the error of a read that
   * cannot complete.
   */
  function RunServer(users: Users, starved: ProxyError, p: ServerPhase, input: seq<byte>, sent: seq<byte>): Session
    decreases p.Rank()
  {
    if !p.Waiting() then Session(p, input, sent)
    else
      var n := p.Need();
      if |input| < n then Session(Finished(Err(starved)), [], sent)
      else
        OnReadDescends(users, p, input[..n]);
        var (next, out) := OnRead(users, p, input[..n]);
        RunServer(users, starved, next, input[n..], Written(sent, out))
  }

  function Written(sent: seq<byte>, out: seq<byte>): seq<byte> {
    if out == [] then sent else sent + out
  }

  /** The environment of command handling: dial outcomes, and the port a UDP bind gets, if it succeeds. */
  datatype Environment = Environment(dial: TargetAddr -> bool, udpPort: Option<u16>)

  function Reply(code: byte, port: u16): (r: seq<byte>)
    ensures |r| == 10
  {
    [0x05, code, 0x00, 0x01, 0x00, 0x00, 0x00, 0x00] + BigEndian(port)
  }

  function OnDial(target: TargetAddr, connected: bool): (ServerPhase, seq<byte>) {
    if connected then (Tunnelling(target), Reply(0x00, 0)) else (Finished(Ok(())), Reply(0x05, 0))
  }

  function OnCommand(env: Environment, request: SocksRequest): (ServerPhase, seq<byte>) {
    match request.command
    case Connect => OnDial(request.target, env.dial(request.target))
    case UdpAssociate =>
      if env.udpPort.Some? then (Relaying, Reply(0x00, env.udpPort.value)) else (Finished(Err(Io)), [])
    case Bind => (Finished(Ok(())), Reply(0x07, 0))
  }

  /** The whole session up to the point where the tunnel or the relay takes over the stream. */
  function ServeAll(users: Users, env: Environment, starved: ProxyError, input: seq<byte>, sent: seq<byte>): Session {
    var s := RunServer(users, starved, AwaitHeader, input, sent);
    if s.phase.Handling? then
      var (end, reply) := OnCommand(env, s.phase.request);
      Session(end, s.rest, s.sent + reply)
    else s
  }

  // The program: each method reads and writes the stream step by step. A contract says which phase the session has come
  // to: what it does from there is what it did from the start.

  /** One exact read under the handshake timeout, by a session at phase `p`. */
  method ReadAt(stream: Stream, n: nat, ghost users: Users, ghost p: ServerPhase)
    returns (r: Result<seq<byte>>)
    requires p.Waiting() && p.Need() == n
    modifies stream`inbound
    ensures r.Ok? ==> |r.value| == n
    ensures RunServer(users, stream.Starved(), p, old(stream.Unread()), stream.sent)
         == if r.Ok? then RunServer(users, stream.Starved(), OnRead(users, p, r.value).0, stream.Unread(),
                                    Written(stream.sent, OnRead(users, p, r.value).1))
            else Session(Finished(Err(r.error)), stream.Unread(), stream.sent)
  {
    r := stream.ReadExact(n);
  }

  method NegotiateMethod(stream: Stream, users: Users) returns (r: Result<byte>)
    modifies stream
    ensures r.Ok? ==> r.value == 0x00 || (r.value == 0x02 && users.Some?)
    ensures RunServer(users, stream.Starved(), AwaitHeader, old(stream.Unread()), old(stream.sent))
         == RunServer(users, stream.Starved(), if r.Ok? then AfterMethod(users, r.value) else Finished(Err(r.error)),
                      stream.Unread(), stream.sent)
  {
    var header := ReadAt(stream, 2, users, AwaitHeader);
    if header.Err? {
      return Err(header.error);
    }
    if header.value[0] != 0x05 {
      return Err(Socks5);
    }
    var methods := ReadAt(stream, header.value[1] as nat, users, AwaitMethods(header.value[1] as nat));
    if methods.Err? {
      return Err(methods.error);
    }
    var selected: byte;
    if users.Some? {
      if 0x02 in methods.value {
        selected := 0x02;
      } else {
        selected := 0xFF;
      }
    } else {
      if 0x00 in methods.value {
        selected := 0x00;
      } else {
        selected := 0xFF;
      }
    }
    stream.WriteAll([0x05, selected]);
    if selected == 0xFF {
      return Err(Socks5);
    }
    return Ok(selected);
  }

  /** The part of the authentication after the user name. */
  method CheckPassword(stream: Stream, users: seq<Credential>, username: seq<byte>) returns (r: Result<()>)
    modifies stream
    ensures RunServer(Some(users), stream.Starved(), AwaitPassLen(username), old(stream.Unread()), old(stream.sent))
         == RunServer(Some(users), stream.Starved(), if r.Ok? then AwaitRequest else Finished(r),
                      stream.Unread(), stream.sent)
  {
    hide ValidUtf8, VerifyCredentials;
    var plen := ReadAt(stream, 1, Some(users), AwaitPassLen(username));
    if plen.Err? {
      return Err(plen.error);
    }
    var password := ReadAt(stream, plen.value[0] as nat, Some(users), AwaitPass(username, plen.value[0] as nat));
    if password.Err? {
      return Err(password.error);
    }
    if !ValidUtf8(username) {
      return Err(Socks5);
    }
    if !ValidUtf8(password.value) {
      return Err(Socks5);
    }
    var authenticated := VerifyCredentials(username, password.value, users);
    var status: byte := if authenticated then 0x00 else 0x01;
    stream.WriteAll([0x01, status]);
    if !authenticated {
      return Err(Socks5);
    }
    return Ok(());
  }

  method AuthenticateUser(stream: Stream, users: seq<Credential>) returns (r: Result<()>)
    modifies stream
    ensures RunServer(Some(users), stream.Starved(), AwaitAuthVersion, old(stream.Unread()), old(stream.sent))
         == RunServer(Some(users), stream.Starved(), if r.Ok? then AwaitRequest else Finished(r),
                      stream.Unread(), stream.sent)
  {
    hide ValidUtf8, VerifyCredentials;
    var ver := ReadAt(stream, 1, Some(users), AwaitAuthVersion);
    if ver.Err? {
      return Err(ver.error);
    }
    if ver.value[0] != 0x01 {
      return Err(Socks5);
    }
    var ulen := ReadAt(stream, 1, Some(users), AwaitUserLen);
    if ulen.Err? {
      return Err(ulen.error);
    }
    var username := ReadAt(stream, ulen.value[0] as nat, Some(users), AwaitUser(ulen.value[0] as nat));
    if username.Err? {
      return Err(username.error);
    }
    r := CheckPassword(stream, users, username.value);
  }

  // The three arms of the address match in the request.

  method ReadIpv4(stream: Stream, ghost users: Users, ghost command: SocksCommand)
    returns (r: Result<TargetAddr>)
    modifies stream`inbound
    ensures RunServer(users, stream.Starved(), AwaitIpv4(command), old(stream.Unread()), stream.sent)
         == Session(if r.Ok? then Handling(SocksRequest(command, r.value)) else Finished(Err(r.error)),
                    stream.Unread(), stream.sent)
  {
    var addr := ReadAt(stream, 4, users, AwaitIpv4(command));
    if addr.Err? {
      return Err(addr.error);
    }
    var port := ReadAt(stream, 2, users, AwaitIpv4Port(command, addr.value));
    if port.Err? {
      return Err(port.error);
    }
    return Ok(Ipv4(addr.value, FromBigEndian(port.value)));
  }

  method ReadDomain(stream: Stream, ghost users: Users, ghost command: SocksCommand)
    returns (r: Result<TargetAddr>)
    modifies stream`inbound
    ensures RunServer(users, stream.Starved(), AwaitDomainLen(command), old(stream.Unread()), stream.sent)
         == Session(if r.Ok? then Handling(SocksRequest(command, r.value)) else Finished(Err(r.error)),
                    stream.Unread(), stream.sent)
  {
    hide ValidUtf8;
    var len := ReadAt(stream, 1, users, AwaitDomainLen(command));
    if len.Err? {
      return Err(len.error);
    }
    var domain := ReadAt(stream, len.value[0] as nat, users, AwaitDomain(command, len.value[0] as nat));
    if domain.Err? {
      return Err(domain.error);
    }
    var port := ReadAt(stream, 2, users, AwaitDomainPort(command, domain.value));
    if port.Err? {
      return Err(port.error);
    }
    if !ValidUtf8(domain.value) {
      return Err(Socks5);
    }
    return Ok(Domain(domain.value, FromBigEndian(port.value)));
  }

  method ReadIpv6(stream: Stream, ghost users: Users, ghost command: SocksCommand)
    returns (r: Result<TargetAddr>)
    modifies stream`inbound
    ensures RunServer(users, stream.Starved(), AwaitIpv6(command), old(stream.Unread()), stream.sent)
         == Session(if r.Ok? then Handling(SocksRequest(command, r.value)) else Finished(Err(r.error)),
                    stream.Unread(), stream.sent)
  {
    var addr := ReadAt(stream, 16, users, AwaitIpv6(command));
    if addr.Err? {
      return Err(addr.error);
    }
    var port := ReadAt(stream, 2, users, AwaitIpv6Port(command, addr.value));
    if port.Err? {
      return Err(port.error);
    }
    return Ok(Ipv6(addr.value, FromBigEndian(port.value)));
  }

  method ReadRequest(stream: Stream, ghost users: Users) returns (r: Result<SocksRequest>)
    modifies stream`inbound
    ensures RunServer(users, stream.Starved(), AwaitRequest, old(stream.Unread()), stream.sent)
         == Session(if r.Ok? then Handling(r.value) else Finished(Err(r.error)), stream.Unread(), stream.sent)
  {
    var header := ReadAt(stream, 4, users, AwaitRequest);
    if header.Err? {
      return Err(header.error);
    }
    if header.value[0] != 0x05 {
      return Err(Socks5);
    }
    var command;
    match header.value[1] {
      case 0x01 => command := Connect;
      case 0x02 => command := Bind;
      case 0x03 => command := UdpAssociate;
      case _ => return Err(Socks5);
    }
    var target;
    match header.value[3] {
      case 0x01 => target := ReadIpv4(stream, users, command);
      case 0x03 => target := ReadDomain(stream, users, command);
      case 0x04 => target := ReadIpv6(stream, users, command);
      case _ => return Err(Socks5);
    }
    if target.Err? {
      return Err(target.error);
    }
    return Ok(SocksRequest(command, target.value));
  }

  method SendReply(stream: Stream, code: byte)
    modifies stream`sent
    ensures stream.sent == old(stream.sent) + Reply(code, 0)
    ensures stream.sent == old(stream.sent) + [0x05, code, 0x00, 0x01, 0x00, 0x00, 0x00, 0x00, 0x00, 0x00]
  {
    stream.WriteAll([0x05, code, 0x00, 0x01, 0x00, 0x00, 0x00, 0x00, 0x00, 0x00]);
  }

  /** Dials the target; on success the stream is handed to the tunnel. */
  method HandleConnect(stream: Stream, request: SocksRequest, env: Environment) returns (end: ServerPhase)
    requires request.command == Connect
    modifies stream`sent
    ensures end == OnCommand(env, request).0 && stream.sent == old(stream.sent) + OnCommand(env, request).1
    ensures end == if env.dial(request.target) then Tunnelling(request.target) else Finished(Ok(()))
    ensures stream.sent == old(stream.sent)
         + [0x05, if env.dial(request.target) then 0x00 else 0x05, 0x00, 0x01, 0x00, 0x00, 0x00, 0x00, 0x00, 0x00]
  {
    if env.dial(request.target) {
      SendReply(stream, 0x00);
      return Tunnelling(request.target);
    } else {
      SendReply(stream, 0x05);
      return Finished(Ok(()));
    }
  }

  /** Binds the relay socket and announces its port; on success the stream becomes the relay's control channel. */
  method HandleUdpAssociate(stream: Stream, request: SocksRequest, env: Environment) returns (end: ServerPhase)
    requires request.command == UdpAssociate
    modifies stream`sent
    ensures end == OnCommand(env, request).0 && stream.sent == old(stream.sent) + OnCommand(env, request).1
    ensures end == if env.udpPort.Some? then Relaying else Finished(Err(Io))
    ensures stream.sent == old(stream.sent)
         + match env.udpPort
           case None => []
           case Some(port) => [0x05, 0x00, 0x00, 0x01, 0x00, 0x00, 0x00, 0x00,
                               (port / 0x100) as byte, (port % 0x100) as byte]
  {
    if env.udpPort.None? {
      return Finished(Err(Io));
    }
    var reply: seq<byte> := [0x05];
    reply := reply + [0x00];
    reply := reply + [0x00];
    reply := reply + [0x01];
    reply := reply + [0x00, 0x00, 0x00, 0x00];
    reply := reply + BigEndian(env.udpPort.value);
    stream.WriteAll(reply);
    assert reply == Reply(0x00, env.udpPort.value);
    return Relaying;
  }

  method HandleCommand(stream: Stream, request: SocksRequest, env: Environment) returns (end: ServerPhase)
    modifies stream`sent
    ensures end == OnCommand(env, request).0 && stream.sent == old(stream.sent) + OnCommand(env, request).1
    ensures match request.command
            case Connect => end == if env.dial(request.target) then Tunnelling(request.target) else Finished(Ok(()))
            case UdpAssociate => end == if env.udpPort.Some? then Relaying else Finished(Err(Io))
            case Bind =>
              && end == Finished(Ok(()))
              && stream.sent == old(stream.sent) + [0x05, 0x07, 0x00, 0x01, 0x00, 0x00, 0x00, 0x00, 0x00, 0x00]
  {
    match request.command {
      case Connect => end := HandleConnect(stream, request, env);
      case UdpAssociate => end := HandleUdpAssociate(stream, request, env);
      case Bind =>
        SendReply(stream, 0x07);
        end := Finished(Ok(()));
    }
  }

  /** Phases 1 and 1.5. The branch for method 2 without users is never taken: `NegotiateMethod` rules it out. */
  method Admit(stream: Stream, users: Users) returns (r: Result<()>)
    modifies stream
    ensures RunServer(users, stream.Starved(), AwaitHeader, old(stream.Unread()), old(stream.sent))
         == RunServer(users, stream.Starved(), if r.Ok? then AwaitRequest else Finished(r),
                      stream.Unread(), stream.sent)
  {
    var selected := NegotiateMethod(stream, users);
    if selected.Err? {
      return Err(selected.error);
    }
    if selected.value == 0x02 {
      if users.Some? {
        r := AuthenticateUser(stream, users.value);
        return;
      } else {
        return Err(Socks5);
      }
    }
    return Ok(());
  }

  /** The session. Its outcome, its output and the bytes it leaves unread depend only on the concatenated input. */
  method HandleSocks5(stream: Stream, users: Users, env: Environment) returns (end: ServerPhase)
    modifies stream
    ensures Session(end, stream.Unread(), stream.sent)
         == ServeAll(users, env, stream.Starved(), old(stream.Unread()), old(stream.sent))
  {
    var admitted := Admit(stream, users);
    if admitted.Err? {
      return Finished(admitted);
    }
    var request := ReadRequest(stream, users);
    if request.Err? {
      return Finished(Err(request.error));
    }
    end := HandleCommand(stream, request.value, env);
  }
}
