/** How a whole server session ends and what it has said, on any input, down to the bytes. */
module Socks5Outcome {
  import opened Bytes
  import opened Address
  import opened Credentials
  import opened Socks5Server
  import opened Socks5Session

  /** A request (RFC 1928, section 4), its reserved byte unchecked, and what follows it. */
  predicate Asks(mid: seq<byte>, command: byte, t: TargetAddr, rest: seq<byte>) {
    |mid| >= 3 && Encodable(t) && mid == [0x05, command, mid[2]] + EncodeTarget(t) + rest
  }

  /** The input is an admission, then such a request. */
  ghost predicate Placed(users: Users, input: seq<byte>, command: byte, t: TargetAddr, rest: seq<byte>) {
    exists mid :: Admitted(users, input, mid) && Asks(mid, command, t, rest)
  }

  function Welcome(users: Users): seq<byte> {
    if users.None? then [0x05, 0x00] else [0x05, 0x02, 0x01, 0x00]
  }

  lemma CommandCodes(command: SocksCommand)
    ensures CommandCode(command) == match command case Connect => 0x01 case Bind => 0x02 case UdpAssociate => 0x03
  {
  }

  lemma AsksIsPlaces(mid: seq<byte>, request: SocksRequest, rest: seq<byte>)
    ensures Asks(mid, CommandCode(request.command), request.target, rest) <==> Places(mid, request, rest)
  {
    if |mid| >= 3 {
      Associates([0x05, CommandCode(request.command), mid[2]], EncodeTarget(request.target), rest);
    }
  }

  lemma PlacedIsServed(users: Users, env: Environment, starved: ProxyError, input: seq<byte>, request: SocksRequest,
                       rest: seq<byte>)
    requires Placed(users, input, CommandCode(request.command), request.target, rest)
    ensures var (end, reply) := OnCommand(env, request);
            ServeAll(users, env, starved, input, []) == Session(end, rest, Welcome(users) + reply)
  {
    hide RunServer, Asks, Places, OnCommand, Admitted;
    var mid :| Admitted(users, input, mid) && Asks(mid, CommandCode(request.command), request.target, rest);
    AsksIsPlaces(mid, request, rest);
    PlacingSession(users, starved, input, mid, request, rest);
  }

  lemma HandledIsPlacedBy(users: Users, starved: ProxyError, input: seq<byte>)
    requires RunServer(users, starved, AwaitHeader, input, []).phase.Handling?
    ensures var s := RunServer(users, starved, AwaitHeader, input, []);
            Placed(users, input, CommandCode(s.phase.request.command), s.phase.request.target, s.rest)
  {
    hide RunServer, Asks, Places, Admitted;
    var s := RunServer(users, starved, AwaitHeader, input, []);
    var mid := HandledSession(users, starved, input);
    AsksIsPlaces(mid, s.phase.request, s.rest);
  }

  /** A handshake that handles nothing has failed. */
  lemma {:induction false} RunEnds(users: Users, starved: ProxyError, p: ServerPhase, input: seq<byte>, sent: seq<byte>)
    requires p.Waiting() || p.Handling? || p == Finished(Err(Socks5))
    ensures var q := RunServer(users, starved, p, input, sent).phase;
            q.Handling? || q == Finished(Err(Socks5)) || q == Finished(Err(starved))
    decreases p.Rank()
  {
    if p.Waiting() && |input| >= p.Need() {
      var data, later := input[..p.Need()], input[p.Need()..];
      OnReadDescends(users, p, data);
      ReadGoesOn(users, p, data);
      var (q, out) := OnRead(users, p, data);
      RunEnds(users, starved, q, later, Written(sent, out));
    }
  }

  lemma ReadGoesOn(users: Users, p: ServerPhase, data: seq<byte>)
    requires p.Waiting() && |data| == p.Need()
    ensures var q := OnRead(users, p, data).0; q.Waiting() || q.Handling? || q == Finished(Err(Socks5))
  {
  }

  /** CONNECT: tunnelled and answered 0 if the target can be dialled, answered 5 and ended otherwise. */
  lemma ConnectOutcome(users: Users, env: Environment, starved: ProxyError, input: seq<byte>, t: TargetAddr,
                       rest: seq<byte>)
    requires Placed(users, input, 0x01, t, rest)
    ensures ServeAll(users, env, starved, input, [])
         == if env.dial(t)
            then Session(Tunnelling(t), rest, Welcome(users) + [0x05, 0x00, 0x00, 0x01, 0, 0, 0, 0, 0, 0])
            else Session(Finished(Ok(())), rest, Welcome(users) + [0x05, 0x05, 0x00, 0x01, 0, 0, 0, 0, 0, 0])
  {
    hide Placed, ServeAll;
    CommandCodes(Connect);
    PlacedIsServed(users, env, starved, input, SocksRequest(Connect, t), rest);
  }

  /** BIND: always answered 7 and ended. */
  lemma BindOutcome(users: Users, env: Environment, starved: ProxyError, input: seq<byte>, t: TargetAddr,
                    rest: seq<byte>)
    requires Placed(users, input, 0x02, t, rest)
    ensures ServeAll(users, env, starved, input, [])
         == Session(Finished(Ok(())), rest, Welcome(users) + [0x05, 0x07, 0x00, 0x01, 0, 0, 0, 0, 0, 0])
  {
    hide Placed, ServeAll;
    CommandCodes(Bind);
    PlacedIsServed(users, env, starved, input, SocksRequest(Bind, t), rest);
  }

  /** UDP ASSOCIATE: answered with the port of the relay socket, high byte first, or not at all if there is none. */
  lemma UdpOutcome(users: Users, env: Environment, starved: ProxyError, input: seq<byte>, t: TargetAddr,
                   rest: seq<byte>)
    requires Placed(users, input, 0x03, t, rest)
    ensures ServeAll(users, env, starved, input, [])
         == match env.udpPort
            case None => Session(Finished(Err(Io)), rest, Welcome(users))
            case Some(port) =>
              Session(Relaying, rest, Welcome(users) + [0x05, 0x00, 0x00, 0x01, 0, 0, 0, 0,
                                                        (port / 0x100) as byte, (port % 0x100) as byte])
  {
    hide Placed, ServeAll;
    CommandCodes(UdpAssociate);
    PlacedIsServed(users, env, starved, input, SocksRequest(UdpAssociate, t), rest);
    assert Welcome(users) + [] == Welcome(users);
  }

  /** What a session comes to when no admitted request is on its input: an error, and neither tunnel nor relay. */
  lemma NothingPlaced(users: Users, env: Environment, starved: ProxyError, input: seq<byte>)
    requires forall command: byte, t, rest | 0x01 <= command <= 0x03 :: !Placed(users, input, command, t, rest)
    ensures var end := ServeAll(users, env, starved, input, []).phase;
            end == Finished(Err(Socks5)) || end == Finished(Err(starved))
  {
    hide RunServer, Placed;
    var h := RunServer(users, starved, AwaitHeader, input, []);
    RunEnds(users, starved, AwaitHeader, input, []);
    if h.phase.Handling? {
      HandledIsPlacedBy(users, starved, input);
      CommandCodes(h.phase.request.command);
    }
  }

  /** A session tunnels to a target exactly when an admitted CONNECT asks for it and it can be dialled. */
  lemma TunnelsIff(users: Users, env: Environment, starved: ProxyError, input: seq<byte>, t: TargetAddr,
                   rest: seq<byte>)
    ensures var s := ServeAll(users, env, starved, input, []);
            s.phase == Tunnelling(t) && s.rest == rest <==> Placed(users, input, 0x01, t, rest) && env.dial(t)
  {
    hide RunServer, Placed;
    var s := ServeAll(users, env, starved, input, []);
    if Placed(users, input, 0x01, t, rest) {
      ConnectOutcome(users, env, starved, input, t, rest);
    }
    if s.phase == Tunnelling(t) {
      var h := RunServer(users, starved, AwaitHeader, input, []);
      RunEnds(users, starved, AwaitHeader, input, []);
      HandledIsPlacedBy(users, starved, input);
      CommandCodes(h.phase.request.command);
    }
  }

  /** A session becomes a relay's control channel exactly when an admitted UDP ASSOCIATE is answered with a port. */
  lemma RelaysIff(users: Users, env: Environment, starved: ProxyError, input: seq<byte>, rest: seq<byte>)
    ensures var s := ServeAll(users, env, starved, input, []);
            s.phase == Relaying && s.rest == rest
            <==> (exists t :: Placed(users, input, 0x03, t, rest)) && env.udpPort.Some?
  {
    hide RunServer, Placed;
    var s := ServeAll(users, env, starved, input, []);
    forall t | Placed(users, input, 0x03, t, rest) && env.udpPort.Some? ensures s.phase == Relaying && s.rest == rest {
      UdpOutcome(users, env, starved, input, t, rest);
    }
    if s.phase == Relaying {
      var h := RunServer(users, starved, AwaitHeader, input, []);
      RunEnds(users, starved, AwaitHeader, input, []);
      HandledIsPlacedBy(users, starved, input);
      CommandCodes(h.phase.request.command);
    }
  }

  /** A client that does not offer the method the configuration calls for is told so, and that is all. */
  lemma MethodRefused(users: Users, env: Environment, starved: ProxyError, methods: seq<byte>, rest: seq<byte>)
    requires |methods| <= 255 && (if users.None? then 0x00 else 0x02) !in methods
    ensures ServeAll(users, env, starved, [0x05, |methods| as byte] + methods + rest, [])
         == Session(Finished(Err(Socks5)), rest, [0x05, 0xFF])
  {
    hide ValidUtf8;
    Associates([0x05, |methods| as byte], methods, rest);
    ReadStep(users, starved, AwaitHeader, [0x05, |methods| as byte], methods + rest, []);
    ReadStep(users, starved, AwaitMethods(|methods|), methods, rest, []);
    assert [] + [0x05, 0xFF] == [0x05, 0xFF];
  }

  /** A client with a pair that is not listed is told so, and that is all. */
  lemma CredentialRefused(list: seq<Credential>, env: Environment, starved: ProxyError, methods: seq<byte>,
                          username: Text, password: Text, rest: seq<byte>)
    requires |methods| <= 255 && 0x02 in methods && |username| <= 255 && |password| <= 255
    requires Credential(username, password) !in list
    ensures ServeAll(Some(list), env, starved,
                     [0x05, |methods| as byte] + methods + AuthMessage(username, password) + rest, [])
         == Session(Finished(Err(Socks5)), rest, [0x05, 0x02, 0x01, 0x01])
  {
    hide ValidUtf8, RunServer;
    var users, message := Some(list), AuthMessage(username, password) + rest;
    var head := [0x05, |methods| as byte];
    assert head + methods + AuthMessage(username, password) + rest == head + (methods + message);
    ReadStep(users, starved, AwaitHeader, head, methods + message, []);
    ReadStep(users, starved, AwaitMethods(|methods|), methods, message, []);
    assert [] + [0x05, 0x02] == [0x05, 0x02];
    PairRefused(list, starved, username, password, rest);
  }

  lemma PairRefused(list: seq<Credential>, starved: ProxyError, username: Text, password: Text, rest: seq<byte>)
    requires |username| <= 255 && |password| <= 255 && Credential(username, password) !in list
    ensures RunServer(Some(list), starved, AwaitAuthVersion, AuthMessage(username, password) + rest, [0x05, 0x02])
         == Session(Finished(Err(Socks5)), rest, [0x05, 0x02, 0x01, 0x01])
  {
    hide ValidUtf8, RunServer, OnRead;
    var users, sent: seq<byte> := Some(list), [0x05, 0x02];
    var n := |username|;
    var later := [|password| as byte] + password + rest;
    assert AuthMessage(username, password) + rest == [0x01] + ([n as byte] + (username + later));
    ReadStep(users, starved, AwaitAuthVersion, [0x01], [n as byte] + (username + later), sent);
    ReadStep(users, starved, AwaitUserLen, [n as byte], username + later, sent);
    ReadStep(users, starved, AwaitUser(n), username, later, sent);
    UserReads(users, username);
    PasswordRefused(list, starved, username, password, rest);
  }

  lemma UserReads(users: Users, username: seq<byte>)
    requires |username| <= 255
    ensures OnRead(users, AwaitAuthVersion, [0x01]) == (AwaitUserLen, [])
    ensures OnRead(users, AwaitUserLen, [|username| as byte]) == (AwaitUser(|username|), [])
    ensures OnRead(users, AwaitUser(|username|), username) == (AwaitPassLen(username), [])
  {
  }

  lemma PasswordRefused(list: seq<Credential>, starved: ProxyError, username: Text, password: Text, rest: seq<byte>)
    requires |password| <= 255 && Credential(username, password) !in list
    ensures RunServer(Some(list), starved, AwaitPassLen(username), [|password| as byte] + password + rest, [0x05, 0x02])
         == Session(Finished(Err(Socks5)), rest, [0x05, 0x02, 0x01, 0x01])
  {
    hide ValidUtf8;
    var users, sent: seq<byte> := Some(list), [0x05, 0x02];
    Associates([|password| as byte], password, rest);
    ReadStep(users, starved, AwaitPassLen(username), [|password| as byte], password + rest, sent);
    ReadStep(users, starved, AwaitPass(username, |password|), password, rest, sent);
    assert sent + [0x01, 0x01] == [0x05, 0x02, 0x01, 0x01];
    forall u | u in list ensures !(u.username == username && u.password == password) {
      assert u == Credential(u.username, u.password);
    }
  }

  // What a session says before any command, for every input.

  /** The verdict on the authentication message at the head of `b`: none until it is complete and readable. */
  function Verdict(list: seq<Credential>, b: seq<byte>): seq<byte> {
    if |b| < 2 || b[0] != 0x01 || |b| < 3 + b[1] as int then []
    else
      var n := b[1] as int;
      var m := b[2 + n] as int;
      if |b| < 3 + n + m then []
      else
        var username, password := b[2..2 + n], b[3 + n..3 + n + m];
        if !ValidUtf8(username) || !ValidUtf8(password) then []
        else if Credential(username, password) in list then [0x01, 0x00] else [0x01, 0x01]
  }

  /** The answer to the method message at the head of `b`, once it is complete, and then the verdict. */
  function Said(users: Users, b: seq<byte>): seq<byte> {
    if |b| < 2 || b[0] != 0x05 || |b| < 2 + b[1] as int then []
    else
      var methods, later := b[2..2 + b[1] as int], b[2 + b[1] as int..];
      match users
      case None => if 0x00 in methods then [0x05, 0x00] else [0x05, 0xFF]
      case Some(list) => if 0x02 in methods then [0x05, 0x02] + Verdict(list, later) else [0x05, 0xFF]
  }

  lemma SaysNoMore(users: Users, starved: ProxyError, p: ServerPhase, b: seq<byte>, sent: seq<byte>)
    requires p.AwaitRequest? || p.Finished?
    ensures RunServer(users, starved, p, b, sent).sent == sent
  {
    hide RunServer;
    var out := OutputShape(users, starved, p, b, sent);
    assert sent + [] == sent;
  }

  lemma PairIs(list: seq<Credential>, username: Text, password: Text)
    ensures VerifyCredentials(username, password, list) <==> Credential(username, password) in list
  {
    forall u | u in list && u.username == username && u.password == password
      ensures u == Credential(username, password)
    {
    }
  }

  lemma VerdictAfterUser(list: seq<Credential>, starved: ProxyError, b: seq<byte>, sent: seq<byte>)
    requires |b| >= 2 && b[0] == 0x01 && |b| >= 2 + b[1] as int
    ensures var n := b[1] as int;
            RunServer(Some(list), starved, AwaitPassLen(b[2..2 + n]), b[2 + n..], sent).sent == sent + Verdict(list, b)
  {
    hide ValidUtf8, RunServer, VerifyCredentials;
    var users, n := Some(list), b[1] as nat;
    assert sent + [] == sent;
    RunAt(users, starved, AwaitPassLen(b[2..2 + n]), b, 2 + n, sent);
    if |b| >= 3 + n {
      var m := b[2 + n] as nat;
      assert b[2 + n..3 + n] == [b[2 + n]];
      RunAt(users, starved, AwaitPass(b[2..2 + n], m), b, 3 + n, sent);
      if |b| >= 3 + n + m {
        VerdictGiven(list, starved, b[2..2 + n], b[3 + n..3 + n + m], b[3 + n + m..], sent);
      }
    }
  }

  lemma VerdictGiven(list: seq<Credential>, starved: ProxyError, u: seq<byte>, p: seq<byte>, rest: seq<byte>,
                     sent: seq<byte>)
    ensures var r := OnRead(Some(list), AwaitPass(u, |p|), p);
            RunServer(Some(list), starved, r.0, rest, Written(sent, r.1)).sent
            == sent + if !ValidUtf8(u) || !ValidUtf8(p) then []
                      else if Credential(u, p) in list then [0x01, 0x00] else [0x01, 0x01]
  {
    hide ValidUtf8, RunServer, VerifyCredentials;
    var r := OnRead(Some(list), AwaitPass(u, |p|), p);
    assert sent + [] == sent;
    if ValidUtf8(u) && ValidUtf8(p) {
      PairIs(list, u, p);
    }
    SaysNoMore(Some(list), starved, r.0, rest, Written(sent, r.1));
  }

  lemma VerdictIs(list: seq<Credential>, starved: ProxyError, b: seq<byte>, sent: seq<byte>)
    ensures RunServer(Some(list), starved, AwaitAuthVersion, b, sent).sent == sent + Verdict(list, b)
  {
    hide ValidUtf8, RunServer;
    var users := Some(list);
    assert b[0..] == b && sent + [] == sent;
    RunAt(users, starved, AwaitAuthVersion, b, 0, sent);
    if |b| >= 1 {
      assert b[0..1] == [b[0]];
      if b[0] != 0x01 {
        SaysNoMore(users, starved, Finished(Err(Socks5)), b[1..], sent);
      } else {
        RunAt(users, starved, AwaitUserLen, b, 1, sent);
        if |b| >= 2 {
          assert b[1..2] == [b[1]];
          RunAt(users, starved, AwaitUser(b[1] as nat), b, 2, sent);
          if |b| >= 2 + b[1] as int {
            VerdictAfterUser(list, starved, b, sent);
          }
        }
      }
    }
  }

  /**
   * For every input, exactly what has been said before a command: the answer to a complete method message, and for a
   * listener with users the verdict on a complete, readable pair.
   */
  lemma SaidIs(users: Users, starved: ProxyError, b: seq<byte>)
    ensures RunServer(users, starved, AwaitHeader, b, []).sent == Said(users, b)
  {
    hide ValidUtf8, RunServer, Verdict;
    assert b[0..] == b;
    RunAt(users, starved, AwaitHeader, b, 0, []);
    if |b| >= 2 {
      assert b[0..2] == [b[0], b[1]];
      if b[0] != 0x05 {
        SaysNoMore(users, starved, Finished(Err(Socks5)), b[2..], []);
      } else {
        var n := b[1] as nat;
        RunAt(users, starved, AwaitMethods(n), b, 2, []);
        if |b| >= 2 + n {
          MethodAnswered(users, starved, b[2..2 + n], b[2 + n..]);
        }
      }
    }
  }

  lemma MethodAnswered(users: Users, starved: ProxyError, methods: seq<byte>, later: seq<byte>)
    ensures var r := OnRead(users, AwaitMethods(|methods|), methods);
            RunServer(users, starved, r.0, later, Written([], r.1)).sent
            == match users
               case None => if 0x00 in methods then [0x05, 0x00] else [0x05, 0xFF]
               case Some(list) => if 0x02 in methods then [0x05, 0x02] + Verdict(list, later) else [0x05, 0xFF]
  {
    hide ValidUtf8, RunServer, Verdict;
    var r := OnRead(users, AwaitMethods(|methods|), methods);
    assert [] + r.1 == r.1;
    if r.0.AwaitAuthVersion? {
      VerdictIs(users.value, starved, later, r.1);
    } else {
      SaysNoMore(users, starved, r.0, later, r.1);
    }
  }
}
