/** What a server session does, stated on whole byte strings: which inputs it admits, what it leaves, what it says. */
module Socks5Session {
  import opened Bytes
  import opened Address
  import opened Credentials
  import opened Socks5Server

  // The three client messages.

  function MethodMessage(methods: seq<byte>): seq<byte> {
    [0x05, LowByte(|methods|)] + methods
  }

  function AuthMessage(username: seq<byte>, password: seq<byte>): seq<byte> {
    [0x01, LowByte(|username|)] + username + [LowByte(|password|)] + password
  }

  function CommandCode(c: SocksCommand): (b: byte)
    ensures CommandOf(b) == Some(c)
  {
    match c
    case Connect => 0x01
    case Bind => 0x02
    case UdpAssociate => 0x03
  }

  function RequestMessage(c: SocksCommand, rsv: byte, t: TargetAddr): seq<byte> {
    [0x05, CommandCode(c), rsv] + EncodeTarget(t)
  }

  /** One read off the front of the input. */
  lemma ReadStep(users: Users, starved: ProxyError, p: ServerPhase, data: seq<byte>, rest: seq<byte>, sent: seq<byte>)
    requires p.Waiting() && |data| == p.Need()
    ensures var r := OnRead(users, p, data);
            RunServer(users, starved, p, data + rest, sent) == RunServer(users, starved, r.0, rest, Written(sent, r.1))
  {
  }

  /** A session at offset `i` of `b`: it is done, or starved, or completes one read. */
  lemma RunAt(users: Users, starved: ProxyError, p: ServerPhase, b: seq<byte>, i: nat, sent: seq<byte>)
    requires i <= |b|
    ensures !p.Waiting() ==> RunServer(users, starved, p, b[i..], sent) == Session(p, b[i..], sent)
    ensures p.Waiting() && i + p.Need() > |b| ==>
              RunServer(users, starved, p, b[i..], sent) == Session(Finished(Err(starved)), [], sent)
    ensures p.Waiting() && i + p.Need() <= |b| ==>
              var r := OnRead(users, p, b[i..i + p.Need()]);
              RunServer(users, starved, p, b[i..], sent)
              == RunServer(users, starved, r.0, b[i + p.Need()..], Written(sent, r.1))
  {
    if p.Waiting() && i + p.Need() <= |b| {
      assert b[i..] == b[i..i + p.Need()] + b[i + p.Need()..];
      ReadStep(users, starved, p, b[i..i + p.Need()], b[i + p.Need()..], sent);
    }
  }

  /** The request phase is address decoding: after VER, CMD and an unchecked RSV it reads exactly one encoded target. */
  lemma RequestIsDecoding(users: Users, starved: ProxyError, head: seq<byte>, b: seq<byte>, sent: seq<byte>)
    requires |head| == 3 && head[0] == 0x05 && CommandOf(head[1]).Some?
    ensures var s := RunServer(users, starved, AwaitRequest, head + b, sent);
            match DecodeTarget(b)
            case Some(d) =>
              s == Session(Handling(SocksRequest(CommandOf(head[1]).value, d.target)), b[d.length..], sent)
            case None => s.phase == Finished(Err(Socks5)) || s.phase == Finished(Err(starved))
  {
    hide RunServer, ValidUtf8;
    var input := head + b;
    assert input[0..] == input;
    RunAt(users, starved, AwaitRequest, input, 0, sent);
    if b == [] {
      return;
    }
    var command := CommandOf(head[1]).value;
    assert input[0..4] == head + [b[0]] && input[4..] == b[1..];
    var next := OnRead(users, AwaitRequest, head + [b[0]]).0;
    if b[0] == 0x01 || b[0] == 0x04 {
      FixedAddress(users, starved, next, b, sent);
    } else if b[0] == 0x03 {
      NameAddress(users, starved, command, b, sent);
    } else {
      RunAt(users, starved, next, b, 1, sent);
    }
  }

  lemma FixedAddress(users: Users, starved: ProxyError, p: ServerPhase, b: seq<byte>, sent: seq<byte>)
    requires p.AwaitIpv4? || p.AwaitIpv6?
    requires b != [] && b[0] == (if p.AwaitIpv4? then 0x01 else 0x04)
    ensures RunServer(users, starved, p, b[1..], sent)
         == match DecodeTarget(b)
            case Some(d) => Session(Handling(SocksRequest(p.command, d.target)), b[d.length..], sent)
            case None => Session(Finished(Err(starved)), [], sent)
  {
    hide RunServer, ValidUtf8;
    var n := p.Need();
    RunAt(users, starved, p, b, 1, sent);
    if |b| >= 1 + n {
      var q := OnRead(users, p, b[1..1 + n]).0;
      RunAt(users, starved, q, b, 1 + n, sent);
      if |b| >= 3 + n {
        RunAt(users, starved, OnRead(users, q, b[1 + n..3 + n]).0, b, 3 + n, sent);
      }
    }
  }

  lemma NameAddress(users: Users, starved: ProxyError, command: SocksCommand, b: seq<byte>, sent: seq<byte>)
    requires b != [] && b[0] == 0x03
    ensures var s := RunServer(users, starved, AwaitDomainLen(command), b[1..], sent);
            match DecodeTarget(b)
            case Some(d) => s == Session(Handling(SocksRequest(command, d.target)), b[d.length..], sent)
            case None => s.phase == Finished(Err(Socks5)) || s.phase == Finished(Err(starved))
  {
    hide RunServer, ValidUtf8;
    RunAt(users, starved, AwaitDomainLen(command), b, 1, sent);
    if |b| >= 2 {
      assert b[1..2] == [b[1]];
      NameAndPort(users, starved, command, b, b[1] as nat, sent);
    }
  }

  lemma NameAndPort(users: Users, starved: ProxyError, command: SocksCommand, b: seq<byte>, n: nat, sent: seq<byte>)
    requires |b| >= 2
    ensures RunServer(users, starved, AwaitDomain(command, n), b[2..], sent)
         == if |b| < 4 + n then Session(Finished(Err(starved)), [], sent)
            else if !ValidUtf8(b[2..2 + n]) then Session(Finished(Err(Socks5)), b[4 + n..], sent)
            else Session(Handling(SocksRequest(command, Domain(b[2..2 + n], FromBigEndian(b[2 + n..4 + n])))),
                         b[4 + n..], sent)
  {
    hide RunServer, ValidUtf8;
    RunAt(users, starved, AwaitDomain(command, n), b, 2, sent);
    if |b| >= 2 + n {
      var q := AwaitDomainPort(command, b[2..2 + n]);
      RunAt(users, starved, q, b, 2 + n, sent);
      if |b| >= 4 + n {
        RunAt(users, starved, OnRead(users, q, b[2 + n..4 + n]).0, b, 4 + n, sent);
      }
    }
  }

  /** The session comes to stand at phase `q` with `rest` unread. */
  predicate Reaches(users: Users, p: ServerPhase, input: seq<byte>, q: ServerPhase, rest: seq<byte>)
    decreases p.Rank()
  {
    || (p == q && input == rest)
    || (p.Waiting() && |input| >= p.Need() &&
        (OnReadDescends(users, p, input[..p.Need()]);
         Reaches(users, OnRead(users, p, input[..p.Need()]).0, input[p.Need()..], q, rest)))
  }

  /** The inputs that may place a request, with what is left of them: RFC 1928 section 3, RFC 1929 section 2. */
  ghost predicate Admitted(users: Users, input: seq<byte>, rest: seq<byte>) {
    match users
    case None => exists methods: seq<byte> :: OpenAdmission(methods, input, rest)
    case Some(list) =>
      exists methods: seq<byte>, c: Credential :: c in list && CheckedAdmission(methods, c, input, rest)
  }

  ghost predicate OpenAdmission(methods: seq<byte>, input: seq<byte>, rest: seq<byte>) {
    |methods| <= 255 && 0x00 in methods && input == MethodMessage(methods) + rest
  }

  ghost predicate CheckedAdmission(methods: seq<byte>, c: Credential, input: seq<byte>, rest: seq<byte>) {
    && |methods| <= 255 && 0x02 in methods
    && |c.username| <= 255 && |c.password| <= 255
    && input == MethodMessage(methods) + AuthMessage(c.username, c.password) + rest
  }

  function AdmissionReplies(users: Users): seq<byte> {
    if users.None? then [0x05, 0x00] else [0x05, 0x02, 0x01, 0x00]
  }

  lemma ReachFrom(users: Users, p: ServerPhase, b: seq<byte>, i: nat, q: ServerPhase, rest: seq<byte>)
    requires p != q && i <= |b|
    ensures !p.Waiting() ==> !Reaches(users, p, b[i..], q, rest)
    ensures p.Waiting() ==>
              (Reaches(users, p, b[i..], q, rest)
               <==> && i + p.Need() <= |b|
                    && Reaches(users, OnRead(users, p, b[i..i + p.Need()]).0, b[i + p.Need()..], q, rest))
  {
    if p.Waiting() && i + p.Need() <= |b| {
      assert b[i..][..p.Need()] == b[i..i + p.Need()] && b[i..][p.Need()..] == b[i + p.Need()..];
    }
  }

  lemma {:induction false} RankNeverRises(users: Users, p: ServerPhase, input: seq<byte>, q: ServerPhase,
                                          rest: seq<byte>)
    requires Reaches(users, p, input, q, rest)
    ensures q.Rank() <= p.Rank()
    decreases p.Rank()
  {
    if !(p == q && input == rest) {
      OnReadDescends(users, p, input[..p.Need()]);
      RankNeverRises(users, OnRead(users, p, input[..p.Need()]).0, input[p.Need()..], q, rest);
    }
  }

  lemma ReachesSelf(users: Users, input: seq<byte>, rest: seq<byte>)
    ensures Reaches(users, AwaitRequest, input, AwaitRequest, rest) <==> input == rest
  {
    if input != rest && Reaches(users, AwaitRequest, input, AwaitRequest, rest) {
      RankNeverRises(users, OnRead(users, AwaitRequest, input[..4]).0, input[4..], AwaitRequest, rest);
      OnReadDescends(users, AwaitRequest, input[..4]);
    }
  }

  lemma NegotiationReached(users: Users, b: seq<byte>, rest: seq<byte>)
    ensures Reaches(users, AwaitHeader, b, AwaitRequest, rest)
       <==> && |b| >= 2 && b[0] == 0x05 && |b| >= 2 + b[1] as int
            && Reaches(users, AfterMethod(users, SelectMethod(users, b[2..2 + b[1] as int])), b[2 + b[1] as int..],
                       AwaitRequest, rest)
  {
    hide Reaches;
    assert b[0..] == b;
    ReachFrom(users, AwaitHeader, b, 0, AwaitRequest, rest);
    if |b| >= 2 {
      ReachFrom(users, OnRead(users, AwaitHeader, b[0..2]).0, b, 2, AwaitRequest, rest);
    }
  }

  /** The bytes `b` start with a well-formed RFC 1929 message for a listed credential, followed by `rest`. */
  predicate AuthParsed(list: seq<Credential>, b: seq<byte>, rest: seq<byte>) {
    && |b| >= 2 && b[0] == 0x01
    && var n := b[1] as int;
    && |b| >= 3 + n
    && var m := b[2 + n] as int;
    && |b| >= 3 + n + m
    && ValidUtf8(b[2..2 + n]) && ValidUtf8(b[3 + n..3 + n + m])
    && VerifyCredentials(b[2..2 + n], b[3 + n..3 + n + m], list)
    && rest == b[3 + n + m..]
  }

  lemma AuthReached(list: seq<Credential>, b: seq<byte>, rest: seq<byte>)
    ensures Reaches(Some(list), AwaitAuthVersion, b, AwaitRequest, rest) <==> AuthParsed(list, b, rest)
  {
    hide Reaches, ValidUtf8;
    var users := Some(list);
    assert b[0..] == b;
    ReachFrom(users, AwaitAuthVersion, b, 0, AwaitRequest, rest);
    if |b| >= 1 {
      ReachFrom(users, OnRead(users, AwaitAuthVersion, b[0..1]).0, b, 1, AwaitRequest, rest);
      if |b| >= 2 && b[0] == 0x01 {
        assert b[1..2] == [b[1]];
        UserReached(list, b, b[1] as nat, rest);
      }
    }
  }

  lemma UserReached(list: seq<Credential>, b: seq<byte>, n: nat, rest: seq<byte>)
    requires |b| >= 2 && b[0] == 0x01 && n == b[1] as nat
    ensures Reaches(Some(list), AwaitUser(n), b[2..], AwaitRequest, rest) <==> AuthParsed(list, b, rest)
  {
    hide Reaches, ValidUtf8;
    var users := Some(list);
    ReachFrom(users, AwaitUser(n), b, 2, AwaitRequest, rest);
    if |b| >= 2 + n {
      var u := b[2..2 + n];
      ReachFrom(users, AwaitPassLen(u), b, 2 + n, AwaitRequest, rest);
      if |b| >= 3 + n {
        assert b[2 + n..3 + n] == [b[2 + n]];
        PassReached(list, b, n, b[2 + n] as nat, rest);
      }
    }
  }

  lemma PassReached(list: seq<Credential>, b: seq<byte>, n: nat, m: nat, rest: seq<byte>)
    requires |b| >= 3 + n && b[0] == 0x01 && n == b[1] as nat && m == b[2 + n] as nat
    ensures Reaches(Some(list), AwaitPass(b[2..2 + n], m), b[3 + n..], AwaitRequest, rest)
       <==> AuthParsed(list, b, rest)
  {
    hide Reaches, ValidUtf8;
    var users, u := Some(list), b[2..2 + n];
    ReachFrom(users, AwaitPass(u, m), b, 3 + n, AwaitRequest, rest);
    if |b| >= 3 + n + m {
      VerdictReached(list, u, b[3 + n..3 + n + m], b[3 + n + m..], rest);
    }
  }

  lemma VerdictReached(list: seq<Credential>, u: seq<byte>, p: seq<byte>, input: seq<byte>, rest: seq<byte>)
    ensures Reaches(Some(list), OnRead(Some(list), AwaitPass(u, |p|), p).0, input, AwaitRequest, rest)
       <==> ValidUtf8(u) && ValidUtf8(p) && VerifyCredentials(u, p, list) && input == rest
  {
    hide Reaches, ValidUtf8;
    ReachesSelf(Some(list), input, rest);
    var next := OnRead(Some(list), AwaitPass(u, |p|), p).0;
    if next != AwaitRequest {
      assert input[0..] == input;
      ReachFrom(Some(list), next, input, 0, AwaitRequest, rest);
    }
  }

  lemma AuthMessageAt(u: seq<byte>, p: seq<byte>, rest: seq<byte>)
    requires |u| <= 255 && |p| <= 255
    ensures var b, n, m := AuthMessage(u, p) + rest, |u|, |p|;
            && |b| == 3 + n + m + |rest| && b[0] == 0x01 && b[1] as int == n && b[2 + n] as int == m
            && b[2..2 + n] == u && b[3 + n..3 + n + m] == p && b[3 + n + m..] == rest
  {
  }

  lemma AuthParsedIff(list: seq<Credential>, b: seq<byte>, rest: seq<byte>)
    ensures AuthParsed(list, b, rest)
       <==> exists c: Credential :: c in list && |c.username| <= 255 && |c.password| <= 255
                                 && b == AuthMessage(c.username, c.password) + rest
  {
    hide ValidUtf8;
    if AuthParsed(list, b, rest) {
      var n := b[1] as int;
      var m := b[2 + n] as int;
      var c :| c in list && c.username == b[2..2 + n] && c.password == b[3 + n..3 + n + m];
      assert b == AuthMessage(c.username, c.password) + rest;
    }
    forall c: Credential | c in list && |c.username| <= 255 && |c.password| <= 255
                        && b == AuthMessage(c.username, c.password) + rest
      ensures AuthParsed(list, b, rest)
    {
      AuthMessageAt(c.username, c.password, rest);
    }
  }

  /**
   * The authentication gate, for every input: the session comes to read a request exactly when the input is a method
   * message offering the method the configuration calls for and, if users are configured, a message carrying the
   * credential of one of them. Each message is consumed to its last byte and no further.
   */
  lemma AdmissionIff(users: Users, input: seq<byte>, rest: seq<byte>)
    ensures Reaches(users, AwaitHeader, input, AwaitRequest, rest) <==> Admitted(users, input, rest)
  {
    hide Reaches;
    ReachedIff(users, input, rest);
    if NegotiatedThenAdmits(users, input, rest) {
      NegotiatedIsAdmitted(users, input, rest);
    }
    if Admitted(users, input, rest) {
      AdmittedIsNegotiated(users, input, rest);
    }
  }

  /** The input starts with an acceptable method message, and what follows it admits. */
  ghost predicate NegotiatedThenAdmits(users: Users, b: seq<byte>, rest: seq<byte>) {
    && |b| >= 2 && b[0] == 0x05 && |b| >= 2 + b[1] as int
    && (if users.None? then 0x00 else 0x02) in b[2..2 + b[1] as int]
    && LaterAdmits(users, b[2 + b[1] as int..], rest)
  }

  lemma ReachedIff(users: Users, b: seq<byte>, rest: seq<byte>)
    ensures Reaches(users, AwaitHeader, b, AwaitRequest, rest) <==> NegotiatedThenAdmits(users, b, rest)
  {
    hide Reaches;
    NegotiationReached(users, b, rest);
    if |b| >= 2 && |b| >= 2 + b[1] as int {
      AfterNegotiation(users, b[2..2 + b[1] as int], b[2 + b[1] as int..], rest);
    }
  }

  lemma NegotiatedIsAdmitted(users: Users, b: seq<byte>, rest: seq<byte>)
    requires NegotiatedThenAdmits(users, b, rest)
    ensures Admitted(users, b, rest)
  {
    var methods, later := b[2..2 + b[1] as int], b[2 + b[1] as int..];
    assert b == MethodMessage(methods) + later;
    AdmittedWhenLater(users, methods, b, later, rest);
  }

  lemma AdmittedIsNegotiated(users: Users, b: seq<byte>, rest: seq<byte>)
    requires Admitted(users, b, rest)
    ensures NegotiatedThenAdmits(users, b, rest)
  {
    hide Reaches;
    var methods, later := MethodsOf(users, b, rest);
    assert b[2..2 + |methods|] == methods && b[2 + |methods|..] == later;
  }

  /** What must follow an acceptable method message. */
  ghost predicate LaterAdmits(users: Users, later: seq<byte>, rest: seq<byte>) {
    match users
    case None => later == rest
    case Some(list) => exists c: Credential :: c in list && |c.username| <= 255 && |c.password| <= 255
                                            && later == AuthMessage(c.username, c.password) + rest
  }

  lemma AfterNegotiation(users: Users, methods: seq<byte>, later: seq<byte>, rest: seq<byte>)
    ensures Reaches(users, AfterMethod(users, SelectMethod(users, methods)), later, AwaitRequest, rest)
       <==> (if users.None? then 0x00 else 0x02) in methods && LaterAdmits(users, later, rest)
  {
    hide Reaches;
    ReachesSelf(users, later, rest);
    var next := AfterMethod(users, SelectMethod(users, methods));
    if next.Finished? {
      assert later[0..] == later;
      ReachFrom(users, next, later, 0, AwaitRequest, rest);
    }
    if users.Some? {
      AuthReached(users.value, later, rest);
      AuthParsedIff(users.value, later, rest);
    }
  }

  lemma AdmittedWhenLater(users: Users, methods: seq<byte>, input: seq<byte>, later: seq<byte>, rest: seq<byte>)
    requires |methods| <= 255 && (if users.None? then 0x00 else 0x02) in methods
    requires input == MethodMessage(methods) + later && LaterAdmits(users, later, rest)
    ensures Admitted(users, input, rest)
  {
    if users.None? {
      assert OpenAdmission(methods, input, rest);
    } else {
      var c: Credential :| c in users.value && |c.username| <= 255 && |c.password| <= 255
                        && later == AuthMessage(c.username, c.password) + rest;
      assert MethodMessage(methods) + later == MethodMessage(methods) + AuthMessage(c.username, c.password) + rest;
      assert CheckedAdmission(methods, c, input, rest);
    }
  }

  lemma MethodsOf(users: Users, input: seq<byte>, rest: seq<byte>)
    returns (methods: seq<byte>, later: seq<byte>)
    requires Admitted(users, input, rest)
    ensures |methods| <= 255 && (if users.None? then 0x00 else 0x02) in methods
    ensures input == MethodMessage(methods) + later && LaterAdmits(users, later, rest)
  {
    if users.None? {
      methods :| OpenAdmission(methods, input, rest);
      later := rest;
    } else {
      var c: Credential;
      methods, c :| c in users.value && CheckedAdmission(methods, c, input, rest);
      later := AuthMessage(c.username, c.password) + rest;
      assert input == MethodMessage(methods) + later;
    }
  }

  /** Every request is reached through `AwaitRequest`. */
  lemma {:induction false} ThroughRequest(users: Users, starved: ProxyError, p: ServerPhase, input: seq<byte>,
                                          sent: seq<byte>)
    returns (mid: seq<byte>)
    requires p.Waiting() && p.Rank() >= AwaitRequest.Rank()
    requires RunServer(users, starved, p, input, sent).phase.Handling?
    ensures Reaches(users, p, input, AwaitRequest, mid)
    decreases p.Rank()
  {
    if p == AwaitRequest {
      return input;
    }
    var n := p.Need();
    var data, later := input[..n], input[n..];
    OnReadDescends(users, p, data);
    BeforeRequest(users, p, data);
    var (q, out) := OnRead(users, p, data);
    mid := ThroughRequest(users, starved, q, later, Written(sent, out));
  }

  lemma BeforeRequest(users: Users, p: ServerPhase, data: seq<byte>)
    requires p.Waiting() && |data| == p.Need() && p.Rank() > AwaitRequest.Rank()
    ensures var q := OnRead(users, p, data).0; q.Finished? || (q.Waiting() && q.Rank() >= AwaitRequest.Rank())
  {
  }

  lemma {:induction false} RunFromReached(users: Users, starved: ProxyError, p: ServerPhase, input: seq<byte>,
                                          sent: seq<byte>, q: ServerPhase, rest: seq<byte>)
    returns (said: seq<byte>)
    requires Reaches(users, p, input, q, rest)
    ensures RunServer(users, starved, p, input, sent) == RunServer(users, starved, q, rest, said)
    decreases p.Rank()
  {
    if p == q && input == rest {
      return sent;
    }
    var n := p.Need();
    var data, later := input[..n], input[n..];
    OnReadDescends(users, p, data);
    var (next, out) := OnRead(users, p, data);
    said := RunFromReached(users, starved, next, later, Written(sent, out), q, rest);
  }

  /** What a session at phase `p` may write before it handles a command: method reply, then authentication reply. */
  predicate Says(users: Users, p: ServerPhase, out: seq<byte>) {
    var accepted := AdmissionReplies(users)[..2];
    || out == []
    || ((p.AwaitHeader? || p.AwaitMethods?) &&
        (out == [0x05, 0xFF] || out == accepted ||
         (users.Some? && (out == accepted + [0x01, 0x00] || out == accepted + [0x01, 0x01]))))
    || ((p.AwaitAuthVersion? || p.AwaitUserLen? || p.AwaitUser? || p.AwaitPassLen? || p.AwaitPass?) &&
        (out == [0x01, 0x00] || out == [0x01, 0x01]))
  }

  /** What it has written when it does handle one. */
  function Owed(users: Users, p: ServerPhase): seq<byte> {
    if p.AwaitHeader? || p.AwaitMethods? then AdmissionReplies(users)
    else if p.AwaitAuthVersion? || p.AwaitUserLen? || p.AwaitUser? || p.AwaitPassLen? || p.AwaitPass? then [0x01, 0x00]
    else []
  }

  lemma SaysStep(users: Users, p: ServerPhase, data: seq<byte>, more: seq<byte>)
    requires p.Waiting() && |data| == p.Need()
    requires Says(users, OnRead(users, p, data).0, more)
    ensures var (q, o) := OnRead(users, p, data);
            Says(users, p, o + more) && (!q.Finished? && more == Owed(users, q) ==> o + more == Owed(users, p))
  {
    hide ValidUtf8;
    assert [] + more == more;
  }

  lemma SaysNothing(users: Users, p: ServerPhase)
    ensures Says(users, p, []) && (p.Handling? ==> Owed(users, p) == [])
  {
  }

  /** What a session adds to the output, whatever it had written before. */
  lemma {:induction false} OutputShape(users: Users, starved: ProxyError, p: ServerPhase, input: seq<byte>,
                                       sent: seq<byte>)
    returns (out: seq<byte>)
    ensures var s := RunServer(users, starved, p, input, sent);
            s.sent == sent + out && Says(users, p, out) && (s.phase.Handling? ==> out == Owed(users, p))
    decreases p.Rank()
  {
    hide OnRead, Says, Owed;
    SaysNothing(users, p);
    out := [];
    if p.Waiting() && |input| >= p.Need() {
      var n := p.Need();
      var data, later := input[..n], input[n..];
      OnReadDescends(users, p, data);
      var (q, o) := OnRead(users, p, data);
      var more := OutputShape(users, starved, q, later, Written(sent, o));
      SaysStep(users, p, data, more);
      assert Written(sent, o) + more == sent + (o + more);
      out := o + more;
    }
  }

  ghost predicate Places(mid: seq<byte>, request: SocksRequest, rest: seq<byte>) {
    && |mid| >= 3 && Encodable(request.target)
    && mid == RequestMessage(request.command, mid[2], request.target) + rest
  }

  lemma HandledHead(users: Users, starved: ProxyError, mid: seq<byte>, sent: seq<byte>)
    requires RunServer(users, starved, AwaitRequest, mid, sent).phase.Handling?
    ensures |mid| >= 4 && mid[0] == 0x05 && CommandOf(mid[1]).Some?
  {
    var data := mid[..4];
    assert data[0] == mid[0] && data[1] == mid[1];
  }

  lemma HandledIsPlaced(users: Users, starved: ProxyError, mid: seq<byte>, sent: seq<byte>)
    requires RunServer(users, starved, AwaitRequest, mid, sent).phase.Handling?
    ensures var s := RunServer(users, starved, AwaitRequest, mid, sent);
            Places(mid, s.phase.request, s.rest)
  {
    hide RunServer;
    HandledHead(users, starved, mid, sent);
    DecodedIsPlaced(users, starved, mid, mid[..3], mid[3..], sent);
  }

  lemma DecodedIsPlaced(users: Users, starved: ProxyError, mid: seq<byte>, head: seq<byte>, b: seq<byte>,
                        sent: seq<byte>)
    requires mid == head + b && |head| == 3 && head[0] == 0x05 && CommandOf(head[1]).Some?
    requires RunServer(users, starved, AwaitRequest, mid, sent).phase.Handling?
    ensures var s := RunServer(users, starved, AwaitRequest, mid, sent);
            Places(mid, s.phase.request, s.rest)
  {
    hide RunServer;
    RequestIsDecoding(users, starved, head, b, sent);
    WireForm(head, b);
  }

  lemma WireForm(head: seq<byte>, b: seq<byte>)
    requires |head| == 3 && head[0] == 0x05 && CommandOf(head[1]).Some? && DecodeTarget(b).Some?
    ensures var d := DecodeTarget(b).value;
            Places(head + b, SocksRequest(CommandOf(head[1]).value, d.target), b[d.length..])
  {
    hide ValidUtf8;
    DecodedIsEncoding(b);
    var d := DecodeTarget(b).value;
    assert b == b[..d.length] + b[d.length..];
    assert head == [0x05, CommandCode(CommandOf(head[1]).value), (head + b)[2]];
  }

  lemma PlacedIsHandled(users: Users, starved: ProxyError, rsv: byte, request: SocksRequest, rest: seq<byte>,
                        sent: seq<byte>)
    requires Encodable(request.target)
    ensures RunServer(users, starved, AwaitRequest, RequestMessage(request.command, rsv, request.target) + rest, sent)
         == Session(Handling(request), rest, sent)
  {
    var head, b := [0x05, CommandCode(request.command), rsv], EncodeTarget(request.target) + rest;
    assert RequestMessage(request.command, rsv, request.target) + rest == head + b;
    RequestIsDecoding(users, starved, head, b, sent);
    DecodeEncoding(request.target, rest);
    assert b[|EncodeTarget(request.target)|..] == rest;
  }

  /**
   * The whole handshake, for every input: a request is handled exactly when the input is an admission followed by that
   * request in wire form, and then everything after the request is still unread.
   */
  lemma SessionIff(users: Users, starved: ProxyError, input: seq<byte>, request: SocksRequest, rest: seq<byte>)
    ensures RunServer(users, starved, AwaitHeader, input, [])
            == Session(Handling(request), rest, AdmissionReplies(users))
       <==> exists mid :: Admitted(users, input, mid) && Places(mid, request, rest)
  {
    hide RunServer, Reaches;
    if RunServer(users, starved, AwaitHeader, input, []) == Session(Handling(request), rest, AdmissionReplies(users)) {
      var mid := HandledSession(users, starved, input);
    }
    forall mid | Admitted(users, input, mid) && Places(mid, request, rest)
      ensures RunServer(users, starved, AwaitHeader, input, [])
              == Session(Handling(request), rest, AdmissionReplies(users))
    {
      PlacingSession(users, starved, input, mid, request, rest);
    }
  }

  lemma HandledSession(users: Users, starved: ProxyError, input: seq<byte>) returns (mid: seq<byte>)
    requires RunServer(users, starved, AwaitHeader, input, []).phase.Handling?
    ensures var s := RunServer(users, starved, AwaitHeader, input, []);
            Admitted(users, input, mid) && Places(mid, s.phase.request, s.rest)
  {
    hide RunServer, Reaches;
    mid := HandledFrom(users, starved, AwaitHeader, input);
  }

  lemma HandledFrom(users: Users, starved: ProxyError, p: ServerPhase, input: seq<byte>)
    returns (mid: seq<byte>)
    requires p.AwaitHeader?
    requires RunServer(users, starved, p, input, []).phase.Handling?
    ensures var s := RunServer(users, starved, p, input, []);
            Admitted(users, input, mid) && Places(mid, s.phase.request, s.rest)
  {
    hide RunServer, Reaches;
    mid := ThroughRequest(users, starved, p, input, []);
    AdmissionIff(users, input, mid);
    var said := RunFromReached(users, starved, p, input, [], AwaitRequest, mid);
    HandledIsPlaced(users, starved, mid, said);
  }

  lemma PlacingSession(users: Users, starved: ProxyError, input: seq<byte>, mid: seq<byte>,
                       request: SocksRequest, rest: seq<byte>)
    requires Admitted(users, input, mid) && Places(mid, request, rest)
    ensures RunServer(users, starved, AwaitHeader, input, [])
            == Session(Handling(request), rest, AdmissionReplies(users))
  {
    hide RunServer, Reaches;
    AdmissionIff(users, input, mid);
    PlacingFrom(users, starved, AwaitHeader, input, mid, request, rest);
  }

  lemma PlacingFrom(users: Users, starved: ProxyError, p: ServerPhase, input: seq<byte>, mid: seq<byte>,
                    request: SocksRequest, rest: seq<byte>)
    requires Reaches(users, p, input, AwaitRequest, mid) && Places(mid, request, rest)
    ensures RunServer(users, starved, p, input, []) == Session(Handling(request), rest, Owed(users, p))
  {
    hide RunServer, Reaches;
    var said := RunFromReached(users, starved, p, input, [], AwaitRequest, mid);
    PlacedIsHandled(users, starved, mid[2], request, rest, said);
    var out := OutputShape(users, starved, p, input, []);
    assert [] + out == out;
  }

  /** A session that was not cut short does the same, and leaves the extra bytes unread, whatever follows its input. */
  lemma {:induction false} MoreInput(users: Users, starved: ProxyError, p: ServerPhase, input: seq<byte>,
                                     more: seq<byte>, sent: seq<byte>)
    requires starved != Socks5 && RunServer(users, starved, p, input, sent).phase != Finished(Err(starved))
    ensures var s := RunServer(users, starved, p, input, sent);
            RunServer(users, starved, p, input + more, sent) == Session(s.phase, s.rest + more, s.sent)
    decreases p.Rank()
  {
    if p.Waiting() {
      var n := p.Need();
      var data, later := input[..n], input[n..];
      OnReadDescends(users, p, data);
      var (q, out) := OnRead(users, p, data);
      MoreInput(users, starved, q, later, more, Written(sent, out));
      MoreInputStep(users, starved, p, data, later, more, sent);
      assert input == data + later;
    }
  }

  lemma MoreInputStep(users: Users, starved: ProxyError, p: ServerPhase, data: seq<byte>,
                      later: seq<byte>, more: seq<byte>, sent: seq<byte>)
    requires p.Waiting() && |data| == p.Need()
    ensures var (q, out) := OnRead(users, p, data);
            && RunServer(users, starved, p, data + later, sent)
               == RunServer(users, starved, q, later, Written(sent, out))
            && RunServer(users, starved, p, data + later + more, sent)
               == RunServer(users, starved, q, later + more, Written(sent, out))
  {
    hide RunServer;
    assert data + later + more == data + (later + more);
    ReadStep(users, starved, p, data, later, sent);
    ReadStep(users, starved, p, data, later + more, sent);
  }

  /** Bytes a session at phase `p` can still consume before a command is handled. */
  function Appetite(p: ServerPhase): nat {
    match p
    case AwaitHeader => 1032
    case AwaitMethods(n) => n + 775
    case AwaitAuthVersion => 775
    case AwaitUserLen => 774
    case AwaitUser(n) => n + 518
    case AwaitPassLen(_) => 518
    case AwaitPass(_, n) => n + 262
    case AwaitRequest => 262
    case AwaitDomainLen(_) => 258
    case AwaitDomain(_, n) => n + 2
    case AwaitIpv4(_) => 6
    case AwaitIpv6(_) => 18
    case AwaitIpv4Port(_, _) | AwaitDomainPort(_, _) | AwaitIpv6Port(_, _) => 2
    case Handling(_) | Tunnelling(_) | Relaying | Finished(_) => 0
  }

  /** From `AwaitHeader` a session consumes at most 1032 bytes before any command is handled. */
  lemma {:induction false} ConsumptionBound(users: Users, starved: ProxyError, p: ServerPhase, input: seq<byte>,
                                            sent: seq<byte>)
    ensures var rest := RunServer(users, starved, p, input, sent).rest;
            |rest| <= |input| && (|input| <= |rest| + Appetite(p))
    decreases p.Rank()
  {
    if p.Waiting() && |input| >= p.Need() {
      var n := p.Need();
      var data, later := input[..n], input[n..];
      OnReadDescends(users, p, data);
      AppetiteStep(users, p, data);
      var (q, out) := OnRead(users, p, data);
      ConsumptionBound(users, starved, q, later, Written(sent, out));
    }
  }

  lemma AppetiteStep(users: Users, p: ServerPhase, data: seq<byte>)
    requires p.Waiting() && |data| == p.Need()
    ensures p.Need() + Appetite(OnRead(users, p, data).0) <= Appetite(p)
  {
  }

  /** Everything a session writes before a tunnel takes over: at most one reply per phase, in order. */
  lemma WholeOutput(users: Users, env: Environment, starved: ProxyError, input: seq<byte>)
    ensures var h, s := RunServer(users, starved, AwaitHeader, input, []), ServeAll(users, env, starved, input, []);
            if !h.phase.Handling? then s == h && Says(users, AwaitHeader, s.sent)
            else match h.phase.request.command
              case Connect =>
                && var t := h.phase.request.target;
                && s.phase == (if env.dial(t) then Tunnelling(t) else Finished(Ok(())))
                && s.sent == AdmissionReplies(users) + Reply(if env.dial(t) then 0x00 else 0x05, 0)
              case Bind => s.sent == AdmissionReplies(users) + Reply(0x07, 0) && s.phase == Finished(Ok(()))
              case UdpAssociate =>
                if env.udpPort.Some? then
                  s.phase == Relaying && s.sent == AdmissionReplies(users) + Reply(0x00, env.udpPort.value)
                else s.phase == Finished(Err(Io)) && s.sent == AdmissionReplies(users)
  {
    var out := OutputShape(users, starved, AwaitHeader, input, []);
    assert [] + out == out;
  }
}
