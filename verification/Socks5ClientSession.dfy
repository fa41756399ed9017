/** What the client takes from its stream: exactly the proxy's replies, so that hops can share one stream. */
module Socks5ClientSession {
  import opened Bytes
  import opened Address
  import opened Credentials
  import opened Socks5Server
  import opened Socks5Session
  import opened Socks5Client

  lemma ClientStep(cfg: ClientConfig, p: ClientPhase, data: seq<byte>, rest: seq<byte>, sent: seq<byte>)
    requires p.Waiting() && |data| == p.Need()
    ensures var r := OnReply(cfg, p, data);
            RunClient(cfg, p, data + rest, sent) == RunClient(cfg, r.0, rest, Written(sent, r.1))
  {
    assert (data + rest)[..|data|] == data && (data + rest)[|data|..] == rest;
  }

  /** A success reply, with whatever address the proxy says it bound, is consumed to its last byte. */
  lemma ReplyIsConsumed(cfg: ClientConfig, head: seq<byte>, bound: TargetAddr, tail: seq<byte>, sent: seq<byte>)
    requires |head| == 3 && head[1] == 0x00 && Encodable(bound)
    ensures RunClient(cfg, AwaitReply, head + EncodeTarget(bound) + tail, sent) == Dialogue(Established, tail, sent)
  {
    var e := EncodeTarget(bound);
    assert head + e + tail == (head + [e[0]]) + (e[1..] + tail);
    ClientStep(cfg, AwaitReply, head + [e[0]], e[1..] + tail, sent);
    match bound
    case Ipv4(_, _) => ClientStep(cfg, AwaitBound(6), e[1..], tail, sent);
    case Ipv6(_, _) => ClientStep(cfg, AwaitBound(18), e[1..], tail, sent);
    case Domain(name, port) => NameIsConsumed(cfg, name, port, e, tail, sent);
  }

  lemma NameIsConsumed(cfg: ClientConfig, name: Text, port: u16, e: seq<byte>, tail: seq<byte>, sent: seq<byte>)
    requires |name| <= 255 && e == EncodeTarget(Domain(name, port))
    ensures RunClient(cfg, AwaitBoundLen, e[1..] + tail, sent) == Dialogue(Established, tail, sent)
  {
  }

  /** A reply with an unknown address type is taken for a success after its first four bytes. */
  lemma UnknownBoundTypeIsNotConsumed(cfg: ClientConfig, head: seq<byte>, tail: seq<byte>, sent: seq<byte>)
    requires |head| == 4 && head[1] == 0x00 && head[3] !in {0x01, 0x03, 0x04}
    ensures RunClient(cfg, AwaitReply, head + tail, sent) == Dialogue(Established, tail, sent)
  {
    ClientStep(cfg, AwaitReply, head, tail, sent);
  }

  // The request, as this repository's server reads it.

  /**
   * The bytes of a request for a host that fits are read as a CONNECT for that port, and for the host's IPv4 form if
   * it has one, else its IPv6 form, else the name itself; what follows stays unread.
   */
  lemma RequestIsRead(forms: HostForms, host: Text, port: u16, users: Users, starved: ProxyError, rest: seq<byte>)
    requires |host| <= 255
    ensures var t := match (forms.ipv4(host), forms.ipv6(host))
                     case (Some(a), _) => Ipv4(a, port)
                     case (None, Some(a)) => Ipv6(a, port)
                     case (None, None) => Domain(host, port);
            RunServer(users, starved, AwaitRequest, RequestBytes(forms, host, port) + rest, [])
            == Session(Handling(SocksRequest(Connect, t)), rest, [])
  {
    hide RunServer, RequestBytes, ValidUtf8;
    RequestOnWire(forms, host, port);
    PlacedIsHandled(users, starved, 0x00, SocksRequest(Connect, Classify(forms, host, port)), rest, []);
  }

  // Exactly when the client succeeds.

  /** The length of an answer to the greeting that leads to the request, or 0. */
  function Negotiation(cfg: ClientConfig, b: seq<byte>): nat {
    if |b| >= 2 && b[0] == 0x05 && b[1] == 0x00 then 2
    else if |b| >= 4 && b[0] == 0x05 && b[1] == 0x02 && cfg.auth.Some? && b[3] == 0x00 then 4
    else 0
  }

  /** The length of a complete success reply, or 0; an unknown address type has no address. */
  function SuccessReply(b: seq<byte>): nat {
    if |b| < 4 || b[1] != 0x00 then 0
    else
      var n := if b[3] == 0x01 then 10 else if b[3] == 0x04 then 22
               else if b[3] != 0x03 then 4 else if |b| < 5 then |b| + 1 else 7 + b[4] as nat;
      if n <= |b| then n else 0
  }

  /** One read at offset `i`, or a starved one. */
  lemma ClientAt(cfg: ClientConfig, p: ClientPhase, b: seq<byte>, i: nat, sent: seq<byte>)
    requires i <= |b| && p.Waiting()
    ensures i + p.Need() > |b| ==> RunClient(cfg, p, b[i..], sent) == Dialogue(Rejected(Io), [], sent)
    ensures i + p.Need() <= |b| ==>
              var r := OnReply(cfg, p, b[i..i + p.Need()]);
              RunClient(cfg, p, b[i..], sent) == RunClient(cfg, r.0, b[i + p.Need()..], Written(sent, r.1))
  {
    if i + p.Need() <= |b| {
      assert b[i..] == b[i..i + p.Need()] + b[i + p.Need()..];
      ClientStep(cfg, p, b[i..i + p.Need()], b[i + p.Need()..], sent);
    }
  }

  lemma ReplyRun(cfg: ClientConfig, b: seq<byte>, sent: seq<byte>)
    ensures RunClient(cfg, AwaitReply, b, sent)
         == if SuccessReply(b) > 0 then Dialogue(Established, b[SuccessReply(b)..], sent)
            else if |b| >= 4 && b[1] != 0x00 then Dialogue(Rejected(Upstream), b[4..], sent)
            else Dialogue(Rejected(Io), [], sent)
  {
    hide RunClient, ConnectMessage;
    assert b[0..] == b;
    ClientAt(cfg, AwaitReply, b, 0, sent);
    if |b| >= 4 {
      assert b[0..4][1] == b[1] && b[0..4][3] == b[3];
      var next := OnReply(cfg, AwaitReply, b[0..4]).0;
      if !next.Waiting() {
        Ended(cfg, next, b[4..], sent);
      } else if next.AwaitBound? {
        BoundRun(cfg, b, next.n, 4, sent);
      } else {
        ClientAt(cfg, next, b, 4, sent);
        if |b| >= 5 {
          assert b[4..5] == [b[4]];
          BoundRun(cfg, b, b[4] as nat + 2, 5, sent);
        }
      }
    }
  }

  lemma BoundRun(cfg: ClientConfig, b: seq<byte>, n: nat, i: nat, sent: seq<byte>)
    requires i <= |b|
    ensures RunClient(cfg, AwaitBound(n), b[i..], sent)
         == if i + n <= |b| then Dialogue(Established, b[i + n..], sent) else Dialogue(Rejected(Io), [], sent)
  {
    hide RunClient;
    ClientAt(cfg, AwaitBound(n), b, i, sent);
    if i + n <= |b| {
      Ended(cfg, Established, b[i + n..], sent);
    }
  }

  lemma Ended(cfg: ClientConfig, p: ClientPhase, input: seq<byte>, sent: seq<byte>)
    requires !p.Waiting()
    ensures RunClient(cfg, p, input, sent) == Dialogue(p, input, sent)
  {
  }

  /**
   * For everything a proxy can send: the client succeeds exactly on an accepted negotiation and a complete reply with
   * code 0, having written its credentials if asked and then its request, and leaves what follows unread.
   */
  lemma EstablishedIff(cfg: ClientConfig, b: seq<byte>, sent: seq<byte>)
    ensures var d, n := RunClient(cfg, AwaitMethod, b, sent), Negotiation(cfg, b);
            && (d.phase == Established <==> n > 0 && SuccessReply(b[n..]) > 0)
            && (d.phase == Established ==>
                  && d.rest == b[n + SuccessReply(b[n..])..]
                  && d.sent == sent
                     + (if n == 4 then AuthMessage(cfg.auth.value.username, cfg.auth.value.password) else [])
                     + ConnectMessage(cfg))
  {
    hide RunClient, ConnectMessage, AuthMessage, SuccessReply;
    NegotiationRun(cfg, b, sent);
    var n := Negotiation(cfg, b);
    if n > 0 {
      var auth := if n == 4 then AuthMessage(cfg.auth.value.username, cfg.auth.value.password) else [];
      ReplyRun(cfg, b[n..], sent + auth + ConnectMessage(cfg));
      assert SuccessReply(b[n..]) <= |b[n..]| by { SuccessReplyFits(b[n..]); }
      assert b[n..][SuccessReply(b[n..])..] == b[n + SuccessReply(b[n..])..];
    }
  }

  lemma SuccessReplyFits(b: seq<byte>)
    ensures SuccessReply(b) <= |b|
  {
  }

  /** The client up to its request. */
  lemma NegotiationRun(cfg: ClientConfig, b: seq<byte>, sent: seq<byte>)
    ensures var d, n := RunClient(cfg, AwaitMethod, b, sent), Negotiation(cfg, b);
            if n > 0 then
              var auth := if n == 4 then AuthMessage(cfg.auth.value.username, cfg.auth.value.password) else [];
              d == RunClient(cfg, AwaitReply, b[n..], sent + auth + ConnectMessage(cfg))
            else if |b| < 2 then d.phase == Rejected(Io)
            else if b[0] != 0x05 || b[1] != 0x02 || cfg.auth.None? then d.phase == Rejected(Socks5)
            else if |b| < 4 then d.phase == Rejected(Io)
            else d.phase == Rejected(AuthFailed)
  {
    hide RunClient, ConnectMessage, AuthMessage;
    assert b[0..] == b && sent + [] == sent;
    SomethingToSay(cfg);
    ClientAt(cfg, AwaitMethod, b, 0, sent);
    if |b| >= 2 {
      Ended(cfg, Rejected(Socks5), b[2..], sent);
    }
    if |b| >= 2 && b[0] == 0x05 && b[1] == 0x02 && cfg.auth.Some? {
      var said := sent + AuthMessage(cfg.auth.value.username, cfg.auth.value.password);
      ClientAt(cfg, AwaitAuthReply, b, 2, said);
      if |b| >= 4 {
        Ended(cfg, Rejected(AuthFailed), b[4..], said);
      }
    }
  }

  lemma SomethingToSay(cfg: ClientConfig)
    ensures ConnectMessage(cfg) != []
    ensures cfg.auth.Some? ==> AuthMessage(cfg.auth.value.username, cfg.auth.value.password) != []
  {
  }

  /** Exactly what each error of the client means. */
  lemma RejectedIff(cfg: ClientConfig, b: seq<byte>, sent: seq<byte>)
    ensures var p, n := RunClient(cfg, AwaitMethod, b, sent).phase, Negotiation(cfg, b);
            && (p == Rejected(Socks5) <==>
                  |b| >= 2 && !(b[0] == 0x05 && (b[1] == 0x00 || (b[1] == 0x02 && cfg.auth.Some?))))
            && (p == Rejected(AuthFailed) <==>
                  |b| >= 4 && b[0] == 0x05 && b[1] == 0x02 && cfg.auth.Some? && b[3] != 0x00)
            && (p == Rejected(Upstream) <==> n > 0 && |b| >= n + 4 && b[n + 1] != 0x00)
            && (p == Established || p == Rejected(Socks5) || p == Rejected(AuthFailed) || p == Rejected(Upstream)
                || p == Rejected(Io))
  {
    hide RunClient, ConnectMessage, AuthMessage;
    NegotiationRun(cfg, b, sent);
    var n := Negotiation(cfg, b);
    if n > 0 {
      var auth := if n == 4 then AuthMessage(cfg.auth.value.username, cfg.auth.value.password) else [];
      ReplyRun(cfg, b[n..], sent + auth + ConnectMessage(cfg));
    }
  }

  /** One SOCKS5 hop: what the client is configured with, and what an accepting proxy answers. */
  datatype Hop = Hop(cfg: ClientConfig, asksForPassword: bool, version: byte, head: seq<byte>, bound: TargetAddr)

  predicate Accepting(h: Hop) {
    (h.asksForPassword ==> h.cfg.auth.Some?) && |h.head| == 3 && h.head[1] == 0x00 && Encodable(h.bound)
  }

  /** What it answers over the whole hop. */
  function HopReplies(h: Hop): seq<byte> {
    (if h.asksForPassword then [0x05, 0x02] + [h.version, 0x00] else [0x05, 0x00]) + h.head + EncodeTarget(h.bound)
  }

  /** What the client writes over the whole hop, after its greeting and before its request. */
  function HopAuth(h: Hop): seq<byte>
    requires Accepting(h)
  {
    if h.asksForPassword then AuthMessage(h.cfg.auth.value.username, h.cfg.auth.value.password) else []
  }

  lemma PlainSteps(cfg: ClientConfig, reply: seq<byte>, sent: seq<byte>)
    ensures RunClient(cfg, AwaitMethod, [0x05, 0x00] + reply, sent)
         == RunClient(cfg, AwaitReply, reply, sent + ConnectMessage(cfg))
  {
    ClientStep(cfg, AwaitMethod, [0x05, 0x00], reply, sent);
  }

  lemma PasswordSteps(cfg: ClientConfig, version: byte, reply: seq<byte>, sent: seq<byte>)
    requires cfg.auth.Some?
    ensures RunClient(cfg, AwaitMethod, [0x05, 0x02] + ([version, 0x00] + reply), sent)
         == RunClient(cfg, AwaitReply, reply,
                      sent + AuthMessage(cfg.auth.value.username, cfg.auth.value.password) + ConnectMessage(cfg))
  {
    var auth := AuthMessage(cfg.auth.value.username, cfg.auth.value.password);
    ClientStep(cfg, AwaitMethod, [0x05, 0x02], [version, 0x00] + reply, sent);
    ClientStep(cfg, AwaitAuthReply, [version, 0x00], reply, sent + auth);
  }

  /** Over an accepting hop the client writes its messages, reads the replies and nothing else, and succeeds. */
  lemma HopIsExact(h: Hop, tail: seq<byte>, sent: seq<byte>)
    requires Accepting(h)
    ensures RunClient(h.cfg, AwaitMethod, HopReplies(h) + tail, sent)
         == Dialogue(Established, tail, sent + HopAuth(h) + ConnectMessage(h.cfg))
  {
    var e := EncodeTarget(h.bound);
    var wrote := sent + HopAuth(h);
    ReplyIsConsumed(h.cfg, h.head, h.bound, tail, wrote + ConnectMessage(h.cfg));
    if h.asksForPassword {
      Regroup([0x05, 0x02], [h.version, 0x00], h.head, e, tail);
      PasswordSteps(h.cfg, h.version, h.head + e + tail, sent);
    } else {
      Regroup([0x05, 0x00], [], h.head, e, tail);
      PlainSteps(h.cfg, h.head + e + tail, sent);
      assert wrote == sent;
    }
  }

  lemma Regroup(a: seq<byte>, b: seq<byte>, c: seq<byte>, d: seq<byte>, e: seq<byte>)
    ensures (a + b) + c + d + e == a + (b + (c + d + e))
    ensures b == [] ==> a + c + d + e == a + (c + d + e)
  {
  }

  /** The hop this repository's server makes of a client: what it asks for and what it answers to an authorized one. */
  function HopOf(cfg: ClientConfig, users: Users): Hop {
    Hop(cfg, users.Some?, 0x01, [0x05, 0x00, 0x00], Ipv4([0, 0, 0, 0], 0))
  }

  /** What the client sends over that hop reaches the request with exactly the bytes of the request left. */
  lemma ClientIsAdmitted(cfg: ClientConfig, users: Users, rest: seq<byte>)
    requires users.Some? ==> cfg.auth.Some? && cfg.auth.value in users.value
    requires users.Some? ==> |cfg.auth.value.username| <= 255 && |cfg.auth.value.password| <= 255
    ensures Admitted(users, Greeting(cfg) + HopAuth(HopOf(cfg, users)) + rest, rest)
  {
    hide AuthMessage;
    var methods: seq<byte> := if cfg.auth.Some? then [0x00, 0x02] else [0x00];
    assert MethodMessage(methods) == Greeting(cfg);
    var input := Greeting(cfg) + HopAuth(HopOf(cfg, users)) + rest;
    if users.None? {
      assert Greeting(cfg) + [] == Greeting(cfg);
      assert OpenAdmission(methods, input, rest);
    } else {
      assert CheckedAdmission(methods, cfg.auth.value, input, rest);
    }
  }

  /**
   * The server's side of the hop: given everything an authorized client writes, it tunnels to the client's target, has
   * answered exactly what an accepting hop answers, and leaves every later byte unread.
   */
  lemma ServerIsAcceptingHop(cfg: ClientConfig, users: Users, env: Environment, starved: ProxyError, rest: seq<byte>)
    requires Encodable(cfg.target) && env.dial(cfg.target)
    requires users.Some? ==> cfg.auth.Some? && cfg.auth.value in users.value
    requires users.Some? ==> |cfg.auth.value.username| <= 255 && |cfg.auth.value.password| <= 255
    ensures var h := HopOf(cfg, users);
            && Accepting(h)
            && ServeAll(users, env, starved, Greeting(cfg) + HopAuth(h) + (ConnectMessage(cfg) + rest), [])
               == Session(Tunnelling(cfg.target), rest, HopReplies(h))
  {
    hide RunServer, Admitted, HopAuth, Greeting, ConnectMessage, HopReplies, Reply, Places, AdmissionReplies;
    var h, request := HopOf(cfg, users), SocksRequest(Connect, cfg.target);
    var mid := ConnectMessage(cfg) + rest;
    ClientIsAdmitted(cfg, users, mid);
    RequestIsPlaced(cfg, rest);
    PlacingSession(users, starved, Greeting(cfg) + HopAuth(h) + mid, mid, request, rest);
    RepliesAreHop(cfg, users);
  }

  lemma RequestIsPlaced(cfg: ClientConfig, rest: seq<byte>)
    requires Encodable(cfg.target)
    ensures Places(ConnectMessage(cfg) + rest, SocksRequest(Connect, cfg.target), rest)
  {
    hide EncodeTarget, ValidUtf8;
  }

  lemma RepliesAreHop(cfg: ClientConfig, users: Users)
    ensures AdmissionReplies(users) + Reply(0x00, 0) == HopReplies(HopOf(cfg, users))
  {
  }

  /** However it goes, a handshake ends, and it takes its bytes off the front. */
  lemma {:induction false} ClientEnds(cfg: ClientConfig, p: ClientPhase, input: seq<byte>, sent: seq<byte>)
    ensures var d := RunClient(cfg, p, input, sent); !d.phase.Waiting() && |d.rest| <= |input|
    decreases p.Rank()
  {
    hide ConnectMessage;
    if p.Waiting() && |input| >= p.Need() {
      var n := p.Need();
      var (next, out) := OnReply(cfg, p, input[..n]);
      ClientEnds(cfg, next, input[n..], Written(sent, out));
    }
  }
}
