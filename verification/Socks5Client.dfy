/** The client half of SOCKS5: the handshake with an upstream proxy (one text, used by two connectors). */
module Socks5Client {
  import opened Bytes
  import opened Address
  import opened Credentials
  import opened Transport
  import opened Socks5Server
  import opened Socks5Session

  /** How the standard library reads a host as an IP literal. */
  datatype HostForms = HostForms(ipv4: Text -> Option<Octets4>, ipv6: Text -> Option<Octets16>)

  function Classify(forms: HostForms, host: Text, port: u16): TargetAddr {
    if forms.ipv4(host).Some? then Ipv4(forms.ipv4(host).value, port)
    else if forms.ipv6(host).Some? then Ipv6(forms.ipv6(host).value, port)
    else Domain(host, port)
  }

  datatype ClientConfig = ClientConfig(auth: Option<Credential>, target: TargetAddr)

  datatype ClientPhase =
    | AwaitMethod
    | AwaitAuthReply
    | AwaitReply
    | AwaitBoundLen
    | AwaitBound(n: nat)
    | Established
    | Rejected(error: ProxyError)
  {
    predicate Waiting() {
      !Established? && !Rejected?
    }

    function Need(): nat
      requires Waiting()
    {
      match this
      case AwaitMethod => 2
      case AwaitAuthReply => 2
      case AwaitReply => 4
      case AwaitBoundLen => 1
      case AwaitBound(n) => n
    }

    function Rank(): nat {
      match this
      case AwaitMethod => 5
      case AwaitAuthReply => 4
      case AwaitReply => 3
      case AwaitBoundLen => 2
      case AwaitBound(_) => 1
      case Established | Rejected(_) => 0
    }
  }

  function Greeting(cfg: ClientConfig): seq<byte> {
    if cfg.auth.Some? then [0x05, 0x02, 0x00, 0x02] else [0x05, 0x01, 0x00]
  }

  function ConnectMessage(cfg: ClientConfig): seq<byte> {
    RequestMessage(Connect, 0x00, cfg.target)
  }

  /** One completed read: the next phase, and what is written before the next read. */
  function OnReply(cfg: ClientConfig, p: ClientPhase, data: seq<byte>): (ClientPhase, seq<byte>)
    requires p.Waiting() && |data| == p.Need()
  {
    match p
    case AwaitMethod =>
      if data[0] != 0x05 then (Rejected(Socks5), [])
      else if data[1] == 0x00 then (AwaitReply, ConnectMessage(cfg))
      else if data[1] == 0x02 && cfg.auth.Some? then
        (AwaitAuthReply, AuthMessage(cfg.auth.value.username, cfg.auth.value.password))
      else (Rejected(Socks5), [])
    case AwaitAuthReply =>
      if data[1] != 0x00 then (Rejected(AuthFailed), []) else (AwaitReply, ConnectMessage(cfg))
    case AwaitReply =>
      if data[1] != 0x00 then (Rejected(Upstream), [])
      else if data[3] == 0x01 then (AwaitBound(6), [])
      else if data[3] == 0x03 then (AwaitBoundLen, [])
      else if data[3] == 0x04 then (AwaitBound(18), [])
      else (Established, [])
    case AwaitBoundLen => (AwaitBound(data[0] as nat + 2), [])
    case AwaitBound(_) => (Established, [])
  }

  datatype Dialogue = Dialogue(phase: ClientPhase, rest: seq<byte>, sent: seq<byte>)

  /** The handshake from phase `p`, with `sent` already written, on everything the peer sends before it closes. */
  function RunClient(cfg: ClientConfig, p: ClientPhase, input: seq<byte>, sent: seq<byte>): Dialogue
    decreases p.Rank()
  {
    if !p.Waiting() then Dialogue(p, input, sent)
    else
      var n := p.Need();
      if |input| < n then Dialogue(Rejected(Io), [], sent)
      else
        var (next, out) := OnReply(cfg, p, input[..n]);
        RunClient(cfg, next, input[n..], Written(sent, out))
  }

  // The program. Each contract says which phase the dialogue has come to: what it will do from there is unchanged.

  /** One exact read by a client at phase `p`. */
  method ReadAt(stream: Stream, n: nat, ghost cfg: ClientConfig, ghost p: ClientPhase) returns (r: Result<seq<byte>>)
    requires stream.ending == Eof
    requires p.Waiting() && p.Need() == n
    modifies stream`inbound
    ensures r.Ok? ==> |r.value| == n && Consumed(old(stream.inbound), stream.inbound)
    ensures RunClient(cfg, p, old(stream.Unread()), stream.sent)
         == if r.Ok? then RunClient(cfg, OnReply(cfg, p, r.value).0, stream.Unread(),
                                    Written(stream.sent, OnReply(cfg, p, r.value).1))
            else Dialogue(Rejected(r.error), stream.Unread(), stream.sent)
  {
    r := stream.ReadExact(n);
  }

  method BuildAuth(auth: Credential) returns (authReq: seq<byte>)
    ensures authReq == AuthMessage(auth.username, auth.password)
  {
    authReq := [0x01];
    authReq := authReq + [LowByte(|auth.username|)];
    authReq := authReq + auth.username;
    authReq := authReq + [LowByte(|auth.password|)];
    authReq := authReq + auth.password;
  }

  /** The RFC 1929 exchange. */
  method SendCredentials(stream: Stream, auth: Credential, ghost cfg: ClientConfig) returns (r: Result<()>)
    requires stream.ending == Eof
    modifies stream
    ensures RunClient(cfg, AwaitAuthReply, old(stream.Unread()),
                      old(stream.sent) + AuthMessage(auth.username, auth.password))
         == if r.Ok? then RunClient(cfg, AwaitReply, stream.Unread(), stream.sent + ConnectMessage(cfg))
            else Dialogue(Rejected(r.error), stream.Unread(), stream.sent)
    ensures r.Ok? ==> Consumed(old(stream.inbound), stream.inbound)
  {
    var authReq := BuildAuth(auth);
    stream.WriteAll(authReq);
    var authResp := ReadAt(stream, 2, cfg, AwaitAuthReply);
    if authResp.Err? {
      return Err(authResp.error);
    }
    if authResp.value[1] != 0x00 {
      return Err(AuthFailed);
    }
    return Ok(());
  }

  /** Phase 1: method negotiation, and authentication if the proxy asks for it. */
  method Authenticate(stream: Stream, auth: Option<Credential>, ghost cfg: ClientConfig) returns (r: Result<()>)
    requires stream.ending == Eof && cfg.auth == auth
    modifies stream
    ensures RunClient(cfg, AwaitMethod, old(stream.Unread()), old(stream.sent) + Greeting(cfg))
         == if r.Ok? then RunClient(cfg, AwaitReply, stream.Unread(), stream.sent + ConnectMessage(cfg))
            else Dialogue(Rejected(r.error), stream.Unread(), stream.sent)
    ensures r.Ok? ==> Consumed(old(stream.inbound), stream.inbound)
  {
    var methods: seq<byte> := if auth.Some? then [0x05, 0x02, 0x00, 0x02] else [0x05, 0x01, 0x00];
    stream.WriteAll(methods);
    var resp := ReadAt(stream, 2, cfg, AwaitMethod);
    if resp.Err? {
      return Err(resp.error);
    }
    if resp.value[0] != 0x05 {
      return Err(Socks5);
    }
    match resp.value[1] {
      case 0x00 => return Ok(());
      case 0x02 =>
        if auth.None? {
          return Err(Socks5);
        }
        ghost var negotiated := stream.inbound;
        r := SendCredentials(stream, auth.value, cfg);
        if r.Ok? {
          ConsumedOn(old(stream.inbound), negotiated, stream.inbound);
        }
      case _ => return Err(Socks5);
    }
  }

  /** Reads the reply and discards the bound address it carries. */
  method ReadReply(stream: Stream, ghost cfg: ClientConfig) returns (r: Result<()>)
    requires stream.ending == Eof
    modifies stream`inbound
    ensures RunClient(cfg, AwaitReply, old(stream.Unread()), stream.sent)
         == Dialogue(if r.Ok? then Established else Rejected(r.error), stream.Unread(), stream.sent)
    ensures r.Ok? ==> Consumed(old(stream.inbound), stream.inbound)
  {
    var header := ReadAt(stream, 4, cfg, AwaitReply);
    if header.Err? {
      return Err(header.error);
    }
    if header.value[1] != 0x00 {
      return Err(Upstream);
    }
    ghost var headed := stream.inbound;
    match header.value[3] {
      case 0x01 =>
        var buf := ReadAt(stream, 6, cfg, AwaitBound(6));
        if buf.Err? {
          return Err(buf.error);
        }
        ConsumedOn(old(stream.inbound), headed, stream.inbound);
      case 0x03 =>
        var len := ReadAt(stream, 1, cfg, AwaitBoundLen);
        if len.Err? {
          return Err(len.error);
        }
        ghost var measured := stream.inbound;
        var buf := ReadAt(stream, len.value[0] as nat + 2, cfg, AwaitBound(len.value[0] as nat + 2));
        if buf.Err? {
          return Err(buf.error);
        }
        ConsumedOn(headed, measured, stream.inbound);
        ConsumedOn(old(stream.inbound), headed, stream.inbound);
      case 0x04 =>
        var buf := ReadAt(stream, 18, cfg, AwaitBound(18));
        if buf.Err? {
          return Err(buf.error);
        }
        ConsumedOn(old(stream.inbound), headed, stream.inbound);
      case _ =>
    }
    return Ok(());
  }

  /** The CONNECT request on the wire: the host as an IPv4 literal, else an IPv6 literal, else a name; then the port. */
  function RequestBytes(forms: HostForms, host: Text, port: u16): seq<byte> {
    [0x05, 0x01, 0x00]
    + (if forms.ipv4(host).Some? then [0x01] + forms.ipv4(host).value
       else if forms.ipv6(host).Some? then [0x04] + forms.ipv6(host).value
       else [0x03, (|host| % 0x100) as byte] + host)
    + [(port / 0x100) as byte, (port % 0x100) as byte]
  }

  lemma RequestOnWire(forms: HostForms, host: Text, port: u16)
    ensures RequestMessage(Connect, 0x00, Classify(forms, host, port)) == RequestBytes(forms, host, port)
  {
    hide ValidUtf8;
    assert CommandCode(Connect) == 0x01;
    var t := Classify(forms, host, port);
    match t
    case Ipv4(a, _) => Associates([0x05, 0x01, 0x00], [0x01] + a, BigEndian(port));
    case Ipv6(a, _) => Associates([0x05, 0x01, 0x00], [0x04] + a, BigEndian(port));
    case Domain(d, _) => Associates([0x05, 0x01, 0x00], [0x03, LowByte(|d|)] + d, BigEndian(port));
  }

  /** The CONNECT request for a host, as an IP literal if it reads as one. */
  method BuildRequest(forms: HostForms, host: Text, port: u16) returns (req: seq<byte>)
    ensures req == RequestMessage(Connect, 0x00, Classify(forms, host, port))
    ensures req == RequestBytes(forms, host, port)
  {
    hide ValidUtf8;
    RequestOnWire(forms, host, port);
    req := [0x05, 0x01, 0x00];
    if forms.ipv4(host).Some? {
      ConcatAssociates(req, [0x01], forms.ipv4(host).value, BigEndian(port));
      req := req + [0x01];
      req := req + forms.ipv4(host).value;
    } else if forms.ipv6(host).Some? {
      ConcatAssociates(req, [0x04], forms.ipv6(host).value, BigEndian(port));
      req := req + [0x04];
      req := req + forms.ipv6(host).value;
    } else {
      ConcatAssociates(req, [0x03, LowByte(|host|)], host, BigEndian(port));
      req := req + [0x03];
      req := req + [LowByte(|host|)];
      assert req == [0x05, 0x01, 0x00] + [0x03, LowByte(|host|)];
      req := req + host;
    }
    req := req + BigEndian(port);
  }

  predicate EndsWith(s: seq<byte>, end: seq<byte>) {
    |end| <= |s| && s[|s| - |end|..] == end
  }

  /** On a stream whose peer eventually closes: result, unread rest and output are those of the machine. */
  method PerformSocks5Handshake(stream: Stream, auth: Option<Credential>, forms: HostForms, host: Text, port: u16)
    returns (r: Result<()>)
    requires stream.ending == Eof
    modifies stream
    ensures var cfg := ClientConfig(auth, Classify(forms, host, port));
            && RunClient(cfg, AwaitMethod, old(stream.Unread()), old(stream.sent) + Greeting(cfg))
            == Dialogue(if r.Ok? then Established else Rejected(r.error), stream.Unread(), stream.sent)
    ensures r.Ok? ==> Consumed(old(stream.inbound), stream.inbound)
    ensures r.Ok? ==> EndsWith(stream.sent, RequestBytes(forms, host, port))
  {
    hide RequestBytes;
    ghost var cfg := ClientConfig(auth, Classify(forms, host, port));
    r := Authenticate(stream, auth, cfg);
    if r.Err? {
      return;
    }
    ghost var authenticated := stream.inbound;
    var req := BuildRequest(forms, host, port);
    stream.WriteAll(req);
    assert EndsWith(stream.sent, req);
    r := ReadReply(stream, cfg);
    if r.Ok? {
      ConsumedOn(old(stream.inbound), authenticated, stream.inbound);
    }
  }
}
