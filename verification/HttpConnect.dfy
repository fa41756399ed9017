/** The HTTP CONNECT handshake with an upstream proxy (plain connections; one text, used by two connectors). */
module HttpConnect {
  import opened Bytes
  import opened Credentials
  import opened HostPort
  import opened BasicAuth
  import opened Transport
  import opened HttpRequest

  const CRLF: seq<byte> := [0x0D, 0x0A]

  /** Request line and Host. */
  function RequestHead(address: seq<byte>): seq<byte> {
    Ascii("CONNECT ") + address + Ascii(" HTTP/1.1\r\nHost: ") + address + CRLF
  }

  function AuthLine(auth: Credential): seq<byte> {
    Ascii("Proxy-Authorization: ") + HeaderValue(auth) + CRLF
  }

  /** The request text: request line, Host, credentials if there are any, empty line. */
  function ConnectText(auth: Option<Credential>, target: ConnectTarget): seq<byte> {
    RequestHead(PrintAddr(target)) + (if auth.Some? then AuthLine(auth.value) else []) + CRLF
  }

  method BuildConnect(auth: Option<Credential>, target: ConnectTarget) returns (request: seq<byte>)
    ensures request == ConnectText(auth, target)
    ensures Plain(target.host) ==> ReadRequest(request) == Some(Read(RequestOf(auth, target), []))
  {
    hide RequestHead, AuthLine, ReadRequest, RequestOf, Plain;
    request := RequestHead(PrintAddr(target));
    if auth.Some? {
      request := request + AuthLine(auth.value);
    } else {
      assert request + [] == request;
    }
    request := request + CRLF;
    ConnectIsReadIff(auth, target, []);
    assert request + [] == request;
  }

  predicate Accepts(response: seq<byte>) {
    Ascii("HTTP/1.1 200") <= response || Ascii("HTTP/1.0 200") <= response
  }

  /** One write and one read of at most 4096 bytes: the verdict depends on that one piece, and that piece is gone. */
  method PerformHttpHandshake(stream: Stream, auth: Option<Credential>, target: ConnectTarget)
    returns (r: Result<()>, response: seq<byte>)
    requires stream.ending == Eof
    modifies stream
    ensures stream.sent == old(stream.sent) + ConnectText(auth, target)
    ensures (response, stream.inbound) == Piece(old(stream.inbound), 4096)
    ensures old(stream.Unread()) == response + stream.Unread() && |response| <= 4096
    ensures r == if Accepts(response) then Ok(()) else Err(Upstream)
  {
    hide ConnectText, Piece, Flatten;
    var request := BuildConnect(auth, target);
    stream.WriteAll(request);
    response := stream.Read(4096);
    if !(Ascii("HTTP/1.1 200") <= response) && !(Ascii("HTTP/1.0 200") <= response) {
      return Err(Upstream), response;
    }
    return Ok(()), response;
  }

  // What the request asks for, as a reader sees it.

  const CONNECT: seq<byte> := Ascii("CONNECT")
  const HTTP_1_1: seq<byte> := Ascii("HTTP/1.1")
  const HOST: seq<byte> := Ascii("Host")
  const PROXY_AUTHORIZATION: seq<byte> := Ascii("Proxy-Authorization")

  /** A host that fits on the request line. */
  predicate Plain(host: seq<byte>) {
    0x20 !in host && OneLine(host)
  }

  function FieldsOf(auth: Option<Credential>, target: ConnectTarget): seq<Field> {
    [Field(HOST, PrintAddr(target))]
    + if auth.Some? then [Field(PROXY_AUTHORIZATION, HeaderValue(auth.value))] else []
  }

  lemma AddressOnLine(before: seq<byte>, target: ConnectTarget, after: seq<byte>)
    requires forall i :: 0 <= i < |before| ==> before[i] != 0x0D
    requires forall i :: 0 <= i < |after| ==> after[i] != 0x0A
    ensures OneLine(before + PrintAddr(target) + after) <==> OneLine(target.host)
    ensures 0x20 in PrintAddr(target) <==> 0x20 in target.host
  {
    hide Decimal;
    var h, line := target.host, before + PrintAddr(target) + after;
    var k := |before|;
    assert forall i :: 0 <= i < |h| ==> line[k + i] == h[i];
    assert forall i :: 0 <= i < |Decimal(target.port)| ==> 0x30 <= Decimal(target.port)[i] <= 0x39;
    if OneLine(h) {
      forall i | 0 <= i < |line| - 1 ensures !(line[i] == 0x0D && line[i + 1] == 0x0A) {
        if k <= i < k + |h| - 1 {
          assert line[i] == h[i - k] && line[i + 1] == h[i - k + 1];
        } else if i == k + |h| - 1 {
          assert line[i + 1] == 0x3A;
        } else if k + |h| <= i < k + |PrintAddr(target)| {
          assert line[i] == PrintAddr(target)[i - k];
        }
      }
    }
    if OneLine(line) {
      forall i | 0 <= i < |h| - 1 ensures !(h[i] == 0x0D && h[i + 1] == 0x0A) {
        assert line[k + i] == h[i] && line[k + i + 1] == h[i + 1];
      }
    }
  }

  /** The credentials line and the empty line after it. */
  lemma EndIsRead(auth: Option<Credential>, rest: seq<byte>)
    ensures var fields := if auth.Some? then [Field(PROXY_AUTHORIZATION, HeaderValue(auth.value))] else [];
            ReadFields((if auth.Some? then AuthLine(auth.value) else []) + CRLF + rest) == Some(Read(fields, rest))
  {
    hide ReadFields, HeaderValue;
    var end := CRLF + rest;
    EmptyLineEnds(rest);
    if auth.None? {
      assert [] + CRLF + rest == end;
    } else {
      var name, value := PROXY_AUTHORIZATION, HeaderValue(auth.value);
      HeaderCarries(auth.value);
      NameAndColon();
      Associates(name + [0x3A, 0x20] + value + [0x0D, 0x0A], CRLF, rest);
      assert AuthLine(auth.value) == name + [0x3A, 0x20] + value + [0x0D, 0x0A];
      VisibleIsOneLine(name, value);
      FieldIsRead(name, value, end);
      assert [Field(name, value)] + [] == [Field(name, value)];
    }
  }

  lemma NameAndColon()
    ensures Ascii("Proxy-Authorization: ") == PROXY_AUTHORIZATION + [0x3A, 0x20]
  {
  }

  lemma VisibleIsOneLine(name: seq<byte>, value: seq<byte>)
    requires name == PROXY_AUTHORIZATION && Visible(value)
    ensures 0x3A !in name && OneLine(name + [0x3A, 0x20] + value)
  {
    var line := name + [0x3A, 0x20] + value;
    forall i | 0 <= i < |line| ensures line[i] != 0x0D {
      if i >= |name| + 2 {
        assert line[i] == value[i - |name| - 2];
      }
    }
  }

  /** Host, credentials and the empty line. */
  lemma FieldsAreRead(auth: Option<Credential>, target: ConnectTarget, rest: seq<byte>)
    requires Plain(target.host)
    ensures var later := (if auth.Some? then AuthLine(auth.value) else []) + CRLF + rest;
            ReadFields(HOST + [0x3A, 0x20] + PrintAddr(target) + [0x0D, 0x0A] + later)
            == Some(Read(FieldsOf(auth, target), rest))
  {
    hide ReadFields, HeaderValue, AuthLine, PrintAddr;
    EndIsRead(auth, rest);
    var name: seq<byte> := HOST;
    AddressOnLine(name + [0x3A, 0x20], target, []);
    assert name + [0x3A, 0x20] + PrintAddr(target) + [] == name + [0x3A, 0x20] + PrintAddr(target);
    FieldIsRead(name, PrintAddr(target), (if auth.Some? then AuthLine(auth.value) else []) + CRLF + rest);
  }

  /** The request, laid out for the reader. */
  lemma RequestLayout(auth: Option<Credential>, target: ConnectTarget, rest: seq<byte>)
    ensures var later := (if auth.Some? then AuthLine(auth.value) else []) + CRLF + rest;
            var fields := HOST + [0x3A, 0x20] + PrintAddr(target) + [0x0D, 0x0A] + later;
            ConnectText(auth, target) + rest
            == CONNECT + [0x20] + (PrintAddr(target) + [0x20] + HTTP_1_1) + [0x0D, 0x0A] + fields
  {
    hide AuthLine, PrintAddr;
    var auths := if auth.Some? then AuthLine(auth.value) else [];
    Words();
    Layout(CONNECT, PrintAddr(target), HTTP_1_1, HOST, auths + CRLF + rest);
    Associates(RequestHead(PrintAddr(target)) + auths, CRLF, rest);
    Associates(RequestHead(PrintAddr(target)), auths, CRLF + rest);
    Associates(auths, CRLF, rest);
  }

  lemma Words()
    ensures Ascii("CONNECT ") == CONNECT + [0x20]
    ensures Ascii(" HTTP/1.1\r\nHost: ") == [0x20] + HTTP_1_1 + [0x0D, 0x0A] + (HOST + [0x3A, 0x20])
  {
  }

  lemma Layout(verb: seq<byte>, a: seq<byte>, version: seq<byte>, host: seq<byte>, later: seq<byte>)
    ensures (verb + [0x20]) + a + ([0x20] + version + [0x0D, 0x0A] + (host + [0x3A, 0x20])) + a + [0x0D, 0x0A] + later
         == verb + [0x20] + (a + [0x20] + version) + [0x0D, 0x0A] + (host + [0x3A, 0x20] + a + [0x0D, 0x0A] + later)
  {
  }

  /** The request line the connectors write. */
  function RequestOf(auth: Option<Credential>, target: ConnectTarget): Request {
    Request(CONNECT, PrintAddr(target), HTTP_1_1, FieldsOf(auth, target))
  }

  /**
   * The request read back, with anything after it: it asks to CONNECT to exactly the target, names it as the host,
   * carries credentials if there are any, and ends at its empty line, exactly when the host has no space and no line
   * end in it.
   */
  lemma ConnectIsReadIff(auth: Option<Credential>, target: ConnectTarget, rest: seq<byte>)
    ensures ReadRequest(ConnectText(auth, target) + rest) == Some(Read(RequestOf(auth, target), rest))
       <==> Plain(target.host)
  {
    hide ReadRequest, ReadFields, ConnectText, PrintAddr, AuthLine, FieldsOf;
    AddressOnLine([], target, []);
    assert [] + PrintAddr(target) + [] == PrintAddr(target);
    if Plain(target.host) {
      var later := (if auth.Some? then AuthLine(auth.value) else []) + CRLF + rest;
      var verb: seq<byte>, version: seq<byte> := CONNECT, HTTP_1_1;
      RequestLayout(auth, target, rest);
      FieldsAreRead(auth, target, rest);
      AddressOnLine(verb + [0x20], target, [0x20] + version);
      assert verb + [0x20] + PrintAddr(target) + ([0x20] + version)
          == verb + [0x20] + (PrintAddr(target) + [0x20] + version);
      RequestLineIsRead(verb, PrintAddr(target), version,
                        HOST + [0x3A, 0x20] + PrintAddr(target) + [0x0D, 0x0A] + later);
    }
    if ReadRequest(ConnectText(auth, target) + rest) == Some(Read(RequestOf(auth, target), rest)) {
      AuthorityIsClean(ConnectText(auth, target) + rest);
    }
  }

  /** A request to connect to the target, with credentials that the server's check accepts for a list of users. */
  predicate AsksFor(r: Request, auth: Option<Credential>, target: ConnectTarget, users: seq<Credential>) {
    && r.verb == CONNECT && r.version == HTTP_1_1
    && ValidUtf8(r.authority) && ParseHostPort(r.authority) == Some((target.host, target.port))
    && |r.fields| == (if auth.Some? then 2 else 1)
    && r.fields[0] == Field(HOST, r.authority)
    && (auth.Some? ==> r.fields[1].name == PROXY_AUTHORIZATION)
    && (auth.Some? && 0x3A !in auth.value.username ==>
          (CheckProxyAuth(Some(r.fields[1].value), users) <==> auth.value in users))
  }

  /** What a proxy takes the request for. */
  lemma ConnectAsksForTarget(auth: Option<Credential>, target: ConnectTarget, rest: seq<byte>, users: seq<Credential>)
    requires Plain(target.host)
    ensures var r := ReadRequest(ConnectText(auth, target) + rest);
            r.Some? && r.value.rest == rest && AsksFor(r.value.item, auth, target, users)
  {
    hide ReadRequest, ConnectText;
    ConnectIsReadIff(auth, target, rest);
    RequestAsksFor(auth, target, users);
  }

  lemma RequestAsksFor(auth: Option<Credential>, target: ConnectTarget, users: seq<Credential>)
    ensures AsksFor(RequestOf(auth, target), auth, target, users)
  {
    hide PrintAddr, HeaderValue, CheckProxyAuth, ParseAddrToTarget, ParseHostPort;
    PrintParse(target);
    ParsersAgree(PrintAddr(target), target.host, target.port);
    if auth.Some? && 0x3A !in auth.value.username {
      ConnectorAccepted(auth.value, users);
    }
  }

  /** A response is taken for a success exactly when it starts with `HTTP/1.0 200` or `HTTP/1.1 200`. */
  lemma AcceptsIff(response: seq<byte>)
    ensures Accepts(response)
       <==> || [0x48, 0x54, 0x54, 0x50, 0x2F, 0x31, 0x2E, 0x31, 0x20, 0x32, 0x30, 0x30] <= response
            || [0x48, 0x54, 0x54, 0x50, 0x2F, 0x31, 0x2E, 0x30, 0x20, 0x32, 0x30, 0x30] <= response
  {
    assert Ascii("HTTP/1.1 200") == [0x48, 0x54, 0x54, 0x50, 0x2F, 0x31, 0x2E, 0x31, 0x20, 0x32, 0x30, 0x30];
    assert Ascii("HTTP/1.0 200") == [0x48, 0x54, 0x54, 0x50, 0x2F, 0x31, 0x2E, 0x30, 0x20, 0x32, 0x30, 0x30];
  }

  /** A refusal for want of credentials is no success, whatever follows. */
  lemma ProxyAuthenticationRequired(rest: seq<byte>)
    ensures !Accepts(Ascii("HTTP/1.1 407") + rest)
  {
    var response := Ascii("HTTP/1.1 407") + rest;
    assert response[9] == 0x34;
    AcceptsIff(response);
  }
}
