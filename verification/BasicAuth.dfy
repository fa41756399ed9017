/** HTTP Basic credentials: the header both connectors send and the check the server applies. */
module BasicAuth {
  import opened Bytes
  import opened Base64
  import opened Credentials

  const COLON: byte := 0x3A
  const BASIC: seq<byte> := [0x42, 0x61, 0x73, 0x69, 0x63, 0x20]  // "Basic "

  /** ASCII white space. */
  predicate Blank(c: byte) {
    c == 0x20 || 0x09 <= c <= 0x0D
  }

  function TrimStart(s: seq<byte>): seq<byte> {
    if s != [] && Blank(s[0]) then TrimStart(s[1..]) else s
  }

  function TrimEnd(s: seq<byte>): seq<byte> {
    if s != [] && Blank(s[|s| - 1]) then TrimEnd(s[..|s| - 1]) else s
  }

  function Trim(s: seq<byte>): seq<byte> {
    TrimEnd(TrimStart(s))
  }

  /** `str::find(':')`. */
  function FirstColon(s: seq<byte>): (r: Option<nat>)
    ensures r.Some? ==> r.value < |s| && s[r.value] == COLON && COLON !in s[..r.value]
    ensures r.None? ==> COLON !in s
  {
    if s == [] then None
    else if s[0] == COLON then Some(0)
    else
      match FirstColon(s[1..])
      case None => assert s == [s[0]] + s[1..]; None
      case Some(i) => assert s[..i + 1] == [s[0]] + s[1..][..i]; Some(i + 1)
  }

  function Join(c: Credential): seq<byte> {
    c.username + [COLON] + c.password
  }

  function HeaderValue(c: Credential): seq<byte> {
    BASIC + Encode(Join(c))
  }

  /** `username:password`, split at the first colon. */
  function SplitCredential(s: seq<byte>): Option<Credential> {
    if !ValidUtf8(s) then None
    else
      match FirstColon(s)
      case None => None
      case Some(i) => Utf8Cut(s, i); Some(Credential(s[..i], s[i + 1..]))
  }

  function ParseBasicAuth(header: seq<byte>): Option<Credential> {
    var value := Trim(header);
    if !(BASIC <= value) then None
    else
      match Decode(value[6..])
      case None => None
      case Some(decoded) => SplitCredential(decoded)
  }

  /** What a header value may contain for its text to be read at all. */
  predicate Visible(header: seq<byte>) {
    forall i :: 0 <= i < |header| ==> 0x20 <= header[i] <= 0x7E || header[i] == 0x09
  }

  predicate CheckProxyAuth(header: Option<seq<byte>>, users: seq<Credential>) {
    match header
    case None => false
    case Some(value) =>
      if !Visible(value) then false
      else
        match ParseBasicAuth(value)
        case None => false
        case Some(c) => VerifyCredentials(c.username, c.password, users)
  }

  lemma JoinIsText(c: Credential)
    ensures ValidUtf8(Join(c))
  {
    Utf8Ascii([COLON]);
    Utf8Concat(c.username, [COLON]);
    Utf8Concat(c.username + [COLON], c.password);
  }

  lemma SplitIff(s: seq<byte>, c: Credential)
    ensures SplitCredential(s) == Some(c) <==> COLON !in c.username && s == Join(c)
  {
    if SplitCredential(s) == Some(c) {
      var i := FirstColon(s).value;
      assert s == s[..i] + [COLON] + s[i + 1..];
    }
    if COLON !in c.username && s == Join(c) {
      JoinIsText(c);
      FirstColonAt(s, |c.username|);
      assert s[..|c.username|] == c.username && s[|c.username| + 1..] == c.password;
    }
  }

  lemma FirstColonAt(s: seq<byte>, i: nat)
    requires i < |s| && s[i] == COLON && COLON !in s[..i]
    ensures FirstColon(s) == Some(i)
  {
  }

  /** White space that may surround a header value. */
  predicate AllBlank(s: seq<byte>) {
    forall i :: 0 <= i < |s| ==> s[i] in {0x20, 0x09, 0x0A, 0x0B, 0x0C, 0x0D}
  }

  /** The text that carries a credential (RFC 7617, section 2), between blanks. */
  predicate Carries(header: seq<byte>, c: Credential, before: seq<byte>, after: seq<byte>) {
    && AllBlank(before) && AllBlank(after)
    && header == before + (Ascii("Basic ") + Encode(c.username + Ascii(":") + c.password)) + after
  }

  lemma {:induction false} TrimStartCuts(s: seq<byte>) returns (before: seq<byte>)
    ensures AllBlank(before) && s == before + TrimStart(s)
    ensures TrimStart(s) != [] ==> !Blank(TrimStart(s)[0])
    decreases |s|
  {
    before := [];
    if s != [] && Blank(s[0]) {
      var b := TrimStartCuts(s[1..]);
      before := [s[0]] + b;
      assert s == [s[0]] + s[1..];
    }
  }

  lemma {:induction false} TrimEndCuts(s: seq<byte>) returns (after: seq<byte>)
    ensures AllBlank(after) && s == TrimEnd(s) + after
    decreases |s|
  {
    after := [];
    if s != [] && Blank(s[|s| - 1]) {
      var n := |s| - 1;
      var b := TrimEndCuts(s[..n]);
      after := b + [s[n]];
      assert s == s[..n] + [s[n]];
    }
  }

  lemma {:induction false} BlanksAreCut(before: seq<byte>, t: seq<byte>)
    requires AllBlank(before) && t != [] && !Blank(t[0])
    ensures TrimStart(before + t) == t
    decreases |before|
  {
    if before == [] {
      assert before + t == t;
    } else {
      assert (before + t)[1..] == before[1..] + t;
      BlanksAreCut(before[1..], t);
    }
  }

  lemma {:induction false} BlanksAreCutOff(t: seq<byte>, after: seq<byte>)
    requires AllBlank(after) && t != [] && !Blank(t[|t| - 1])
    ensures TrimEnd(t + after) == t
    decreases |after|
  {
    if after == [] {
      assert t + after == t;
    } else {
      var n := |after| - 1;
      assert (t + after)[..|t + after| - 1] == t + after[..n];
      BlanksAreCutOff(t, after[..n]);
    }
  }

  /** A header trims to a text without blanks at its ends exactly when it is that text between blanks. */
  lemma TrimIff(s: seq<byte>, t: seq<byte>)
    requires t != [] && !Blank(t[0]) && !Blank(t[|t| - 1])
    ensures Trim(s) == t <==> exists before, after :: AllBlank(before) && AllBlank(after) && s == before + t + after
  {
    if Trim(s) == t {
      var before := TrimStartCuts(s);
      var after := TrimEndCuts(TrimStart(s));
      assert s == before + t + after;
    }
    forall before, after | AllBlank(before) && AllBlank(after) && s == before + t + after ensures Trim(s) == t {
      assert s == before + (t + after);
      BlanksAreCut(before, t + after);
      BlanksAreCutOff(t, after);
    }
  }

  lemma HeaderHasNoBlankEnds(c: Credential)
    ensures var h := HeaderValue(c); h != [] && !Blank(h[0]) && !Blank(h[|h| - 1])
    ensures HeaderValue(c) == Ascii("Basic ") + Encode(c.username + Ascii(":") + c.password)
  {
    EncodeIsVisible(Join(c));
    var h := HeaderValue(c);
    assert h[0] == 0x42 && h[|h| - 1] == Encode(Join(c))[|Encode(Join(c))| - 1];
    assert Ascii(":") == [COLON] && Ascii("Basic ") == BASIC;
  }

  lemma CarriesIff(header: seq<byte>, c: Credential)
    ensures Trim(header) == HeaderValue(c) <==> exists before, after :: Carries(header, c, before, after)
  {
    hide Trim, Encode, HeaderValue, Blank;
    HeaderHasNoBlankEnds(c);
    TrimIff(header, HeaderValue(c));
    if Trim(header) == HeaderValue(c) {
      var before, after :| AllBlank(before) && AllBlank(after) && header == before + HeaderValue(c) + after;
      assert Carries(header, c, before, after);
    }
    forall before, after | Carries(header, c, before, after) ensures Trim(header) == HeaderValue(c) {
      assert header == before + HeaderValue(c) + after;
    }
  }

  lemma ParsedIsTrimmed(header: seq<byte>, c: Credential)
    ensures ParseBasicAuth(header) == Some(c) <==> COLON !in c.username && Trim(header) == HeaderValue(c)
  {
    var value := Trim(header);
    if BASIC <= value {
      assert value == BASIC + value[6..];
      if Decode(value[6..]).Some? {
        SplitIff(Decode(value[6..]).value, c);
        EncodeDecode(value[6..]);
      }
    }
    if Trim(header) == HeaderValue(c) {
      assert value[6..] == Encode(Join(c));
      DecodeEncode(Join(c));
      SplitIff(Join(c), c);
    }
  }

  /** Exactly which headers parse to a credential: the text that carries it between blanks, its name without a colon. */
  lemma ParseBasicIff(header: seq<byte>, c: Credential)
    ensures ParseBasicAuth(header) == Some(c)
       <==> COLON !in c.username && exists before, after :: Carries(header, c, before, after)
  {
    hide ParseBasicAuth, Trim, HeaderValue, Carries;
    ParsedIsTrimmed(header, c);
    CarriesIff(header, c);
  }

  lemma HeaderCarries(c: Credential)
    ensures Carries(HeaderValue(c), c, [], []) && Visible(HeaderValue(c))
  {
    EncodeIsVisible(Join(c));
    HeaderHasNoBlankEnds(c);
    var h := HeaderValue(c);
    assert h == [] + h + [];
  }

  /** What a connector sends is read back as the same pair exactly when the user name has no colon. */
  lemma BasicRoundTripIff(c: Credential)
    ensures ParseBasicAuth(HeaderValue(c)) == Some(c) <==> COLON !in c.username
  {
    hide ParseBasicAuth, HeaderValue, Carries;
    HeaderCarries(c);
    ParseBasicIff(HeaderValue(c), c);
  }

  /**
   * The server accepts a header exactly when it is visible text, tabs included, that carries the credential of a listed
   * user whose name has no colon.
   */
  lemma CheckProxyAuthIff(header: seq<byte>, users: seq<Credential>)
    ensures CheckProxyAuth(Some(header), users)
       <==> && (forall i :: 0 <= i < |header| ==> 0x20 <= header[i] < 0x7F || header[i] == 0x09)
            && exists c, before, after :: c in users && COLON !in c.username && Carries(header, c, before, after)
  {
    hide ParseBasicAuth, Carries;
    if ParseBasicAuth(header).Some? {
      var p := ParseBasicAuth(header).value;
      ParseBasicIff(header, p);
      assert VerifyCredentials(p.username, p.password, users) <==> p in users;
    }
    forall c, before, after | c in users && COLON !in c.username && Carries(header, c, before, after)
      ensures ParseBasicAuth(header) == Some(c)
    {
      ParseBasicIff(header, c);
    }
  }

  /** A connector with a colon-free user name is accepted exactly when its pair is in the list. */
  lemma ConnectorAccepted(c: Credential, users: seq<Credential>)
    requires COLON !in c.username
    ensures CheckProxyAuth(Some(HeaderValue(c)), users) <==> c in users
  {
    hide ParseBasicAuth, HeaderValue, Carries;
    HeaderCarries(c);
    BasicRoundTripIff(c);
    assert VerifyCredentials(c.username, c.password, users) <==> c in users;
  }

  /** The list decides about a connector, whatever the list is, exactly when its user name has no colon. */
  lemma ConnectorAcceptedIff(c: Credential)
    ensures (forall users: seq<Credential> :: CheckProxyAuth(Some(HeaderValue(c)), users) <==> c in users)
       <==> COLON !in c.username
  {
    hide CheckProxyAuth, HeaderValue, Carries;
    if COLON !in c.username {
      forall users: seq<Credential> ensures CheckProxyAuth(Some(HeaderValue(c)), users) <==> c in users {
        ConnectorAccepted(c, users);
      }
    } else {
      CheckProxyAuthIff(HeaderValue(c), [c]);
      assert c in [c] && forall d :: d in [c] ==> d == c;
      assert !CheckProxyAuth(Some(HeaderValue(c)), [c]);
    }
  }
}
