/** `host:port` texts: the printer, the two parsers and the host extractor. */
module HostPort {
  import opened Bytes

  const COLON: byte := 0x3A
  const PLUS: byte := 0x2B

  /** A connection target as a host and a port. */
  datatype ConnectTarget = ConnectTarget(host: Text, port: u16)

  function Decimal(n: nat): (s: seq<byte>)
    ensures s != [] && forall i :: 0 <= i < |s| ==> 0x30 <= s[i] <= 0x39
  {
    if n < 10 then [(0x30 + n) as byte] else Decimal(n / 10) + [(0x30 + n % 10) as byte]
  }

  /** The number a text of digits denotes. */
  function DigitsValue(s: seq<byte>): Option<nat> {
    if s == [] then Some(0)
    else
      var last := s[|s| - 1];
      var init := DigitsValue(s[..|s| - 1]);
      if init.None? || !(0x30 <= last <= 0x39) then None
      else Some(init.value * 10 + (last - 0x30) as nat)
  }

  /** `str::parse::<u16>`: an optional plus sign, then digits, with an overflow check. */
  function ParseU16(s: seq<byte>): Option<u16> {
    var digits := if |s| > 1 && s[0] == PLUS then s[1..] else s;
    if digits == [] then None
    else
      match DigitsValue(digits)
      case None => None
      case Some(n) => if n < 0x1_0000 then Some(n) else None
  }

  /** `str::rfind(':')`. */
  function LastColon(s: seq<byte>): (r: Option<nat>)
    ensures r.Some? ==> r.value < |s| && s[r.value] == COLON && COLON !in s[r.value + 1..]
    ensures r.None? ==> COLON !in s
  {
    if s == [] then None
    else if s[|s| - 1] == COLON then Some(|s| - 1)
    else
      var r := LastColon(s[..|s| - 1]);
      assert s == s[..|s| - 1] + [s[|s| - 1]];
      r
  }

  function PrintAddr(t: ConnectTarget): seq<byte> {
    t.host + [COLON] + Decimal(t.port)
  }

  /** Parsing in the chain connector. */
  function ParseAddrToTarget(addr: Text): Result<ConnectTarget> {
    match LastColon(addr)
    case None => Err(Upstream)
    case Some(colon) =>
      match ParseU16(addr[colon + 1..])
      case None => Err(Upstream)
      case Some(port) => Utf8Cut(addr, colon); Ok(ConnectTarget(addr[..colon], port))
  }

  /** Parsing of the authority of an HTTP CONNECT request. */
  function ParseHostPort(authority: Text): Option<(Text, u16)> {
    match LastColon(authority)
    case None => None
    case Some(colon) =>
      Utf8Cut(authority, colon);
      var host: Text := authority[..colon];
      match ParseU16(authority[colon + 1..])
      case None => None
      case Some(port) => Some((host, port))
  }

  function ExtractHost(addr: Text): Text {
    match LastColon(addr)
    case None => addr
    case Some(colon) => Utf8Cut(addr, colon); addr[..colon]
  }

  lemma LastColonAt(s: seq<byte>, i: nat)
    requires i < |s| && s[i] == COLON && COLON !in s[i + 1..]
    ensures LastColon(s) == Some(i)
  {
  }

  function Zeros(n: nat): (s: seq<byte>)
    ensures |s| == n && forall i :: 0 <= i < n ==> s[i] == 0x30
  {
    seq(n, _ => 0x30)
  }

  /** A way to write a number: perhaps a plus sign, any zeros, then its digits. */
  function Written(plus: bool, zeros: nat, n: nat): seq<byte> {
    (if plus then [0x2B] else []) + (Zeros(zeros) + Decimal(n))
  }

  lemma {:induction false} DigitsOf(s: seq<byte>) returns (zeros: nat)
    requires s != [] && DigitsValue(s).Some?
    ensures s == Zeros(zeros) + Decimal(DigitsValue(s).value)
    decreases |s|
  {
    var init, last := s[..|s| - 1], s[|s| - 1];
    assert s == init + [last];
    if init == [] {
      assert s == Zeros(0) + [last];
      return 0;
    }
    var before := DigitsOf(init);
    var v, n := DigitsValue(init).value, DigitsValue(s).value;
    if v == 0 {
      assert Zeros(before) + [0x30] == Zeros(before + 1);
      return before + 1;
    }
    assert n / 10 == v && n % 10 == (last - 0x30) as nat;
    assert Decimal(n) == Decimal(v) + [last];
    return before;
  }

  lemma {:induction false} ZerosThenDigits(zeros: nat, n: nat)
    ensures DigitsValue(Zeros(zeros) + Decimal(n)) == Some(n)
    decreases n, zeros
  {
    var s := Zeros(zeros) + Decimal(n);
    if n >= 10 {
      assert s[..|s| - 1] == Zeros(zeros) + Decimal(n / 10);
      ZerosThenDigits(zeros, n / 10);
    } else if zeros > 0 {
      assert s[..|s| - 1] == Zeros(zeros - 1) + Decimal(0);
      ZerosThenDigits(zeros - 1, 0);
    } else {
      assert s[..|s| - 1] == [];
    }
  }

  /** The port parser accepts a text exactly when it is a way to write the port. */
  lemma ParseU16Iff(s: seq<byte>, p: u16)
    ensures ParseU16(s) == Some(p) <==> exists plus, zeros :: s == Written(plus, zeros, p)
  {
    hide DigitsValue, Decimal;
    if ParseU16(s) == Some(p) {
      var plus := |s| > 1 && s[0] == PLUS;
      var digits := if plus then s[1..] else s;
      var zeros := DigitsOf(digits);
      assert s == Written(plus, zeros, p);
    }
    forall plus, zeros | s == Written(plus, zeros, p) ensures ParseU16(s) == Some(p) {
      var digits := Zeros(zeros) + Decimal(p);
      ZerosThenDigits(zeros, p);
      FirstDigit(zeros, p);
      if plus {
        assert s[0] == PLUS && s[1..] == digits;
      } else {
        assert s == digits;
      }
    }
  }

  lemma FirstDigit(zeros: nat, n: nat)
    ensures var s := Zeros(zeros) + Decimal(n);
            && s != [] && s[0] != PLUS && COLON !in s
            && COLON !in Written(true, zeros, n) && COLON !in Written(false, zeros, n)
  {
    hide Decimal;
    var s := Zeros(zeros) + Decimal(n);
    assert forall i :: 0 <= i < |s| ==> 0x30 <= s[i] <= 0x39;
  }

  /**
   * Exactly which texts parse, and to what: a host, a colon, and a way to write a port of at most 65535. So a text
   * without a colon is refused, and an empty port, one with another character in it, and one that is too large.
   */
  lemma ParseIff(addr: Text, t: ConnectTarget)
    ensures ParseAddrToTarget(addr) == Ok(t)
       <==> exists plus, zeros :: addr == t.host + [0x3A] + Written(plus, zeros, t.port)
  {
    hide ParseU16, DigitsValue, Decimal, Written;
    if ParseAddrToTarget(addr) == Ok(t) {
      var i := LastColon(addr).value;
      ParseU16Iff(addr[i + 1..], t.port);
      var plus, zeros :| addr[i + 1..] == Written(plus, zeros, t.port);
      assert addr == t.host + [COLON] + addr[i + 1..];
    }
    forall plus, zeros | addr == t.host + [0x3A] + Written(plus, zeros, t.port)
      ensures ParseAddrToTarget(addr) == Ok(t)
    {
      var port := Written(plus, zeros, t.port);
      FirstDigit(zeros, t.port);
      ParseU16Iff(port, t.port);
      assert addr[|t.host| + 1..] == port && addr[..|t.host|] == t.host;
      LastColonAt(addr, |t.host|);
    }
  }

  /** For example: no digits, nothing, too large. */
  lemma BadPortsAreRefused()
    ensures ParseU16(Ascii("h")) == None && ParseU16(Ascii("8h")) == None && ParseU16([]) == None
    ensures ParseU16(Ascii("+")) == None && ParseU16(Ascii("65536")) == None
    ensures ParseU16(Ascii("443")) == Some(443) && Decimal(443) == Ascii("443")
  {
    Digits3(0x34, 0x34, 0x33);
    var s: seq<byte> := Ascii("65536");
    assert s == [0x36, 0x35, 0x35, 0x33, 0x36];
    assert s[..4] == [0x36, 0x35, 0x35, 0x33];
    assert [0x36, 0x35, 0x35, 0x33][..3] == [0x36, 0x35, 0x35];
    Digits3(0x36, 0x35, 0x35);
    assert DigitsValue([0x36, 0x35, 0x35, 0x33]) == Some(6553);
    assert DigitsValue(s) == Some(65536);
    assert Ascii("443") == [0x34, 0x34, 0x33];
    assert Ascii("h") == [0x68] && Ascii("8h") == [0x38, 0x68] && Ascii("+") == [0x2B];
    assert Decimal(44) == Decimal(4) + [0x34];
  }

  lemma Digits3(a: byte, b: byte, c: byte)
    requires 0x30 <= a <= 0x39 && 0x30 <= b <= 0x39 && 0x30 <= c <= 0x39
    ensures DigitsValue([a, b, c]) == Some((a as nat - 0x30) * 100 + (b as nat - 0x30) * 10 + (c as nat - 0x30))
  {
    assert [a, b, c][..2] == [a, b] && [a, b][..1] == [a] && [a][..0] == [];
    assert DigitsValue([a]) == Some(a as nat - 0x30);
    assert DigitsValue([a, b]) == Some((a as nat - 0x30) * 10 + (b as nat - 0x30));
  }

  lemma PrintedIsText(t: ConnectTarget)
    ensures ValidUtf8(PrintAddr(t))
  {
    hide Decimal, ValidUtf8, ScalarLength;
    var tail := [COLON] + Decimal(t.port);
    Utf8Ascii(tail);
    Utf8Concat(t.host, tail);
    assert PrintAddr(t) == t.host + tail;
  }

  /** Printing and parsing are inverse for every host, colons included, and every port. */
  lemma PrintParse(t: ConnectTarget)
    ensures ValidUtf8(PrintAddr(t))
    ensures ParseAddrToTarget(PrintAddr(t)) == Ok(t)
  {
    PrintedIsText(t);
    ParseIff(PrintAddr(t), t);
    assert Zeros(0) + Decimal(t.port) == Decimal(t.port) && [] + Decimal(t.port) == Decimal(t.port);
    assert PrintAddr(t) == t.host + [COLON] + Written(false, 0, t.port);
  }

  /** The two parsers accept the same texts with the same result, and the extracted host is the parsed one. */
  lemma ParsersAgree(addr: Text, host: Text, port: u16)
    ensures ParseHostPort(addr) == Some((host, port)) <==> ParseAddrToTarget(addr) == Ok(ConnectTarget(host, port))
    ensures ParseHostPort(addr) == Some((host, port)) ==> ExtractHost(addr) == host
  {
  }

  /** The host is what stands before the last colon, whatever follows it, or everything. */
  lemma ExtractHostIs(host: Text, tail: seq<byte>)
    requires COLON !in tail
    ensures COLON !in host ==> ExtractHost(host) == host
    ensures ValidUtf8(host + [COLON] + tail) ==> ExtractHost(host + [COLON] + tail) == host
  {
    var addr := host + [COLON] + tail;
    assert addr[|host| + 1..] == tail && addr[..|host|] == host;
    LastColonAt(addr, |host|);
  }
}
