/** What the UTF-8 check accepts: exactly the encodings of sequences of scalar values (RFC 3629, section 3). */
module Utf8 {
  import opened Bytes

  type Scalar = c: nat | c < 0xD800 || 0xE000 <= c < 0x11_0000

  /** The continuation byte that carries six bits. */
  function Tail(bits: nat): (b: byte)
    requires bits < 0x40
    ensures Continuation(b)
  {
    (0x80 + bits) as byte
  }

  /** The bytes of a value, by the range it is in and in groups of six bits. */
  function EncodeScalar(c: Scalar): seq<byte> {
    if c < 0x80 then [c as byte]
    else if c < 0x800 then [(0xC0 + c / 0x40) as byte, Tail(c % 0x40)]
    else if c < 0x1_0000 then [(0xE0 + c / 0x1000) as byte, Tail(c / 0x40 % 0x40), Tail(c % 0x40)]
    else [(0xF0 + c / 0x4_0000) as byte, Tail(c / 0x1000 % 0x40), Tail(c / 0x40 % 0x40), Tail(c % 0x40)]
  }

  function EncodeScalars(cs: seq<Scalar>): seq<byte> {
    if cs == [] then [] else EncodeScalar(cs[0]) + EncodeScalars(cs[1..])
  }

  /** Bits put together from groups of six come apart again. */
  lemma Groups(a: nat, b: nat, c: nat, d: nat)
    requires b < 0x40 && c < 0x40 && d < 0x40
    ensures (a * 0x40 + b) / 0x40 == a && (a * 0x40 + b) % 0x40 == b
    ensures var v := a * 0x1000 + b * 0x40 + c; v / 0x1000 == a && v / 0x40 % 0x40 == b && v % 0x40 == c
    ensures var v := a * 0x4_0000 + b * 0x1000 + c * 0x40 + d;
            v / 0x4_0000 == a && v / 0x1000 % 0x40 == b && v / 0x40 % 0x40 == c && v % 0x40 == d
  {
  }

  lemma TwoBytes(s: seq<byte>) returns (c: Scalar)
    requires s != [] && ScalarLength(s) == 2
    ensures EncodeScalar(c) == s[..2]
  {
    var a, b := s[0] as nat - 0xC0, s[1] as nat - 0x80;
    Groups(a, b, 0, 0);
    c := a * 0x40 + b;
    assert Tail(b) == s[1];
  }

  lemma ThreeBytes(s: seq<byte>) returns (c: Scalar)
    requires s != [] && ScalarLength(s) == 3
    ensures EncodeScalar(c) == s[..3]
  {
    var a, b, d := s[0] as nat - 0xE0, s[1] as nat - 0x80, s[2] as nat - 0x80;
    Groups(a, b, d, 0);
    c := a * 0x1000 + b * 0x40 + d;
    assert Tail(b) == s[1] && Tail(d) == s[2];
  }

  lemma FourBytes(s: seq<byte>) returns (c: Scalar)
    requires s != [] && ScalarLength(s) == 4
    ensures EncodeScalar(c) == s[..4]
  {
    var a, b, d, e := s[0] as nat - 0xF0, s[1] as nat - 0x80, s[2] as nat - 0x80, s[3] as nat - 0x80;
    Groups(a, b, d, e);
    c := a * 0x4_0000 + b * 0x1000 + d * 0x40 + e;
    assert Tail(b) == s[1] && Tail(d) == s[2] && Tail(e) == s[3];
  }

  lemma AtMostFour(s: seq<byte>)
    requires s != []
    ensures ScalarLength(s) <= 4 && (ScalarLength(s) == 1 ==> s[0] < 0x80)
  {
  }

  /** The value at the head of some bytes. */
  lemma HeadIsEncoded(s: seq<byte>) returns (c: Scalar)
    requires s != [] && ScalarLength(s) > 0
    ensures EncodeScalar(c) == s[..ScalarLength(s)]
  {
    hide ScalarLength;
    AtMostFour(s);
    if ScalarLength(s) == 1 {
      c := s[0] as nat;
    } else if ScalarLength(s) == 2 {
      c := TwoBytes(s);
    } else if ScalarLength(s) == 3 {
      c := ThreeBytes(s);
    } else {
      c := FourBytes(s);
    }
  }

  lemma EncodedHead(c: Scalar, rest: seq<byte>)
    ensures ScalarLength(EncodeScalar(c) + rest) == |EncodeScalar(c)|
  {
    hide ScalarLength;
    var s := EncodeScalar(c) + rest;
    if c < 0x80 {
      LengthFrom(s, 1);
    } else if c < 0x800 {
      assert s[1] == EncodeScalar(c)[1];
      LengthFrom(s, 2);
    } else if c < 0x1_0000 {
      assert s[1] == EncodeScalar(c)[1] && s[2] == EncodeScalar(c)[2];
      LengthFrom(s, 3);
    } else {
      assert s[1] == EncodeScalar(c)[1] && s[2] == EncodeScalar(c)[2] && s[3] == EncodeScalar(c)[3];
      LengthFrom(s, 4);
    }
  }

  /** Bytes that start as the encodings of one length do (RFC 3629, section 4). */
  lemma LengthFrom(s: seq<byte>, k: nat)
    requires 1 <= k <= 4 && |s| >= k
    requires forall i :: 1 <= i < k ==> Continuation(s[i])
    requires k == 1 ==> s[0] < 0x80
    requires k == 2 ==> 0xC2 <= s[0] < 0xE0
    requires k == 3 ==> 0xE0 <= s[0] < 0xF0 && (s[0] == 0xE0 ==> s[1] >= 0xA0) && (s[0] == 0xED ==> s[1] < 0xA0)
    requires k == 4 ==> 0xF0 <= s[0] < 0xF5 && (s[0] == 0xF0 ==> s[1] >= 0x90) && (s[0] == 0xF4 ==> s[1] < 0x90)
    ensures ScalarLength(s) == k
  {
  }

  lemma {:induction false} ValidIsEncoded(s: seq<byte>) returns (cs: seq<Scalar>)
    requires ValidUtf8(s)
    ensures EncodeScalars(cs) == s
    decreases |s|
  {
    hide EncodeScalar, ScalarLength;
    if s == [] {
      return [];
    }
    var k := ScalarLength(s);
    var c := HeadIsEncoded(s);
    var later := ValidIsEncoded(s[k..]);
    cs := [c] + later;
    assert cs[1..] == later && s == s[..k] + s[k..];
  }

  lemma {:induction false} EncodedIsValid(cs: seq<Scalar>)
    ensures ValidUtf8(EncodeScalars(cs))
    decreases |cs|
  {
    hide EncodeScalar, ScalarLength;
    if cs != [] {
      var later := EncodeScalars(cs[1..]);
      var s := EncodeScalar(cs[0]) + later;
      EncodedIsValid(cs[1..]);
      EncodedHead(cs[0], later);
      NotEmpty(cs[0]);
      assert s[|EncodeScalar(cs[0])|..] == later;
    }
  }

  lemma NotEmpty(c: Scalar)
    ensures EncodeScalar(c) != []
  {
  }

  /** Bytes are taken for text exactly when they encode some scalar values. */
  lemma ValidUtf8Iff(s: seq<byte>)
    ensures ValidUtf8(s) <==> exists cs :: EncodeScalars(cs) == s
  {
    if ValidUtf8(s) {
      var cs := ValidIsEncoded(s);
    }
    forall cs | EncodeScalars(cs) == s ensures ValidUtf8(s) {
      EncodedIsValid(cs);
    }
  }
}
