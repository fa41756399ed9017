/** The address field shared by the SOCKS5 request, the SOCKS5 UDP header and the upstream client. */
module Address {
  import opened Bytes

  type Octets4 = s: seq<byte> | |s| == 4 witness [0, 0, 0, 0]
  type Octets16 = s: seq<byte> | |s| == 16 witness [0, 0, 0, 0, 0, 0, 0, 0, 0, 0, 0, 0, 0, 0, 0, 0]

  datatype TargetAddr =
    | Ipv4(v4: Octets4, port: u16)
    | Domain(name: Text, port: u16)
    | Ipv6(v6: Octets16, port: u16)

  datatype Decoded = Decoded(target: TargetAddr, length: nat)

  /** The one-byte length field can only carry names of at most 255 bytes. */
  predicate Encodable(t: TargetAddr) {
    t.Domain? ==> |t.name| <= 255
  }

  /** ATYP, address, port. The length of a name goes through the truncating cast. */
  function EncodeTarget(t: TargetAddr): seq<byte> {
    match t
    case Ipv4(a, p) => [0x01] + a + BigEndian(p)
    case Domain(d, p) => [0x03, LowByte(|d|)] + d + BigEndian(p)
    case Ipv6(a, p) => [0x04] + a + BigEndian(p)
  }

  /** The target at the head of `b` and the number of bytes it occupies. */
  function DecodeTarget(b: seq<byte>): (r: Option<Decoded>)
    ensures r.Some? ==> r.value.length <= |b|
  {
    if b == [] then None
    else if b[0] == 0x01 then
      if |b| < 7 then None else Some(Decoded(Ipv4(b[1..5], FromBigEndian(b[5..7])), 7))
    else if b[0] == 0x03 then
      if |b| < 2 || |b| < 4 + b[1] as int then None
      else
        var l := b[1] as int;
        if !ValidUtf8(b[2..2 + l]) then None
        else Some(Decoded(Domain(b[2..2 + l], FromBigEndian(b[2 + l..4 + l])), 4 + l))
    else if b[0] == 0x04 then
      if |b| < 19 then None else Some(Decoded(Ipv6(b[1..17], FromBigEndian(b[17..19])), 19))
    else None
  }

  /** The field on the wire (RFC 1928, section 5): a type, the address, the port with its high byte first. */
  lemma WireLayout(t: TargetAddr)
    ensures var e, n := EncodeTarget(t), |EncodeTarget(t)|;
            && n >= 4 && e[n - 2] as int * 0x100 + e[n - 1] as int == t.port
            && match t
               case Ipv4(a, _) => n == 7 && e[0] == 0x01 && e[1..5] == a
               case Domain(d, _) => n == |d| + 4 && e[0] == 0x03 && e[1] as int == |d| % 0x100 && e[2..2 + |d|] == d
               case Ipv6(a, _) => n == 19 && e[0] == 0x04 && e[1..17] == a
  {
  }

  /** Decoding is exactly the inverse of encoding, on exactly the encodable targets. */
  lemma DecodeIffEncode(b: seq<byte>, t: TargetAddr, k: nat)
    ensures DecodeTarget(b) == Some(Decoded(t, k))
       <==> Encodable(t) && k == |EncodeTarget(t)| <= |b| && b[..k] == EncodeTarget(t)
  {
    hide DecodeTarget, EncodeTarget, ValidUtf8;
    if DecodeTarget(b) == Some(Decoded(t, k)) {
      DecodedIsEncoding(b);
    }
    if Encodable(t) && k == |EncodeTarget(t)| <= |b| && b[..k] == EncodeTarget(t) {
      assert b == EncodeTarget(t) + b[k..];
      DecodeEncoding(t, b[k..]);
    }
  }

  lemma DecodedIsEncoding(b: seq<byte>)
    requires DecodeTarget(b).Some?
    ensures var r := DecodeTarget(b).value;
            Encodable(r.target) && r.length == |EncodeTarget(r.target)| && b[..r.length] == EncodeTarget(r.target)
  {
    if b[0] == 0x03 {
      DecodedName(b);
    } else {
      DecodedLiteral(b);
    }
  }

  lemma DecodedLiteral(b: seq<byte>)
    requires DecodeTarget(b).Some? && b[0] != 0x03
    ensures var r := DecodeTarget(b).value;
            Encodable(r.target) && r.length == |EncodeTarget(r.target)| && b[..r.length] == EncodeTarget(r.target)
  {
    hide ValidUtf8;
    SplitField(b, 1, if b[0] == 0x01 then 7 else 19);
    assert b[..1] == [b[0]];
  }

  lemma DecodedName(b: seq<byte>)
    requires DecodeTarget(b).Some? && b[0] == 0x03
    ensures var r := DecodeTarget(b).value;
            Encodable(r.target) && r.length == |EncodeTarget(r.target)| && b[..r.length] == EncodeTarget(r.target)
  {
    hide ValidUtf8;
    SplitField(b, 2, 4 + b[1] as nat);
    assert b[..2] == [b[0], b[1]];
    assert LowByte(b[1] as nat) == b[1];
  }

  /** The first `k` bytes are a head of `n` bytes, an address and a port. */
  lemma SplitField(b: seq<byte>, n: nat, k: nat)
    requires n + 2 <= k <= |b|
    ensures b[..k] == b[..n] + b[n..k - 2] + BigEndian(FromBigEndian(b[k - 2..k]))
  {
    BigEndianRoundTrip(0, b[k - 2..k]);
  }

  lemma DecodeEncoding(t: TargetAddr, rest: seq<byte>)
    requires Encodable(t)
    ensures DecodeTarget(EncodeTarget(t) + rest) == Some(Decoded(t, |EncodeTarget(t)|))
  {
    hide ValidUtf8;
    match t
    case Ipv4(a, p) => JoinField([0x01], a, p, rest);
    case Domain(d, p) => JoinField([0x03, LowByte(|d|)], d, p, rest);
    case Ipv6(a, p) => JoinField([0x04], a, p, rest);
  }

  lemma JoinField(head: seq<byte>, addr: seq<byte>, port: u16, rest: seq<byte>)
    ensures var b := head + addr + BigEndian(port) + rest; var n, m := |head|, |head| + |addr|;
            && |b| == m + 2 + |rest|
            && b[..n] == head && b[n..m] == addr
            && FromBigEndian(b[m..m + 2]) == port
  {
  }

  /** A name whose length the cast truncates is never read back, whatever follows it. */
  lemma OverlongNameIsNeverDecoded(t: TargetAddr, rest: seq<byte>)
    requires !Encodable(t)
    ensures DecodeTarget(EncodeTarget(t) + rest).Some? ==> DecodeTarget(EncodeTarget(t) + rest).value.target != t
  {
    if DecodeTarget(EncodeTarget(t) + rest).Some? {
      DecodedIsEncoding(EncodeTarget(t) + rest);
    }
  }
}
