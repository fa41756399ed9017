/** The SOCKS5 UDP header (RFC 1928, section 7): parser and builder. */
module UdpCodec {
  import opened Bytes
  import opened Address
  import opened Socks5Server
  import Socks5Session

  datatype Datagram = Datagram(target: TargetAddr, payload: seq<byte>)

  /** RSV, FRAG, target, payload. */
  function UdpPacket(t: TargetAddr, payload: seq<byte>): seq<byte> {
    [0x00, 0x00, 0x00] + EncodeTarget(t) + payload
  }

  function ParseUdp(data: seq<byte>): Option<Datagram> {
    if |data| < 3 || data[..3] != [0x00, 0x00, 0x00] then None
    else
      match DecodeTarget(data[3..])
      case None => None
      case Some(d) => Some(Datagram(d.target, data[3 + d.length..]))
  }

  /** The parser accepts exactly the packets the builder makes from encodable targets, and recovers what went in. */
  lemma UdpBijection(data: seq<byte>, d: Datagram)
    ensures ParseUdp(data) == Some(d) <==> Encodable(d.target) && data == UdpPacket(d.target, d.payload)
  {
    hide DecodeTarget, EncodeTarget, ValidUtf8;
    if ParseUdp(data) == Some(d) {
      var k := DecodeTarget(data[3..]).value.length;
      DecodedIsEncoding(data[3..]);
      assert data == data[..3] + data[3..][..k] + data[3 + k..];
    }
    if Encodable(d.target) && data == UdpPacket(d.target, d.payload) {
      assert data[..3] == [0x00, 0x00, 0x00] && data[3..] == EncodeTarget(d.target) + d.payload;
      DecodeEncoding(d.target, d.payload);
    }
  }

  /** The stream reader of requests and the packet parser accept the same addresses and stop at the same byte. */
  lemma StreamAndPacketAgree(b: seq<byte>, t: TargetAddr, k: nat)
    requires k <= |b|
    ensures RunServer(None, Io, AwaitRequest, [0x05, 0x01, 0x00] + b, [])
            == Session(Handling(SocksRequest(Connect, t)), b[k..], [])
       <==> ParseUdp([0x00, 0x00, 0x00] + b) == Some(Datagram(t, b[k..]))
  {
    hide DecodeTarget, ValidUtf8, RunServer;
    Socks5Session.RequestIsDecoding(None, Io, [0x05, 0x01, 0x00], b, []);
    var data: seq<byte> := [0x00, 0x00, 0x00] + b;
    assert data[..3] == [0x00, 0x00, 0x00] && data[3..] == b;
    if DecodeTarget(b).Some? {
      assert data[3 + DecodeTarget(b).value.length..] == b[DecodeTarget(b).value.length..];
    }
  }

  method ParseSocks5UdpPacket(data: seq<byte>) returns (r: Result<Datagram>)
    ensures match ParseUdp(data)
            case Some(d) => r == Ok(d)
            case None => r == Err(Socks5)
  {
    if |data| < 7 {
      return Err(Socks5);
    }
    var offset := 0;
    if data[0] != 0x00 || data[1] != 0x00 {
      return Err(Socks5);
    }
    offset := offset + 2;
    if data[2] != 0x00 {
      return Err(Socks5);
    }
    offset := offset + 1;
    assert data[..3] == [0x00, 0x00, 0x00];
    ghost var b := data[3..];
    var atyp := data[3];
    offset := offset + 1;
    var target;
    match atyp {
      case 0x01 =>
        if |data| < offset + 6 {
          return Err(Socks5);
        }
        assert b[1..5] == data[4..8] && b[5..7] == data[8..10];
        target := Ipv4(data[offset..offset + 4], FromBigEndian(data[offset + 4..offset + 6]));
        offset := offset + 6;
      case 0x03 =>
        if |data| < offset + 1 {
          return Err(Socks5);
        }
        var len := data[offset] as nat;
        offset := offset + 1;
        if |data| < offset + len + 2 {
          return Err(Socks5);
        }
        assert b[2..2 + len] == data[5..5 + len] && b[2 + len..4 + len] == data[5 + len..7 + len];
        var domain := data[offset..offset + len];
        if !ValidUtf8(domain) {
          return Err(Socks5);
        }
        offset := offset + len;
        var port := FromBigEndian(data[offset..offset + 2]);
        offset := offset + 2;
        target := Domain(domain, port);
      case 0x04 =>
        if |data| < offset + 18 {
          return Err(Socks5);
        }
        assert b[1..17] == data[4..20] && b[17..19] == data[20..22];
        target := Ipv6(data[offset..offset + 16], FromBigEndian(data[offset + 16..offset + 18]));
        offset := offset + 18;
      case _ => return Err(Socks5);
    }
    return Ok(Datagram(target, data[offset..]));
  }

  method BuildSocks5UdpResponse(source: TargetAddr, payload: seq<byte>) returns (packet: seq<byte>)
    ensures packet == UdpPacket(source, payload)
  {
    hide ValidUtf8;
    packet := [];
    packet := packet + [0x00, 0x00];
    packet := packet + [0x00];
    ghost var head := packet;
    match source {
      case Ipv4(ip, port) =>
        ConcatAssociates(head, [0x01], ip, BigEndian(port));
        packet := packet + [0x01];
        packet := packet + ip;
        packet := packet + BigEndian(port);
      case Domain(domain, port) =>
        ConcatAssociates(head, [0x03, LowByte(|domain|)], domain, BigEndian(port));
        packet := packet + [0x03];
        packet := packet + [LowByte(|domain|)];
        assert packet == head + [0x03, LowByte(|domain|)];
        packet := packet + domain;
        packet := packet + BigEndian(port);
      case Ipv6(ip, port) =>
        ConcatAssociates(head, [0x04], ip, BigEndian(port));
        packet := packet + [0x04];
        packet := packet + ip;
        packet := packet + BigEndian(port);
    }
    assert packet == [0x00, 0x00, 0x00] + EncodeTarget(source);
    packet := packet + payload;
  }
}
