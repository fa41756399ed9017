/** Base64 with the standard alphabet and canonical padding (RFC 4648, section 4). */
module Base64 {
  import opened Bytes

  type Sextet = n: nat | n < 64

  datatype Quad = Quad(v0: Sextet, v1: Sextet, v2: Sextet, v3: Sextet)

  const PAD: byte := 0x3D
  const ZERO: byte := 0x41

  /** Capitals, small letters, digits, plus, slash. */
  function Symbol(v: Sextet): (c: byte)
    ensures c != PAD && 0x2B <= c <= 0x7A
  {
    if v < 26 then (0x41 + v) as byte
    else if v < 52 then (0x61 + (v - 26)) as byte
    else if v < 62 then (0x30 + (v - 52)) as byte
    else if v == 62 then 0x2B
    else 0x2F
  }

  function ValueOf(c: byte): (r: Option<Sextet>)
    ensures r.Some? ==> Symbol(r.value) == c
  {
    if 0x41 <= c <= 0x5A then Some(c as nat - 0x41)
    else if 0x61 <= c <= 0x7A then Some(c as nat - 0x61 + 26)
    else if 0x30 <= c <= 0x39 then Some(c as nat - 0x30 + 52)
    else if c == 0x2B then Some(62)
    else if c == 0x2F then Some(63)
    else None
  }

  /** The alphabet, in order. */
  lemma AlphabetIs(v: Sextet)
    ensures v < 26 ==> Symbol(v) as int == "ABCDEFGHIJKLMNOPQRSTUVWXYZ"[v] as int
    ensures 26 <= v < 52 ==> Symbol(v) as int == "abcdefghijklmnopqrstuvwxyz"[v - 26] as int
    ensures 52 <= v ==> Symbol(v) as int == "0123456789+/"[v - 52] as int
  {
  }

  lemma SymbolValue(v: Sextet)
    ensures ValueOf(Symbol(v)) == Some(v)
  {
  }

  /** Three bytes as four groups of six bits. */
  function Pack(a: byte, b: byte, c: byte): Quad {
    Quad(a as nat / 4, a as nat % 4 * 16 + b as nat / 16, b as nat % 16 * 4 + c as nat / 64, c as nat % 64)
  }

  /** The four groups are the digits, to base 64, of the number the three bytes are to base 256. */
  lemma PackIsRadixChange(a: byte, b: byte, c: byte)
    ensures var q := Pack(a, b, c);
            ((q.v0 * 64 + q.v1) * 64 + q.v2) * 64 + q.v3 == (a as nat * 0x100 + b as nat) * 0x100 + c as nat
  {
  }

  function Unpack(q: Quad): (byte, byte, byte) {
    ((q.v0 * 4 + q.v1 / 16) as byte, (q.v1 % 16 * 16 + q.v2 / 4) as byte, (q.v2 % 4 * 64 + q.v3) as byte)
  }

  lemma UnpackPack(a: byte, b: byte, c: byte)
    ensures Unpack(Pack(a, b, c)) == (a, b, c)
  {
    Regroup(a as nat / 4, a as nat % 4, b as nat / 16);
    Regroup(a as nat % 4, b as nat / 16, b as nat % 16);
    Regroup(b as nat % 16, c as nat / 64, c as nat % 64);
  }

  /** Adjacent groups of two, four and six bits come apart again. */
  lemma Regroup(x: nat, y: nat, z: nat)
    ensures y < 16 ==> (x * 16 + y) / 16 == x && (x * 16 + y) % 16 == y
    ensures y < 4 ==> (x * 4 + y) / 4 == x && (x * 4 + y) % 4 == y
    ensures z < 64 ==> (y * 64 + z) / 64 == y && (y * 64 + z) % 64 == z
  {
  }

  lemma PackUnpack(q: Quad)
    ensures var s := Unpack(q); Pack(s.0, s.1, s.2) == q
  {
    Regroup(q.v1 % 16, q.v2 / 4, q.v3);
    Regroup(q.v0, q.v1 / 16, 0);
    Regroup(q.v2 % 4, q.v2 % 4, q.v3);
  }

  function Symbols(q: Quad): seq<byte> {
    [Symbol(q.v0), Symbol(q.v1), Symbol(q.v2), Symbol(q.v3)]
  }

  function Values(t: seq<byte>): Option<Quad>
    requires |t| == 4
  {
    var v0, v1, v2, v3 := ValueOf(t[0]), ValueOf(t[1]), ValueOf(t[2]), ValueOf(t[3]);
    if v0.None? || v1.None? || v2.None? || v3.None? then None else Some(Quad(v0.value, v1.value, v2.value, v3.value))
  }

  lemma SymbolsValues(t: seq<byte>, q: Quad)
    requires |t| == 4
    ensures Values(t) == Some(q) <==> t == Symbols(q)
  {
    SymbolValue(q.v0);
    SymbolValue(q.v1);
    SymbolValue(q.v2);
    SymbolValue(q.v3);
  }

  /** A short last group is padded with zero bytes, and its unused symbols become padding. */
  function Encode(s: seq<byte>): seq<byte> {
    if s == [] then []
    else if |s| == 1 then Symbols(Pack(s[0], 0, 0))[..2] + [PAD, PAD]
    else if |s| == 2 then Symbols(Pack(s[0], s[1], 0))[..3] + [PAD]
    else Symbols(Pack(s[0], s[1], s[2])) + Encode(s[3..])
  }

  /** Decodes a last group; the bits that a short group leaves unused must be zero. */
  function DecodePadded(t: seq<byte>): Option<seq<byte>>
    requires |t| == 4 && t[3] == PAD
  {
    match Values(if t[2] == PAD then [t[0], t[1], ZERO, ZERO] else [t[0], t[1], t[2], ZERO])
    case None => None
    case Some(q) =>
      var s := Unpack(q);
      if t[2] == PAD then if s.1 == 0 then Some([s.0]) else None
      else if s.2 == 0 then Some([s.0, s.1]) else None
  }

  function Decode(t: seq<byte>): Option<seq<byte>> {
    if t == [] then Some([])
    else if |t| < 4 then None
    else if |t| == 4 && t[3] == PAD then DecodePadded(t)
    else
      match (Values(t[..4]), Decode(t[4..]))
      case (Some(q), Some(later)) => var s := Unpack(q); Some([s.0, s.1, s.2] + later)
      case _ => None
  }

  lemma DecodeOne(a: byte)
    ensures Decode(Encode([a])) == Some([a])
  {
    var q := Pack(a, 0, 0);
    UnpackPack(a, 0, 0);
    assert Symbols(q) == [Symbol(q.v0), Symbol(q.v1), ZERO, ZERO];
    SymbolsValues(Symbols(q), q);
  }

  lemma DecodeTwo(a: byte, b: byte)
    ensures Decode(Encode([a, b])) == Some([a, b])
  {
    var q := Pack(a, b, 0);
    UnpackPack(a, b, 0);
    assert Symbols(q) == [Symbol(q.v0), Symbol(q.v1), Symbol(q.v2), ZERO];
    SymbolsValues(Symbols(q), q);
  }

  lemma DecodeThree(a: byte, b: byte, c: byte, later: seq<byte>)
    ensures Decode(Symbols(Pack(a, b, c)) + later)
         == match Decode(later) case Some(s) => Some([a, b, c] + s) case None => None
  {
    var q := Pack(a, b, c);
    var t := Symbols(q) + later;
    UnpackPack(a, b, c);
    assert t[..4] == Symbols(q) && t[4..] == later;
    SymbolsValues(t[..4], q);
  }

  lemma DecodeNothing()
    ensures Decode([]) == Some([])
  {
  }

  lemma {:induction false} DecodeEncode(s: seq<byte>)
    ensures Decode(Encode(s)) == Some(s)
    decreases |s|
  {
    hide Pack, Symbols, Decode;
    if |s| >= 3 {
      DecodeEncode(s[3..]);
      DecodeThree(s[0], s[1], s[2], Encode(s[3..]));
      assert [s[0], s[1], s[2]] + s[3..] == s;
    } else if |s| == 2 {
      DecodeTwo(s[0], s[1]);
      assert s == [s[0], s[1]];
    } else if |s| == 1 {
      DecodeOne(s[0]);
      assert s == [s[0]];
    } else {
      DecodeNothing();
    }
  }

  lemma PaddedGroupInverse(t: seq<byte>)
    requires |t| == 4 && t[3] == PAD && DecodePadded(t).Some?
    ensures Encode(DecodePadded(t).value) == t
  {
    var u := if t[2] == PAD then [t[0], t[1], ZERO, ZERO] else [t[0], t[1], t[2], ZERO];
    var q := Values(u).value;
    SymbolsValues(u, q);
    PackUnpack(q);
    assert u == Symbols(q);
    if t[2] == PAD {
      assert q.v2 == 0 && q.v3 == 0 by { SymbolValue(q.v2); SymbolValue(q.v3); }
      assert Encode(DecodePadded(t).value) == u[..2] + [PAD, PAD];
    } else {
      assert q.v3 == 0 by { SymbolValue(q.v3); }
      assert Encode(DecodePadded(t).value) == u[..3] + [PAD];
    }
  }

  lemma FullGroupInverse(t: seq<byte>, later: seq<byte>)
    requires |t| == 4 && Values(t).Some?
    ensures var s := Unpack(Values(t).value); Encode([s.0, s.1, s.2] + later) == t + Encode(later)
  {
    hide Pack, Unpack, Symbols, Values;
    var q := Values(t).value;
    SymbolsValues(t, q);
    PackUnpack(q);
    var s := Unpack(q);
    assert ([s.0, s.1, s.2] + later)[3..] == later;
  }

  lemma {:induction false} EncodeDecode(t: seq<byte>)
    requires Decode(t).Some?
    ensures Encode(Decode(t).value) == t
    decreases |t|
  {
    hide Unpack, Values, DecodePadded, Encode;
    if t == [] {
      EncodeNothing();
    } else if |t| == 4 && t[3] == PAD {
      PaddedGroupInverse(t);
    } else {
      EncodeDecode(t[4..]);
      FullGroupInverse(t[..4], Decode(t[4..]).value);
      assert t == t[..4] + t[4..];
    }
  }

  lemma EncodeNothing()
    ensures Encode([]) == []
  {
  }

  /** The codec is a bijection between byte strings and the texts that decode. */
  lemma Base64Bijection(s: seq<byte>, t: seq<byte>)
    ensures Decode(t) == Some(s) <==> Encode(s) == t
  {
    if Decode(t) == Some(s) {
      EncodeDecode(t);
    }
    DecodeEncode(s);
  }

  lemma {:induction false} EncodeIsVisible(s: seq<byte>)
    ensures forall i :: 0 <= i < |Encode(s)| ==> 0x2B <= Encode(s)[i] <= 0x7A
    ensures s != [] ==> Encode(s) != []
    decreases |s|
  {
    if |s| >= 3 {
      EncodeIsVisible(s[3..]);
    }
  }

  /** Padding, as in the examples of RFC 4648, section 10: `f` is `Zg==` and `fo` is `Zm8=`. */
  lemma PaddingExamples()
    ensures Encode([0x66]) == [0x5A, 0x67, 0x3D, 0x3D]
    ensures Encode([0x66, 0x6F]) == [0x5A, 0x6D, 0x38, 0x3D]
  {
    assert Pack(0x66, 0, 0) == Quad(25, 32, 0, 0);
    assert Pack(0x66, 0x6F, 0) == Quad(25, 38, 60, 0);
    assert Symbols(Quad(25, 32, 0, 0)) == [0x5A, 0x67, 0x41, 0x41];
    assert Symbols(Quad(25, 38, 60, 0)) == [0x5A, 0x6D, 0x38, 0x41];
  }
}
