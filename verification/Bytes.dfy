/** Bytes, 16-bit ports, UTF-8 text and the error variants that the modelled code returns. */
module Bytes {

  newtype byte = x: int | 0 <= x < 0x100

  type u16 = x: int | 0 <= x < 0x1_0000

  datatype Option<+T> = None | Some(value: T)

  /** The variants of the program's error type that the modelled code produces; texts are dropped. */
  datatype ProxyError = Io | Timeout | Socks5 | AuthFailed | Upstream

  datatype Result<+T> = Ok(value: T) | Err(error: ProxyError)

  /** The cast `len as u8`, which keeps the low eight bits. */
  function LowByte(n: nat): byte {
    (n % 0x100) as byte
  }

  /** The high byte comes first. */
  function BigEndian(p: u16): (b: seq<byte>)
    ensures |b| == 2 && b[0] as int * 0x100 + b[1] as int == p
  {
    [(p / 0x100) as byte, (p % 0x100) as byte]
  }

  function FromBigEndian(b: seq<byte>): u16
    requires |b| == 2
  {
    b[0] as int * 0x100 + b[1] as int
  }

  lemma BigEndianRoundTrip(p: u16, b: seq<byte>)
    requires |b| == 2
    ensures FromBigEndian(BigEndian(p)) == p
    ensures BigEndian(FromBigEndian(b)) == b
  {
  }

  function Ascii(s: string): (b: seq<byte>)
    requires forall i :: 0 <= i < |s| ==> s[i] < 128 as char
    ensures |b| == |s|
    ensures forall i :: 0 <= i < |s| ==> b[i] == s[i] as int as byte
  {
    seq(|s|, i requires 0 <= i < |s| => s[i] as int as byte)
  }

  predicate Continuation(b: byte) {
    0x80 <= b <= 0xBF
  }

  /** Length of the UTF-8 encoded scalar value at the head of `s`, or 0 when there is none (RFC 3629, section 4). */
  function ScalarLength(s: seq<byte>): (k: nat)
    requires s != []
    ensures k <= |s|
  {
    if s[0] < 0x80 then 1
    else if |s| >= 2 && 0xC2 <= s[0] <= 0xDF && Continuation(s[1]) then 2
    else if |s| >= 3 && 0xE0 <= s[0] <= 0xEF && Continuation(s[1]) && Continuation(s[2])
            && (s[0] == 0xE0 ==> s[1] >= 0xA0) && (s[0] == 0xED ==> s[1] <= 0x9F) then 3
    else if |s| >= 4 && 0xF0 <= s[0] <= 0xF4 && Continuation(s[1]) && Continuation(s[2]) && Continuation(s[3])
            && (s[0] == 0xF0 ==> s[1] >= 0x90) && (s[0] == 0xF4 ==> s[1] <= 0x8F) then 4
    else 0
  }

  /** What `String::from_utf8` accepts. */
  predicate ValidUtf8(s: seq<byte>)
    decreases |s|
  {
    s == [] || (ScalarLength(s) > 0 && ValidUtf8(s[ScalarLength(s)..]))
  }

  /** A string: its bytes, always valid UTF-8. */
  type Text = s: seq<byte> | ValidUtf8(s) witness []

  lemma {:induction false} Utf8Concat(a: seq<byte>, b: seq<byte>)
    requires ValidUtf8(a) && ValidUtf8(b)
    ensures ValidUtf8(a + b)
    decreases |a|
  {
    if a == [] {
      assert a + b == b;
    } else {
      var k := ScalarLength(a);
      assert ScalarLength(a + b) == k;
      assert (a + b)[k..] == a[k..] + b;
      Utf8Concat(a[k..], b);
    }
  }

  lemma {:induction false} Utf8Ascii(s: seq<byte>)
    requires forall i :: 0 <= i < |s| ==> s[i] < 0x80
    ensures ValidUtf8(s)
    decreases |s|
  {
    if s != [] {
      Utf8Ascii(s[1..]);
    }
  }

  /** Cutting a string around an ASCII character leaves two strings. */
  lemma {:induction false} Utf8Cut(s: seq<byte>, i: nat)
    requires ValidUtf8(s) && i < |s| && s[i] < 0x80
    ensures ValidUtf8(s[..i]) && ValidUtf8(s[i + 1..])
    decreases |s|
  {
    var k := ScalarLength(s);
    if i == 0 {
      assert k == 1;
    } else {
      assert i >= k;
      Utf8Cut(s[k..], i - k);
      assert s[k..][..i - k] == s[..i][k..] && s[k..][i - k + 1..] == s[i + 1..];
      assert ScalarLength(s[..i]) == k;
    }
  }

  lemma Associates<T>(a: seq<T>, b: seq<T>, c: seq<T>)
    ensures a + b + c == a + (b + c)
  {
  }

  lemma ConcatAssociates(a: seq<byte>, b: seq<byte>, c: seq<byte>, d: seq<byte>)
    ensures a + b + c + d == a + (b + c + d)
  {
  }
}
