/** A connected byte stream as one endpoint sees it: chunks still to be read, bytes already written. */
module Transport {
  import opened Bytes

  /** What happens after the last chunk: the peer closes, or it stays open and sends nothing more. */
  datatype Ending = Eof | Silence

  function Flatten(chunks: seq<seq<byte>>): seq<byte> {
    if chunks == [] then [] else chunks[0] + Flatten(chunks[1..])
  }

  lemma SplitHead(chunks: seq<seq<byte>>, k: nat)
    requires chunks != [] && k <= |chunks[0]|
    ensures Flatten([chunks[0][k..]] + chunks[1..]) == chunks[0][k..] + Flatten(chunks[1..])
  {
  }

  /** The chunks left when `n` bytes have been taken off the front. */
  function After(chunks: seq<seq<byte>>, n: nat): seq<seq<byte>> {
    if n == 0 || chunks == [] then chunks
    else if |chunks[0]| <= n then After(chunks[1..], n - |chunks[0]|)
    else [chunks[0][n..]] + chunks[1..]
  }

  /** `after` is what exact reads leave of `before`. */
  ghost predicate Consumed(before: seq<seq<byte>>, after: seq<seq<byte>>) {
    |Flatten(after)| <= |Flatten(before)| && after == After(before, |Flatten(before)| - |Flatten(after)|)
  }

  /** Taking bytes off chunks is taking them off the byte string. */
  lemma {:induction false} AfterFlatten(chunks: seq<seq<byte>>, n: nat)
    requires n <= |Flatten(chunks)|
    ensures Flatten(After(chunks, n)) == Flatten(chunks)[n..]
    decreases |chunks|
  {
    if n != 0 {
      if |chunks[0]| <= n {
        AfterFlatten(chunks[1..], n - |chunks[0]|);
      } else {
        SplitHead(chunks, n);
      }
    }
  }

  lemma {:induction false} AfterAfter(chunks: seq<seq<byte>>, m: nat, n: nat)
    requires m + n <= |Flatten(chunks)|
    ensures After(After(chunks, m), n) == After(chunks, m + n)
    decreases |chunks|
  {
    if m != 0 && n != 0 {
      if |chunks[0]| <= m {
        AfterAfter(chunks[1..], m - |chunks[0]|, n);
      } else {
        AfterCut(chunks[0], chunks[1..], m, n);
        assert chunks == [chunks[0]] + chunks[1..];
      }
    }
  }

  lemma AfterCut(chunk: seq<byte>, later: seq<seq<byte>>, m: nat, n: nat)
    requires 0 < m < |chunk| && 0 < n
    ensures After([chunk[m..]] + later, n) == After([chunk] + later, m + n)
  {
    assert ([chunk[m..]] + later)[1..] == later && ([chunk] + later)[1..] == later;
    if n < |chunk| - m {
      assert chunk[m..][n..] == chunk[m + n..];
    }
  }

  lemma ConsumedOn(a: seq<seq<byte>>, b: seq<seq<byte>>, c: seq<seq<byte>>)
    requires Consumed(a, b) && Consumed(b, c)
    ensures Consumed(a, c)
  {
    AfterAfter(a, |Flatten(a)| - |Flatten(b)|, |Flatten(b)| - |Flatten(c)|);
  }

  /** What one read of at most `max` bytes returns, and the chunks it leaves. */
  function Piece(chunks: seq<seq<byte>>, max: nat): (seq<byte>, seq<seq<byte>>) {
    if chunks == [] then ([], [])
    else if chunks[0] == [] then Piece(chunks[1..], max)
    else if |chunks[0]| <= max then (chunks[0], chunks[1..])
    else (chunks[0][..max], [chunks[0][max..]] + chunks[1..])
  }

  /** The size of the first chunk that is not empty. */
  function FirstSize(chunks: seq<seq<byte>>): nat {
    if chunks == [] then 0 else if chunks[0] != [] then |chunks[0]| else FirstSize(chunks[1..])
  }

  function Min(a: nat, b: nat): nat {
    if a <= b then a else b
  }

  /** One read takes as much of the first non-empty chunk as fits, off the front of everything that is to come. */
  lemma {:induction false} PieceSize(chunks: seq<seq<byte>>, max: nat)
    ensures |Piece(chunks, max).0| == Min(FirstSize(chunks), max) <= |Flatten(chunks)|
    ensures Piece(chunks, max).0 == Flatten(chunks)[..Min(FirstSize(chunks), max)]
    ensures Flatten(Piece(chunks, max).1) == Flatten(chunks)[Min(FirstSize(chunks), max)..]
    decreases |chunks|
  {
    if chunks != [] && chunks[0] == [] {
      PieceSize(chunks[1..], max);
    } else if chunks != [] && |chunks[0]| > max {
      SplitHead(chunks, max);
    }
  }

  /** Chunks that carry no empty piece are taken whole. */
  lemma {:induction false} AfterFront(front: seq<seq<byte>>, back: seq<seq<byte>>)
    requires [] !in front
    ensures Flatten(front + back) == Flatten(front) + Flatten(back)
    ensures After(front + back, |Flatten(front)|) == back
    decreases |front|
  {
    if front == [] {
      assert front + back == back;
    } else {
      assert (front + back)[1..] == front[1..] + back;
      assert front[0] in front;
      AfterFront(front[1..], back);
    }
  }

  class Stream {
    var inbound: seq<seq<byte>>
    var sent: seq<byte>
    const ending: Ending

    constructor (chunks: seq<seq<byte>>, ending: Ending)
      ensures inbound == chunks && sent == [] && this.ending == ending
    {
      inbound, sent, this.ending := chunks, [], ending;
    }

    ghost function Unread(): seq<byte>
      reads this
    {
      Flatten(inbound)
    }

    /** The error of a read that cannot be completed: end of file, or the 30-second timeout. */
    function Starved(): ProxyError {
      if ending == Eof then Io else Timeout
    }

    /** Collects exactly `n` bytes from as many chunks as it takes. */
    method ReadExact(n: nat) returns (r: Result<seq<byte>>)
      modifies this`inbound
      ensures |old(Unread())| >= n ==>
                r == Ok(old(Unread())[..n]) && Unread() == old(Unread())[n..] && Consumed(old(inbound), inbound)
      ensures |old(Unread())| < n ==> r == Err(Starved()) && Unread() == []
      ensures |old(Unread())| < n ==> r == Err(if ending == Eof then Io else Timeout)
    {
      var got: seq<byte> := [];
      while |got| < n && inbound != []
        invariant |got| <= n
        invariant got + Flatten(inbound) == old(Unread())
        invariant After(inbound, n - |got|) == After(old(inbound), n)
        decreases |inbound|, n - |got|
      {
        var chunk, missing := inbound[0], n - |got|;
        ghost var later := Flatten(inbound[1..]);
        if |chunk| <= missing {
          Associates(got, chunk, later);
          got, inbound := got + chunk, inbound[1..];
        } else {
          SplitHead(inbound, missing);
          Associates(got, chunk[..missing], chunk[missing..] + later);
          Associates(chunk[..missing], chunk[missing..], later);
          assert chunk[..missing] + chunk[missing..] == chunk;
          got, inbound := got + chunk[..missing], [chunk[missing..]] + inbound[1..];
        }
      }
      r := if |got| == n then Ok(got) else Err(Starved());
    }

    method WriteAll(data: seq<byte>)
      modifies this`sent
      ensures sent == old(sent) + data
    {
      sent := sent + data;
    }

    /** One read: at most `max` bytes of the next non-empty chunk, nothing at all at the end of the stream. */
    method Read(max: nat) returns (data: seq<byte>)
      requires max > 0
      modifies this`inbound
      ensures (data, inbound) == Piece(old(inbound), max)
      ensures data + Unread() == old(Unread()) && |data| <= max
      ensures data == [] <==> old(Unread()) == []
    {
      while inbound != [] && inbound[0] == []
        invariant Unread() == old(Unread())
        invariant Piece(inbound, max) == Piece(old(inbound), max)
        decreases |inbound|
      {
        inbound := inbound[1..];
      }
      if inbound == [] {
        return [];
      }
      if |inbound[0]| <= max {
        data := inbound[0];
        inbound := inbound[1..];
      } else {
        SplitHead(inbound, max);
        data := inbound[0][..max];
        inbound := [inbound[0][max..]] + inbound[1..];
      }
    }
  }
}
