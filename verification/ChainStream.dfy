/**
 * The handshakes of a chain on the bytes of its one stream: HTTP and SOCKS5 proxies in any order, chunk by chunk. The
 * legs are the handshakes that `ChainLaws.Exchanges` lists for a chain; `ChainOnStreamIff` ties the two together.
 */
module ChainStream {
  import opened Bytes
  import opened Address
  import opened Credentials
  import opened HostPort
  import opened Transport
  import opened UpstreamConfigs
  import opened Socks5Session
  import opened Socks5Client
  import opened Socks5ClientSession
  import opened HttpConnect
  import opened ProxyChain
  import opened ChainLaws

  /** The stream after some legs, or the error of the one that failed; and what has been written. */
  datatype Progress = Open(inbound: seq<seq<byte>>, sent: seq<byte>) | Closed(error: ProxyError, sent: seq<byte>)

  function Config(forms: HostForms, leg: Leg): ClientConfig {
    ClientConfig(leg.auth, Classify(forms, leg.target.host, leg.target.port))
  }

  function RunLeg(forms: HostForms, leg: Leg, inbound: seq<seq<byte>>, sent: seq<byte>): Progress {
    match leg.protocol
    case HttpConnect =>
      var (response, left) := Piece(inbound, 4096);
      var said := sent + ConnectText(leg.auth, leg.target);
      if Accepts(response) then Open(left, said) else Closed(Upstream, said)
    case Socks5Connect =>
      var cfg, input := Config(forms, leg), Flatten(inbound);
      var d := RunClient(cfg, AwaitMethod, input, sent + Greeting(cfg));
      ClientEnds(cfg, AwaitMethod, input, sent + Greeting(cfg));
      if d.phase.Established? then Open(After(inbound, |input| - |d.rest|), d.sent) else Closed(d.phase.error, d.sent)
  }

  function RunLegs(forms: HostForms, legs: seq<Leg>, inbound: seq<seq<byte>>, sent: seq<byte>): Progress {
    if legs == [] then Open(inbound, sent)
    else
      var p := RunLeg(forms, legs[0], inbound, sent);
      if p.Closed? then p else RunLegs(forms, legs[1..], p.inbound, p.sent)
  }

  method ShakeHands(stream: Stream, forms: HostForms, leg: Leg) returns (r: Result<()>)
    requires stream.ending == Eof
    modifies stream
    ensures RunLeg(forms, leg, old(stream.inbound), old(stream.sent))
         == if r.Ok? then Open(stream.inbound, stream.sent) else Closed(r.error, stream.sent)
  {
    hide RunClient, Accepts, ConnectText, Greeting, Classify, Piece, After, Flatten, ValidUtf8;
    match leg.protocol {
      case HttpConnect =>
        var response;
        r, response := PerformHttpHandshake(stream, leg.auth, leg.target);
      case Socks5Connect =>
        r := PerformSocks5Handshake(stream, leg.auth, forms, leg.target.host, leg.target.port);
    }
  }

  /** One handshake after the other on the same stream; result, chunks left and output are those of `RunLegs`. */
  method ThreadStream(stream: Stream, forms: HostForms, legs: seq<Leg>) returns (r: Result<()>)
    requires stream.ending == Eof
    modifies stream
    ensures RunLegs(forms, legs, old(stream.inbound), old(stream.sent))
         == if r.Ok? then Open(stream.inbound, stream.sent) else Closed(r.error, stream.sent)
  {
    hide RunLeg;
    assert legs[0..] == legs;
    for i := 0 to |legs|
      invariant RunLegs(forms, legs[i..], stream.inbound, stream.sent)
             == RunLegs(forms, legs, old(stream.inbound), old(stream.sent))
    {
      assert legs[i..][1..] == legs[i + 1..];
      var shaken := ShakeHands(stream, forms, legs[i]);
      if shaken.Err? {
        return shaken;
      }
    }
    return Ok(());
  }

  /** One leg over a proxy that accepts: how its answer arrives, and for SOCKS5 what the answer is made of. */
  datatype Exchange =
    | HttpExchange(leg: Leg, head: seq<byte>)
    | SocksExchange(leg: Leg, hop: Hop, chunks: seq<seq<byte>>)

  /** A SOCKS5 answer may come in any pieces; an HTTP response head must come in one. */
  predicate Smooth(forms: HostForms, e: Exchange) {
    match e
    case HttpExchange(leg, head) => leg.protocol == HttpConnect && 0 < |head| <= 4096 && Accepts(head)
    case SocksExchange(leg, hop, chunks) =>
      && leg.protocol == Socks5Connect && hop.cfg == Config(forms, leg) && Accepting(hop)
      && Flatten(chunks) == HopReplies(hop) && [] !in chunks
  }

  function Answer(e: Exchange): seq<seq<byte>> {
    if e.HttpExchange? then [e.head] else e.chunks
  }

  /** What the client says over the leg. */
  function Says(forms: HostForms, e: Exchange): seq<byte>
    requires Smooth(forms, e)
  {
    match e
    case HttpExchange(leg, _) => ConnectText(leg.auth, leg.target)
    case SocksExchange(_, hop, _) => Greeting(hop.cfg) + HopAuth(hop) + ConnectMessage(hop.cfg)
  }

  lemma LegIsExact(forms: HostForms, e: Exchange, later: seq<seq<byte>>, sent: seq<byte>)
    requires Smooth(forms, e)
    ensures RunLeg(forms, e.leg, Answer(e) + later, sent) == Open(later, sent + Says(forms, e))
  {
    hide RunClient, Accepts, ConnectText, Greeting, ConnectMessage, HopReplies, HopAuth;
    match e
    case HttpExchange(_, head) =>
      assert ([head] + later)[1..] == later;
    case SocksExchange(_, hop, chunks) =>
      AfterFront(chunks, later);
      HopIsExact(hop, Flatten(later), sent + Greeting(hop.cfg));
      assert sent + Greeting(hop.cfg) + HopAuth(hop) + ConnectMessage(hop.cfg) == sent + Says(forms, e);
  }

  function Legs(es: seq<Exchange>): seq<Leg> {
    if es == [] then [] else [es[0].leg] + Legs(es[1..])
  }

  function Answers(es: seq<Exchange>): seq<seq<byte>> {
    if es == [] then [] else Answer(es[0]) + Answers(es[1..])
  }

  predicate AllSmooth(forms: HostForms, es: seq<Exchange>) {
    forall e :: e in es ==> Smooth(forms, e)
  }

  function SaysAll(forms: HostForms, es: seq<Exchange>): seq<byte>
    requires AllSmooth(forms, es)
  {
    if es == [] then [] else assert es[0] in es; Says(forms, es[0]) + SaysAll(forms, es[1..])
  }

  /**
   * Through any number of HTTP and SOCKS5 proxies in any order, the client says exactly its messages, in order, and the
   * chunks left are exactly those of the tunnel.
   */
  lemma {:induction false} LegsLeaveTunnel(forms: HostForms, es: seq<Exchange>, tunnel: seq<seq<byte>>, sent: seq<byte>)
    requires AllSmooth(forms, es)
    ensures RunLegs(forms, Legs(es), Answers(es) + tunnel, sent) == Open(tunnel, sent + SaysAll(forms, es))
    decreases |es|
  {
    hide RunLeg, RunLegs, Smooth, Says, Answer;
    if es == [] {
      NoLegs(forms, tunnel, sent);
      assert Answers(es) + tunnel == tunnel && sent + SaysAll(forms, es) == sent;
    } else {
      assert es[0] in es;
      LegIsExact(forms, es[0], Answers(es[1..]) + tunnel, sent);
      LegsLeaveTunnel(forms, es[1..], tunnel, sent + Says(forms, es[0]));
      Associates(Answer(es[0]), Answers(es[1..]), tunnel);
      Associates(sent, Says(forms, es[0]), SaysAll(forms, es[1..]));
      NextLeg(forms, es[0].leg, Legs(es[1..]), Answers(es) + tunnel, sent);
    }
  }

  lemma NoLegs(forms: HostForms, inbound: seq<seq<byte>>, sent: seq<byte>)
    ensures RunLegs(forms, [], inbound, sent) == Open(inbound, sent)
  {
  }

  lemma NextLeg(forms: HostForms, leg: Leg, later: seq<Leg>, inbound: seq<seq<byte>>, sent: seq<byte>)
    ensures var p := RunLeg(forms, leg, inbound, sent);
            RunLegs(forms, [leg] + later, inbound, sent)
            == if p.Closed? then p else RunLegs(forms, later, p.inbound, p.sent)
  {
    hide RunLeg;
    assert ([leg] + later)[1..] == later;
  }

  /**
   * However a response head and the tunnel after it arrive, an HTTP leg that succeeds drops as many bytes as the first
   * non-empty chunk holds, 4096 at most; so the tunnel starts at its first byte exactly when that is the head's length.
   */
  lemma HttpLegExactIff(forms: HostForms, leg: Leg, inbound: seq<seq<byte>>, head: seq<byte>, tunnel: seq<byte>,
                        sent: seq<byte>)
    requires leg.protocol == HttpConnect && Flatten(inbound) == head + tunnel
    requires RunLeg(forms, leg, inbound, sent).Open?
    ensures var left, n := Flatten(RunLeg(forms, leg, inbound, sent).inbound), Min(FirstSize(inbound), 4096);
            && n <= |head + tunnel| && left == (head + tunnel)[n..]
            && (left == tunnel <==> |head| == n)
  {
    hide Accepts, ConnectText, Piece, FirstSize;
    PieceSize(inbound, 4096);
    var n := Min(FirstSize(inbound), 4096);
    if |head| == n {
      assert (head + tunnel)[n..] == tunnel;
    }
  }

  /** Whether an HTTP leg succeeds depends on the first non-empty chunk alone. */
  lemma HttpLegAcceptsIff(forms: HostForms, leg: Leg, inbound: seq<seq<byte>>, sent: seq<byte>)
    requires leg.protocol == HttpConnect
    ensures Min(FirstSize(inbound), 4096) <= |Flatten(inbound)|
    ensures RunLeg(forms, leg, inbound, sent).Open? <==> Accepts(Flatten(inbound)[..Min(FirstSize(inbound), 4096)])
  {
    hide Accepts, ConnectText, Piece, FirstSize;
    PieceSize(inbound, 4096);
  }

  /** A head cut after its status code: the leg succeeds, and the rest of the head is taken for tunnel bytes. */
  lemma CutHeadLeaksIntoTunnel(forms: HostForms, leg: Leg, rest: seq<byte>, tunnel: seq<seq<byte>>, sent: seq<byte>)
    requires leg.protocol == HttpConnect
    ensures RunLeg(forms, leg, [Ascii("HTTP/1.1 200"), rest] + tunnel, sent)
         == Open([rest] + tunnel, sent + ConnectText(leg.auth, leg.target))
  {
    hide ConnectText;
    var inbound := [Ascii("HTTP/1.1 200"), rest] + tunnel;
    assert inbound[0] == Ascii("HTTP/1.1 200") && inbound[1..] == [rest] + tunnel;
  }

  /** A head that arrives together with the first tunnel bytes: the leg succeeds, and those bytes are lost. */
  lemma JoinedHeadLosesTunnel(forms: HostForms, leg: Leg, head: seq<byte>, first: seq<byte>, tunnel: seq<seq<byte>>,
                              sent: seq<byte>)
    requires leg.protocol == HttpConnect && Accepts(head) && |head| + |first| <= 4096
    ensures RunLeg(forms, leg, [head + first] + tunnel, sent) == Open(tunnel, sent + ConnectText(leg.auth, leg.target))
  {
    hide ConnectText;
    var inbound := [head + first] + tunnel;
    assert inbound[0] == head + first && inbound[1..] == tunnel;
    assert Ascii("HTTP/1.1 200") <= head ==> Ascii("HTTP/1.1 200") <= head + first;
    assert Ascii("HTTP/1.0 200") <= head ==> Ascii("HTTP/1.0 200") <= head + first;
  }

  // The chain connector on the network that one stream of bytes makes.

  /** The handshakes among some events. */
  function LegsIn(log: seq<Event>): seq<Leg> {
    if log == [] then []
    else LegsIn(log[..|log| - 1]) + if log[|log| - 1].Handshake? then [log[|log| - 1]] else []
  }

  /** Every dial succeeds; a handshake is answered as the bytes that arrive after all handshakes before it say. */
  function StreamNetwork(forms: HostForms, inbound: seq<seq<byte>>): Network {
    (log: seq<Event>) =>
      if log == [] || !log[|log| - 1].Handshake? then Accepted
      else
        match RunLegs(forms, LegsIn(log), inbound, [])
        case Open(_, _) => Accepted
        case Closed(e, _) => Refused(e)
  }

  lemma {:induction false} LastLeg(forms: HostForms, legs: seq<Leg>, leg: Leg, inbound: seq<seq<byte>>, sent: seq<byte>)
    ensures var p := RunLegs(forms, legs, inbound, sent);
            RunLegs(forms, legs + [leg], inbound, sent)
            == if p.Closed? then p else RunLeg(forms, leg, p.inbound, p.sent)
    decreases |legs|
  {
    hide RunLeg;
    if legs == [] {
      NextLeg(forms, leg, [], inbound, sent);
      assert legs + [leg] == [leg] + [];
    } else {
      var p := RunLeg(forms, legs[0], inbound, sent);
      NextLeg(forms, legs[0], legs[1..] + [leg], inbound, sent);
      assert legs + [leg] == [legs[0]] + (legs[1..] + [leg]);
      if p.Open? {
        LastLeg(forms, legs[1..], leg, p.inbound, p.sent);
      }
    }
  }

  lemma NextAnswer(forms: HostForms, inbound: seq<seq<byte>>, log: seq<Event>, leg: Leg)
    requires RunLegs(forms, LegsIn(log), inbound, []).Open?
    ensures var p := RunLegs(forms, LegsIn(log), inbound, []);
            var q := RunLeg(forms, leg, p.inbound, p.sent);
            && RunLegs(forms, LegsIn(log + [leg]), inbound, []) == q
            && StreamNetwork(forms, inbound)(log + [leg]) == if q.Open? then Accepted else Refused(q.error)
  {
    hide RunLeg, RunLegs;
    assert (log + [leg])[..|log|] == log;
    LastLeg(forms, LegsIn(log), leg, inbound, []);
  }

  lemma {:induction false} HopsOnStream(forms: HostForms, inbound: seq<seq<byte>>, chain: seq<UpstreamConfig>, i: nat,
                                        target: ConnectTarget, conn: Conn, log: seq<Event>)
    requires i <= |chain| && (i < |chain| ==> Usable(chain[i]))
    requires RunLegs(forms, LegsIn(log), inbound, []).Open?
    ensures var p := RunLegs(forms, LegsIn(log), inbound, []);
            (RunHops(StreamNetwork(forms, inbound), chain, i, target, conn, log).result.Ok?
             <==> && (forall j :: i < j < |chain| ==> Usable(chain[j]))
                  && RunLegs(forms, Exchanges(chain[i..], target), p.inbound, p.sent).Open?)
    decreases |chain| - i
  {
    hide RunLeg, RunLegs, LegsIn, Usable, StreamNetwork, NextTarget, PerformProxyHandshake, Exchanges;
    var net, p := StreamNetwork(forms, inbound), RunLegs(forms, LegsIn(log), inbound, []);
    if i == |chain| {
      NothingToAsk(chain[i..], target);
      NoLegs(forms, p.inbound, p.sent);
      return;
    }
    NextIsUsable(chain, i, target);
    if NextTarget(chain, i, target).Err? {
      return;
    }
    var next := NextTarget(chain, i, target).value;
    NextExchange(chain, i, target);
    var later := Exchanges(chain[i + 1..], target);
    AskedIs(net, chain[i], next, conn, log);
    if chain[i].Direct? {
      HopsOnStream(forms, inbound, chain, i + 1, target, conn, log);
      assert [] + later == later;
    } else {
      var leg := Asked(chain[i], next)[0];
      NextAnswer(forms, inbound, log, leg);
      NextLeg(forms, leg, later, p.inbound, p.sent);
      if RunLeg(forms, leg, p.inbound, p.sent).Open? {
        HopsOnStream(forms, inbound, chain, i + 1, target, Conn(conn.path + [next]), log + [leg]);
      }
    }
  }

  lemma NothingToAsk(chain: seq<UpstreamConfig>, target: ConnectTarget)
    requires chain == []
    ensures Exchanges(chain, target) == []
  {
  }

  /**
   * The connector and the bytes agree: on the network that one stream of bytes makes, a chain that starts at a proxy
   * connects exactly when its addresses can be used and all its handshakes succeed on that stream, one after the other.
   */
  lemma ChainOnStreamIff(forms: HostForms, inbound: seq<seq<byte>>, chain: seq<UpstreamConfig>, target: ConnectTarget)
    requires chain != [] && !chain[0].Direct?
    ensures ConnectChain(StreamNetwork(forms, inbound), chain, target, []).result.Ok?
       <==> && (forall j :: 0 <= j < |chain| ==> Usable(chain[j]))
            && RunLegs(forms, Exchanges(chain, target), inbound, []).Open?
  {
    hide RunLegs, RunHops, Exchanges, ConnectChain, Usable;
    if Usable(chain[0]) {
      var addr, conn := DialledFirst(forms, inbound, chain, target);
      NoLegs(forms, inbound, []);
      HopsOnStream(forms, inbound, chain, 0, target, conn, [Dialled(addr)]);
      assert chain[0..] == chain;
    } else {
      UnusableFirst(forms, inbound, chain, target);
    }
  }

  lemma DialledFirst(forms: HostForms, inbound: seq<seq<byte>>, chain: seq<UpstreamConfig>, target: ConnectTarget)
    returns (addr: Text, conn: Conn)
    requires chain != [] && !chain[0].Direct? && Usable(chain[0])
    ensures LegsIn([Dialled(addr)]) == []
    ensures var net := StreamNetwork(forms, inbound);
            ConnectChain(net, chain, target, []) == RunHops(net, chain, 0, target, conn, [Dialled(addr)])
  {
    hide RunLegs, RunHops, Exchanges, PerformProxyHandshake, ParseAddrToTarget;
    var net := StreamNetwork(forms, inbound);
    addr := ExtractProxyAddress(chain[0]).value;
    conn := Conn([ParseAddrToTarget(addr).value]);
    var log := [Dialled(addr)];
    assert log[..0] == [] && [] + log == log;
    assert Dial(net, addr, Upstream, []) == Attempt(Ok(conn), log);
    if |chain| == 1 {
      SingleHop(net, chain, target, conn, log);
    }
  }

  lemma UnusableFirst(forms: HostForms, inbound: seq<seq<byte>>, chain: seq<UpstreamConfig>, target: ConnectTarget)
    requires chain != [] && !Usable(chain[0])
    ensures ConnectChain(StreamNetwork(forms, inbound), chain, target, []).result.Err?
  {
    hide RunLegs, RunHops, Exchanges, PerformProxyHandshake, ParseAddrToTarget;
  }

  /**
   * A whole connection: through usable proxies followed by any number of `Direct`, each answering smoothly, the stream
   * leads through the proxies to the target, the client has said exactly its messages, and the tunnel starts at its
   * first byte.
   */
  lemma ChainLeavesTunnel(forms: HostForms, chain: seq<UpstreamConfig>, target: ConnectTarget, es: seq<Exchange>,
                          tunnel: seq<seq<byte>>)
    requires chain != [] && !chain[0].Direct? && WellShaped(chain)
    requires forall j :: 0 <= j < |chain| ==> Usable(chain[j])
    requires AllSmooth(forms, es) && Legs(es) == Exchanges(chain, target)
    ensures var inbound := Answers(es) + tunnel;
            var a := ConnectChain(StreamNetwork(forms, inbound), chain, target, []);
            && a.result.Ok? && a.result.value.path == Route(chain) + [target]
            && RunLegs(forms, Exchanges(chain, target), inbound, []) == Open(tunnel, SaysAll(forms, es))
  {
    hide RunLegs, ConnectChain, Usable, WellShaped, Exchanges, StreamNetwork, AllSmooth;
    var inbound := Answers(es) + tunnel;
    LegsLeaveTunnel(forms, es, tunnel, []);
    assert [] + SaysAll(forms, es) == SaysAll(forms, es);
    ChainOnStreamIff(forms, inbound, chain, target);
    EndToEnd(StreamNetwork(forms, inbound), chain, target, []);
  }
}
