/** Where a chained connection leads, and which chains mean the same. */
module ChainLaws {
  import opened Bytes
  import opened Credentials
  import opened HostPort
  import opened UpstreamConfigs
  import opened ProxyChain

  /** The address of a proxy entry, as a target. */
  function AddressOf(config: UpstreamConfig): ConnectTarget {
    match ExtractProxyAddress(config)
    case Err(_) => ConnectTarget([], 0)
    case Ok(addr) =>
      match ParseAddrToTarget(addr)
      case Err(_) => ConnectTarget([], 0)
      case Ok(t) => t
  }

  /** The configured proxies, in order. */
  function Route(chain: seq<UpstreamConfig>): seq<ConnectTarget> {
    if chain == [] then []
    else (if chain[0].Direct? then [] else [AddressOf(chain[0])]) + Route(chain[1..])
  }

  predicate AllDirect(chain: seq<UpstreamConfig>) {
    forall i :: 0 <= i < |chain| ==> chain[i].Direct?
  }

  /** Proxies first, then only `Direct` entries. */
  predicate WellShaped(chain: seq<UpstreamConfig>) {
    chain == [] || (if chain[0].Direct? then AllDirect(chain) else WellShaped(chain[1..]))
  }

  /** Where the hops from `i` on are asked to connect to. */
  function Hops(chain: seq<UpstreamConfig>, target: ConnectTarget): seq<ConnectTarget> {
    if chain == [] then []
    else
      (if chain[0].Direct? then []
       else [if |chain| > 1 && !chain[1].Direct? then AddressOf(chain[1]) else target])
      + Hops(chain[1..], target)
  }

  lemma NextHop(chain: seq<UpstreamConfig>, i: nat, target: ConnectTarget)
    requires i < |chain| && NextTarget(chain, i, target).Ok?
    ensures Hops(chain[i..], target)
         == (if chain[i].Direct? then [] else [NextTarget(chain, i, target).value]) + Hops(chain[i + 1..], target)
  {
    assert chain[i..][1..] == chain[i + 1..];
    assert |chain[i..]| > 1 ==> chain[i..][1] == chain[i + 1];
  }

  lemma HandshakePath(net: Network, conn: Conn, config: UpstreamConfig, target: ConnectTarget, log: seq<Event>)
    requires PerformProxyHandshake(net, conn, config, target, log).result.Ok?
    ensures PerformProxyHandshake(net, conn, config, target, log).result.value.path
         == conn.path + if config.Direct? then [] else [target]
  {
  }

  /** Successful hops extend the path by exactly the addresses they were asked for. */
  lemma {:induction false} RunHopsPath(net: Network, chain: seq<UpstreamConfig>, i: nat, target: ConnectTarget,
                                       conn: Conn, log: seq<Event>)
    requires i <= |chain| && RunHops(net, chain, i, target, conn, log).result.Ok?
    ensures RunHops(net, chain, i, target, conn, log).result.value.path == conn.path + Hops(chain[i..], target)
    decreases |chain| - i
  {
    hide PerformProxyHandshake, NextTarget;
    if i < |chain| {
      var next := NextTarget(chain, i, target).value;
      NextHop(chain, i, target);
      HandshakePath(net, conn, chain[i], next, log);
      var a := PerformProxyHandshake(net, conn, chain[i], next, log);
      RunHopsPath(net, chain, i + 1, target, a.result.value, a.log);
    }
  }

  /** The path of every successful connection, whatever the chain. */
  lemma ConnectPath(net: Network, chain: seq<UpstreamConfig>, target: ConnectTarget, log: seq<Event>)
    requires chain != [Direct] && ConnectChain(net, chain, target, log).result.Ok?
    ensures chain != [] && !chain[0].Direct?
    ensures ConnectChain(net, chain, target, log).result.value.path == [AddressOf(chain[0])] + Hops(chain, target)
  {
    var a := Dial(net, ExtractProxyAddress(chain[0]).value, Upstream, log);
    if |chain| == 1 {
      assert Hops(chain, target) == [target] + Hops(chain[1..], target);
      assert Hops(chain[1..], target) == [];
    } else {
      RunHopsPath(net, chain, 0, target, a.result.value, a.log);
      assert chain[0..] == chain;
    }
  }

  /** What one entry is asked for: each proxy in its own protocol, with its own credentials. */
  function Asked(config: UpstreamConfig, next: ConnectTarget): seq<Leg> {
    match config
    case Http(_, auth, _) => [Handshake(HttpConnect, auth, next)]
    case Socks5Proxy(_, auth, _) => [Handshake(Socks5Connect, auth, next)]
    case Direct | Chain(_) => []
  }

  function Exchanges(chain: seq<UpstreamConfig>, target: ConnectTarget): seq<Leg> {
    if chain == [] then []
    else
      Asked(chain[0], if |chain| > 1 && !chain[1].Direct? then AddressOf(chain[1]) else target)
      + Exchanges(chain[1..], target)
  }

  /** The log after an attempt: some of what was to happen, all of it on success. */
  ghost predicate Traced(a: Attempt, log: seq<Event>, e: seq<Event>) {
    exists n :: PrefixLogged(a, log, e, n)
  }

  predicate PrefixLogged(a: Attempt, log: seq<Event>, e: seq<Event>, n: int) {
    0 <= n <= |e| && a.log == log + e[..n] && (a.result.Ok? ==> n == |e|)
  }

  lemma TracedLater(a: Attempt, log: seq<Event>, first: seq<Event>, later: seq<Event>)
    requires Traced(a, log + first, later)
    ensures Traced(a, log, first + later)
  {
    var n :| PrefixLogged(a, log + first, later, n);
    assert (first + later)[..|first| + n] == first + later[..n];
    assert PrefixLogged(a, log, first + later, |first| + n);
  }

  lemma TracedFailure(a: Attempt, log: seq<Event>, first: seq<Event>, later: seq<Event>)
    requires a.result.Err? && a.log == log + first
    ensures Traced(a, log, first + later)
  {
    assert (first + later)[..|first|] == first;
    assert PrefixLogged(a, log, first + later, |first|);
  }

  lemma HandshakeTrace(net: Network, conn: Conn, config: UpstreamConfig, target: ConnectTarget, log: seq<Event>)
    ensures PerformProxyHandshake(net, conn, config, target, log).log == log + Asked(config, target)
  {
  }

  lemma {:induction false} RunHopsTrace(net: Network, chain: seq<UpstreamConfig>, i: nat, target: ConnectTarget,
                                        conn: Conn, log: seq<Event>)
    requires i <= |chain|
    ensures Traced(RunHops(net, chain, i, target, conn, log), log, Exchanges(chain[i..], target))
    decreases |chain| - i
  {
    hide PerformProxyHandshake, Traced, Asked;
    var a := RunHops(net, chain, i, target, conn, log);
    if i == |chain| {
      NothingTraced(a, log);
    } else if NextTarget(chain, i, target).Err? {
      TracedFailure(a, log, [], Exchanges(chain[i..], target));
      assert [] + Exchanges(chain[i..], target) == Exchanges(chain[i..], target);
    } else {
      var next := NextTarget(chain, i, target).value;
      var asked, later := Asked(chain[i], next), Exchanges(chain[i + 1..], target);
      NextExchange(chain, i, target);
      HandshakeTrace(net, conn, chain[i], next, log);
      var h := PerformProxyHandshake(net, conn, chain[i], next, log);
      if h.result.Ok? {
        RunHopsTrace(net, chain, i + 1, target, h.result.value, h.log);
        TracedLater(a, log, asked, later);
      } else {
        TracedFailure(a, log, asked, later);
      }
    }
  }

  lemma NothingTraced(a: Attempt, log: seq<Event>)
    requires a.log == log
    ensures Traced(a, log, [])
  {
    assert PrefixLogged(a, log, [], 0);
  }

  lemma NextExchange(chain: seq<UpstreamConfig>, i: nat, target: ConnectTarget)
    requires i < |chain| && NextTarget(chain, i, target).Ok?
    ensures Exchanges(chain[i..], target)
         == Asked(chain[i], NextTarget(chain, i, target).value) + Exchanges(chain[i + 1..], target)
  {
    hide Asked;
    assert chain[i..][1..] == chain[i + 1..];
    assert |chain[i..]| > 1 ==> chain[i..][1] == chain[i + 1];
  }

  /**
   * What happens on the network, success or not: the first proxy is dialled, then each proxy is asked in turn for the
   * next one or the target, in its own protocol and with its own credentials, and nothing else happens. A failure cuts
   * this short, a success has all of it.
   */
  lemma ConnectTrace(net: Network, chain: seq<UpstreamConfig>, target: ConnectTarget, log: seq<Event>)
    requires chain != [] && ExtractProxyAddress(chain[0]).Ok?
    ensures Traced(ConnectChain(net, chain, target, log), log,
                   [Dialled(ExtractProxyAddress(chain[0]).value)] + Exchanges(chain, target))
  {
    hide Traced, RunHops, Exchanges, PerformProxyHandshake;
    var first := [Dialled(ExtractProxyAddress(chain[0]).value)];
    var d := Dial(net, ExtractProxyAddress(chain[0]).value, Upstream, log);
    if d.result.Ok? {
      if |chain| == 1 {
        SingleHop(net, chain, target, d.result.value, d.log);
      }
      RunHopsTrace(net, chain, 0, target, d.result.value, d.log);
      assert chain[0..] == chain;
      TracedLater(ConnectChain(net, chain, target, log), log, first, Exchanges(chain, target));
    } else {
      TracedFailure(ConnectChain(net, chain, target, log), log, first, Exchanges(chain, target));
    }
  }

  lemma {:induction false} AllDirectHasNoHops(chain: seq<UpstreamConfig>, target: ConnectTarget)
    requires AllDirect(chain)
    ensures Hops(chain, target) == [] && Route(chain) == []
    decreases |chain|
  {
    if chain != [] {
      AllDirectHasNoHops(chain[1..], target);
    }
  }

  /** Where a `Direct` stands before a proxy, that proxy is itself the target. */
  predicate OnlyTargetAfterDirect(chain: seq<UpstreamConfig>, target: ConnectTarget) {
    forall i :: 1 <= i < |chain| && chain[i - 1].Direct? && !chain[i].Direct? ==> AddressOf(chain[i]) == target
  }

  /** Where a hop before these entries is asked to connect to. */
  function Entry(chain: seq<UpstreamConfig>, target: ConnectTarget): ConnectTarget {
    if chain != [] && !chain[0].Direct? then AddressOf(chain[0]) else target
  }

  /** The addresses asked for are the proxies and the target exactly when no hop asks for the target too early. */
  lemma {:induction false} HopsAreRouteIff(chain: seq<UpstreamConfig>, target: ConnectTarget)
    ensures [Entry(chain, target)] + Hops(chain, target) == Route(chain) + [target]
       <==> OnlyTargetAfterDirect(chain, target)
    decreases |chain|
  {
    hide AddressOf;
    if chain != [] {
      var rest := chain[1..];
      HopsAreRouteIff(rest, target);
      TailCondition(chain, target);
      var left, right := [Entry(rest, target)] + Hops(rest, target), Route(rest) + [target];
      if !chain[0].Direct? {
        var first := [AddressOf(chain[0])];
        assert Entry(rest, target) == if |chain| > 1 && !chain[1].Direct? then AddressOf(chain[1]) else target;
        assert [Entry(chain, target)] + Hops(chain, target) == first + left;
        assert Route(chain) + [target] == first + right;
        assert (first + left)[1..] == left && (first + right)[1..] == right;
      } else {
        assert Hops(chain, target) == Hops(rest, target) && Route(chain) == Route(rest);
        if Entry(rest, target) != target {
          assert right[0] == Entry(rest, target);
          assert ([target] + Hops(rest, target))[0] == target;
        }
      }
    }
  }

  lemma TailCondition(chain: seq<UpstreamConfig>, target: ConnectTarget)
    requires chain != []
    ensures OnlyTargetAfterDirect(chain, target)
       <==> (chain[0].Direct? ==> Entry(chain[1..], target) == target) && OnlyTargetAfterDirect(chain[1..], target)
  {
    hide AddressOf;
    var rest := chain[1..];
    if OnlyTargetAfterDirect(chain, target) {
      forall i | 1 <= i < |rest| && rest[i - 1].Direct? && !rest[i].Direct? ensures AddressOf(rest[i]) == target {
        assert chain[i + 1] == rest[i] && chain[i + 1 - 1] == rest[i - 1];
      }
    }
    if (chain[0].Direct? ==> Entry(rest, target) == target) && OnlyTargetAfterDirect(rest, target) {
      forall i | 1 <= i < |chain| && chain[i - 1].Direct? && !chain[i].Direct? ensures AddressOf(chain[i]) == target {
        if i > 1 {
          assert rest[i - 1] == chain[i] && rest[i - 1 - 1] == chain[i - 1];
        }
      }
    }
  }

  /**
   * End to end, for every chain and target: a successful connection leads through every configured proxy once, in
   * order, and ends at the target, exactly when every proxy right after a `Direct` is itself the target.
   */
  lemma EndToEndIff(net: Network, chain: seq<UpstreamConfig>, target: ConnectTarget, log: seq<Event>)
    requires ConnectChain(net, chain, target, log).result.Ok?
    ensures ConnectChain(net, chain, target, log).result.value.path == Route(chain) + [target]
       <==> OnlyTargetAfterDirect(chain, target)
  {
    hide AddressOf, Hops, Route;
    HopsAreRouteIff(chain, target);
    if chain == [Direct] {
      PrintParse(target);
      DirectHasNoHops(target);
    } else {
      ConnectPath(net, chain, target, log);
    }
  }

  lemma DirectHasNoHops(target: ConnectTarget)
    ensures Hops([Direct], target) == [] && Route([Direct]) == []
  {
    AllDirectHasNoHops([Direct], target);
  }

  lemma {:induction false} WellShapedMeetsCondition(chain: seq<UpstreamConfig>, target: ConnectTarget)
    requires WellShaped(chain)
    ensures OnlyTargetAfterDirect(chain, target)
    decreases |chain|
  {
    if chain != [] && !chain[0].Direct? {
      WellShapedMeetsCondition(chain[1..], target);
      TailCondition(chain, target);
    }
  }

  /** In particular, one or more proxies followed by any number of `Direct` lead through the proxies to the target. */
  lemma EndToEnd(net: Network, chain: seq<UpstreamConfig>, target: ConnectTarget, log: seq<Event>)
    requires ConnectChain(net, chain, target, log).result.Ok? && WellShaped(chain)
    ensures ConnectChain(net, chain, target, log).result.value.path == Route(chain) + [target]
  {
    hide ConnectChain;
    WellShapedMeetsCondition(chain, target);
    EndToEndIff(net, chain, target, log);
  }

  /** Whatever its shape, a chain that connects ends at the target. */
  lemma FarEndIsTarget(net: Network, chain: seq<UpstreamConfig>, target: ConnectTarget, log: seq<Event>)
    requires ConnectChain(net, chain, target, log).result.Ok?
    ensures var path := ConnectChain(net, chain, target, log).result.value.path;
            path != [] && path[|path| - 1] == target
  {
    if chain == [Direct] {
      PrintParse(target);
    } else {
      ConnectPath(net, chain, target, log);
      LastHopIsTarget(chain, target);
    }
  }

  lemma {:induction false} LastHopIsTarget(chain: seq<UpstreamConfig>, target: ConnectTarget)
    requires !AllDirect(chain)
    ensures var hops := Hops(chain, target); hops != [] && hops[|hops| - 1] == target
    decreases |chain|
  {
    if AllDirect(chain[1..]) {
      AllDirectHasNoHops(chain[1..], target);
      assert !chain[0].Direct? by {
        var i :| 0 <= i < |chain| && !chain[i].Direct?;
        assert i > 0 ==> chain[1..][i - 1] == chain[i];
      }
      assert |chain| > 1 ==> chain[1..][0] == chain[1];
    } else {
      LastHopIsTarget(chain[1..], target);
    }
  }

  /** An entry that can be dialled or asked for; a nested chain cannot. */
  predicate Usable(config: UpstreamConfig) {
    config.Direct? || (ExtractProxyAddress(config).Ok? && ParseAddrToTarget(ExtractProxyAddress(config).value).Ok?)
  }

  lemma NextIsUsable(chain: seq<UpstreamConfig>, i: nat, target: ConnectTarget)
    requires i < |chain|
    ensures NextTarget(chain, i, target).Ok? <==> i + 1 == |chain| || Usable(chain[i + 1])
  {
  }

  /** Hops leading to an entry that cannot be used, or starting at a nested chain, fail. */
  lemma {:induction false} UnusableHopsFail(net: Network, chain: seq<UpstreamConfig>, i: nat, k: nat,
                                            target: ConnectTarget, conn: Conn, log: seq<Event>)
    requires i <= k < |chain| && !Usable(chain[k]) && (i < k || chain[k].Chain?)
    ensures RunHops(net, chain, i, target, conn, log).result.Err?
    decreases |chain| - i
  {
    hide Usable;
    NextIsUsable(chain, i, target);
    if NextTarget(chain, i, target).Ok? && i < k {
      var a := PerformProxyHandshake(net, conn, chain[i], NextTarget(chain, i, target).value, log);
      if a.result.Ok? {
        UnusableHopsFail(net, chain, i + 1, k, target, a.result.value, a.log);
      }
    }
  }

  lemma UnusableChainFails(net: Network, chain: seq<UpstreamConfig>, k: nat, target: ConnectTarget, log: seq<Event>)
    requires k < |chain| && !Usable(chain[k])
    ensures ConnectChain(net, chain, target, log).result.Err?
  {
    if ExtractProxyAddress(chain[0]).Ok? {
      var a := Dial(net, ExtractProxyAddress(chain[0]).value, Upstream, log);
      if a.result.Ok? {
        assert k > 0;
        UnusableHopsFail(net, chain, 0, k, target, a.result.value, a.log);
      }
    }
  }

  /** A chain with a chain inside never connects, whatever the network does. */
  lemma NestedChainFails(net: Network, chain: seq<UpstreamConfig>, k: nat, target: ConnectTarget, log: seq<Event>)
    requires k < |chain| && chain[k].Chain?
    ensures ConnectChain(net, chain, target, log).result.Err?
  {
    UnusableChainFails(net, chain, k, target, log);
  }

  const OBLIGING: Network := _ => Accepted

  lemma {:induction false} ObligingHops(chain: seq<UpstreamConfig>, i: nat, target: ConnectTarget, conn: Conn,
                                        log: seq<Event>)
    requires i <= |chain| && forall k :: 0 <= k < |chain| ==> Usable(chain[k])
    ensures RunHops(OBLIGING, chain, i, target, conn, log).result.Ok?
    decreases |chain| - i
  {
    hide Usable;
    if i < |chain| {
      NextIsUsable(chain, i, target);
      var next := NextTarget(chain, i, target).value;
      UsableShakes(chain[i], conn, next, log);
      var a := PerformProxyHandshake(OBLIGING, conn, chain[i], next, log);
      ObligingHops(chain, i + 1, target, a.result.value, a.log);
    }
  }

  lemma UsableShakes(config: UpstreamConfig, conn: Conn, next: ConnectTarget, log: seq<Event>)
    requires Usable(config)
    ensures PerformProxyHandshake(OBLIGING, conn, config, next, log).result.Ok?
  {
  }

  predicate Connectable(chain: seq<UpstreamConfig>) {
    chain == [Direct] || (chain != [] && !chain[0].Direct? && forall k :: 0 <= k < |chain| ==> Usable(chain[k]))
  }

  lemma ObligingConnects(chain: seq<UpstreamConfig>, target: ConnectTarget, log: seq<Event>)
    requires Connectable(chain)
    ensures ConnectChain(OBLIGING, chain, target, log).result.Ok?
  {
    if chain == [Direct] {
      PrintParse(target);
    } else {
      var addr := ExtractProxyAddress(chain[0]).value;
      var a := Dial(OBLIGING, addr, Upstream, log);
      ObligingHops(chain, 0, target, a.result.value, a.log);
      UsableShakes(chain[0], a.result.value, target, a.log);
    }
  }

  /** Some network lets a chain connect exactly when it is a lone `Direct`, or usable throughout with a proxy first. */
  lemma ConnectableIff(chain: seq<UpstreamConfig>, target: ConnectTarget, log: seq<Event>)
    ensures (exists net: Network :: ConnectChain(net, chain, target, log).result.Ok?) <==> Connectable(chain)
  {
    if Connectable(chain) {
      ObligingConnects(chain, target, log);
    } else {
      forall net: Network ensures ConnectChain(net, chain, target, log).result.Err? {
        if chain != [] && !chain[0].Direct? {
          var k :| 0 <= k < |chain| && !Usable(chain[k]);
          UnusableChainFails(net, chain, k, target, log);
        }
      }
    }
  }

  lemma AskedIs(net: Network, config: UpstreamConfig, next: ConnectTarget, conn: Conn, log: seq<Event>)
    requires Usable(config)
    ensures config.Direct? ==>
              Asked(config, next) == [] && PerformProxyHandshake(net, conn, config, next, log) == Attempt(Ok(conn), log)
    ensures !config.Direct? ==>
              && |Asked(config, next)| == 1 && Asked(config, next) == [Asked(config, next)[0]]
              && var later := log + [Asked(config, next)[0]];
              && PerformProxyHandshake(net, conn, config, next, log)
                 == match net(later)
                    case Accepted => Attempt(Ok(Conn(conn.path + [next])), later)
                    case Refused(e) => Attempt(Err(e), later)
  {
  }

  /** What is to happen on the network, in order. */
  function Course(chain: seq<UpstreamConfig>, target: ConnectTarget): seq<Event>
    requires Connectable(chain)
  {
    if chain == [Direct] then [Dialled(PrintAddr(target))]
    else [Dialled(ExtractProxyAddress(chain[0]).value)] + Exchanges(chain, target)
  }

  /** How far some events get, and the error of the one that is refused. */
  datatype Walked = Walked(refusal: Option<ProxyError>, log: seq<Event>)

  /** Events one after the other, up to the first refusal. */
  function Walk(net: Network, log: seq<Event>, e: seq<Event>): Walked
    decreases |e|
  {
    if e == [] then Walked(None, log)
    else
      var later := log + [e[0]];
      match net(later)
      case Refused(error) => Walked(Some(error), later)
      case Accepted => Walk(net, later, e[1..])
  }

  lemma WalkOne(net: Network, log: seq<Event>, first: Event, later: seq<Event>)
    ensures Walk(net, log, [first] + later)
         == match net(log + [first])
            case Refused(error) => Walked(Some(error), log + [first])
            case Accepted => Walk(net, log + [first], later)
  {
    assert ([first] + later)[1..] == later;
  }

  /** All are accepted exactly when each is, with those before it in the log. */
  lemma {:induction false} WalkIff(net: Network, log: seq<Event>, e: seq<Event>)
    ensures Walk(net, log, e).refusal == None <==> forall j :: 0 < j <= |e| ==> net(log + e[..j]) == Accepted
    ensures Walk(net, log, e).refusal == None ==> Walk(net, log, e).log == log + e
    decreases |e|
  {
    if e == [] {
      assert log + e == log;
    } else {
      var first := log + [e[0]];
      WalkIff(net, first, e[1..]);
      assert log + e[..1] == first && first + e[1..] == log + e;
      assert forall j :: 0 <= j <= |e| - 1 ==> first + e[1..][..j] == log + e[..j + 1];
      if forall j :: 0 < j <= |e| ==> net(log + e[..j]) == Accepted {
        forall j | 0 < j <= |e[1..]| ensures net(first + e[1..][..j]) == Accepted {
          assert net(log + e[..j + 1]) == Accepted;
        }
      }
      if Walk(net, log, e).refusal == None {
        forall j | 0 < j <= |e| ensures net(log + e[..j]) == Accepted {
          assert j > 1 ==> net(first + e[1..][..j - 1]) == Accepted;
        }
      }
    }
  }

  lemma {:induction false} HopsOutcome(net: Network, chain: seq<UpstreamConfig>, i: nat, target: ConnectTarget,
                                       conn: Conn, log: seq<Event>)
    requires i <= |chain| && forall j :: 0 <= j < |chain| ==> Usable(chain[j])
    ensures var a, w := RunHops(net, chain, i, target, conn, log), Walk(net, log, Exchanges(chain[i..], target));
            && a.log == w.log && (a.result.Ok? <==> w.refusal.None?)
            && (w.refusal.Some? ==> a.result == Err(w.refusal.value))
    decreases |chain| - i
  {
    hide Usable, NextTarget, PerformProxyHandshake, Walk;
    if i == |chain| {
      NothingToWalk(net, log);
      return;
    }
    NextIsUsable(chain, i, target);
    var next := NextTarget(chain, i, target).value;
    NextExchange(chain, i, target);
    var later := Exchanges(chain[i + 1..], target);
    AskedIs(net, chain[i], next, conn, log);
    if chain[i].Direct? {
      assert [] + later == later;
      HopsOutcome(net, chain, i + 1, target, conn, log);
    } else {
      var leg := Asked(chain[i], next)[0];
      WalkOne(net, log, leg, later);
      HopsOutcome(net, chain, i + 1, target, Conn(conn.path + [next]), log + [leg]);
    }
  }

  lemma NothingToWalk(net: Network, log: seq<Event>)
    ensures Walk(net, log, []) == Walked(None, log)
  {
  }

  /**
   * The whole behaviour of the connector on any network: it goes along its course up to the first refusal. A refused
   * dial is an upstream error, a refused handshake the error of that handshake.
   */
  lemma ConnectOutcome(net: Network, chain: seq<UpstreamConfig>, target: ConnectTarget, log: seq<Event>)
    requires Connectable(chain)
    ensures var a, w := ConnectChain(net, chain, target, log), Walk(net, log, Course(chain, target));
            && a.log == w.log && (a.result.Ok? <==> w.refusal.None?)
            && (w.refusal.Some? ==>
                  a.result == Err(if net(log + Course(chain, target)[..1]).Refused? then Upstream else w.refusal.value))
  {
    hide RunHops, Exchanges, PerformProxyHandshake, Walk, ParseAddrToTarget, PrintAddr;
    PrintParse(target);
    if chain == [Direct] {
      WalkOne(net, log, Dialled(PrintAddr(target)), []);
      NothingToWalk(net, log + [Dialled(PrintAddr(target))]);
      assert [Dialled(PrintAddr(target))] + [] == Course(chain, target);
    } else {
      var addr := ExtractProxyAddress(chain[0]).value;
      var later := Exchanges(chain, target);
      WalkOne(net, log, Dialled(addr), later);
      assert ([Dialled(addr)] + later)[..1] == [Dialled(addr)];
      var d := Dial(net, addr, Upstream, log);
      if d.result.Ok? {
        assert chain[0..] == chain;
        HopsOutcome(net, chain, 0, target, d.result.value, d.log);
        if |chain| == 1 {
          SingleHop(net, chain, target, d.result.value, d.log);
        }
      }
    }
  }

  /** A chain connects exactly when it can and the network accepts its whole course. */
  lemma ConnectsIff(net: Network, chain: seq<UpstreamConfig>, target: ConnectTarget, log: seq<Event>)
    ensures ConnectChain(net, chain, target, log).result.Ok?
       <==> && Connectable(chain)
            && forall j :: 0 < j <= |Course(chain, target)| ==> net(log + Course(chain, target)[..j]) == Accepted
  {
    hide ConnectChain, Course, Connectable, Walk;
    ConnectableIff(chain, target, log);
    if Connectable(chain) {
      ConnectOutcome(net, chain, target, log);
      WalkIff(net, log, Course(chain, target));
    }
  }

  // Chains that cannot connect.

  /** What is asked before the hop in front of entry `k` would have to name it. */
  function Early(chain: seq<UpstreamConfig>, i: nat, k: nat, target: ConnectTarget): seq<Event>
    requires i < k < |chain|
    decreases k - i
  {
    if i + 1 == k then []
    else
      Asked(chain[i], if chain[i + 1].Direct? then target else AddressOf(chain[i + 1]))
      + Early(chain, i + 1, k, target)
  }

  lemma NextUsable(chain: seq<UpstreamConfig>, i: nat, target: ConnectTarget)
    requires i + 1 < |chain|
    ensures Usable(chain[i + 1]) ==>
              NextTarget(chain, i, target) == Ok(if chain[i + 1].Direct? then target else AddressOf(chain[i + 1]))
    ensures !Usable(chain[i + 1]) ==> NextTarget(chain, i, target) == Err(Upstream)
  {
  }

  lemma {:induction false} UnusableHopsOutcome(net: Network, chain: seq<UpstreamConfig>, i: nat, k: nat,
                                               target: ConnectTarget, conn: Conn, log: seq<Event>)
    requires i < k < |chain| && !Usable(chain[k]) && forall j :: 0 <= j < k ==> Usable(chain[j])
    ensures var a, w := RunHops(net, chain, i, target, conn, log), Walk(net, log, Early(chain, i, k, target));
            a == Attempt(Err(if w.refusal.Some? then w.refusal.value else Upstream), w.log)
    decreases k - i
  {
    hide Usable, NextTarget, PerformProxyHandshake, Walk, AddressOf;
    NextUsable(chain, i, target);
    if i + 1 == k {
      NothingToWalk(net, log);
    } else {
      var next := NextTarget(chain, i, target).value;
      var later := Early(chain, i + 1, k, target);
      AskedIs(net, chain[i], next, conn, log);
      if chain[i].Direct? {
        assert [] + later == later;
        UnusableHopsOutcome(net, chain, i + 1, k, target, conn, log);
      } else {
        var leg := Asked(chain[i], next)[0];
        WalkOne(net, log, leg, later);
        UnusableHopsOutcome(net, chain, i + 1, k, target, Conn(conn.path + [next]), log + [leg]);
      }
    }
  }

  /** Nothing happens on the network when a chain is empty, or starts with something that has no address. */
  lemma NoFirstProxy(net: Network, chain: seq<UpstreamConfig>, target: ConnectTarget, log: seq<Event>)
    requires chain != [Direct] && (chain == [] || chain[0].Direct? || chain[0].Chain?)
    ensures ConnectChain(net, chain, target, log) == Attempt(Err(Upstream), log)
  {
  }

  /**
   * A chain with an entry that cannot be used goes as far as it can without naming it, and then fails with an upstream
   * error.
   */
  lemma UnusableOutcome(net: Network, chain: seq<UpstreamConfig>, k: nat, target: ConnectTarget, log: seq<Event>)
    requires k < |chain| && !Usable(chain[k]) && (forall j :: 0 <= j < k ==> Usable(chain[j]))
    requires !chain[0].Direct? && !chain[0].Chain?
    ensures var dial := log + [Dialled(ExtractProxyAddress(chain[0]).value)];
            var a := ConnectChain(net, chain, target, log);
            if k == 0 || net(dial).Refused? then a == Attempt(Err(Upstream), dial)
            else
              var w := Walk(net, dial, Early(chain, 0, k, target));
              a == Attempt(Err(if w.refusal.Some? then w.refusal.value else Upstream), w.log)
  {
    hide RunHops, Walk, ParseAddrToTarget;
    if k > 0 {
      var addr := ExtractProxyAddress(chain[0]).value;
      var d := Dial(net, addr, Upstream, log);
      if d.result.Ok? {
        UnusableHopsOutcome(net, chain, 0, k, target, d.result.value, d.log);
      }
    }
  }

  ghost predicate AlwaysEndToEnd(chain: seq<UpstreamConfig>, target: ConnectTarget, log: seq<Event>) {
    forall net: Network :: ConnectChain(net, chain, target, log).result.Ok? ==>
      ConnectChain(net, chain, target, log).result.value.path == Route(chain) + [target]
  }

  /**
   * For every chain that can connect at all: on all networks its connections lead through the proxies to the target,
   * exactly when every proxy right after a `Direct` is itself the target. Otherwise it does connect, somewhere else.
   */
  lemma AlwaysEndToEndIff(chain: seq<UpstreamConfig>, target: ConnectTarget, log: seq<Event>)
    requires Connectable(chain)
    ensures AlwaysEndToEnd(chain, target, log) <==> OnlyTargetAfterDirect(chain, target)
  {
    hide ConnectChain, Connectable, OnlyTargetAfterDirect, Route;
    ObligingConnects(chain, target, log);
    EndToEndIff(OBLIGING, chain, target, log);
    forall net: Network | ConnectChain(net, chain, target, log).result.Ok?
      ensures ConnectChain(net, chain, target, log).result.value.path == Route(chain) + [target]
         <==> OnlyTargetAfterDirect(chain, target)
    {
      EndToEndIff(net, chain, target, log);
    }
  }

  /** For example, the second proxy of `p, Direct, q` is asked for inside the connection to the target. */
  lemma DirectInTheMiddle(p: ConnectTarget, q: ConnectTarget, target: ConnectTarget, log: seq<Event>)
    ensures ValidUtf8(PrintAddr(p)) && ValidUtf8(PrintAddr(q))
    ensures var chain := [Http(PrintAddr(p), None, None), Direct, Http(PrintAddr(q), None, None)];
            var r := ConnectChain(OBLIGING, chain, target, log).result;
            r.Ok? && r.value.path == [p, target, target] && Route(chain) == [p, q]
  {
    hide ConnectChain, ValidUtf8, PrintAddr, ParseAddrToTarget;
    PrintParse(p);
    PrintParse(q);
    var first, third := Http(PrintAddr(p), None, None), Http(PrintAddr(q), None, None);
    var chain := [first, Direct, third];
    ObligingConnects(chain, target, log);
    ConnectPath(OBLIGING, chain, target, log);
    assert chain[1..] == [Direct, third] && chain[1..][1..] == [third] && [third][1..] == [];
    assert Hops([third], target) == [target] + Hops([], target);
    assert Hops([Direct, third], target) == [] + Hops([third], target);
    assert Route([third]) == [q] + Route([]);
    assert Route([Direct, third]) == [] + Route([third]);
  }

  /** The hops of a chain are those of the chain with one more `Direct` at its end. */
  lemma {:induction false} TrailingDirectHops(net: Network, chain: seq<UpstreamConfig>, i: nat, target: ConnectTarget,
                                              conn: Conn, log: seq<Event>)
    requires i <= |chain|
    ensures RunHops(net, chain + [Direct], i, target, conn, log) == RunHops(net, chain, i, target, conn, log)
    decreases |chain| - i
  {
    var longer := chain + [Direct];
    if i == |chain| {
      assert RunHops(net, longer, i, target, conn, log) == RunHops(net, longer, i + 1, target, conn, log);
    } else {
      assert NextTarget(longer, i, target) == NextTarget(chain, i, target);
      if NextTarget(chain, i, target).Ok? {
        var a := PerformProxyHandshake(net, conn, chain[i], NextTarget(chain, i, target).value, log);
        if a.result.Ok? {
          TrailingDirectHops(net, chain, i + 1, target, a.result.value, a.log);
        }
      }
    }
  }

  /**
   * A `Direct` at the end changes nothing, neither the exchanges on the network nor the result, on any network, exactly
   * when there is something other than a lone `Direct` before it.
   */
  lemma TrailingDirectIff(chain: seq<UpstreamConfig>, target: ConnectTarget, log: seq<Event>)
    ensures (forall net: Network ::
               ConnectChain(net, chain + [Direct], target, log) == ConnectChain(net, chain, target, log))
       <==> chain != [] && chain != [Direct]
  {
    if chain != [] && chain != [Direct] {
      forall net: Network
        ensures ConnectChain(net, chain + [Direct], target, log) == ConnectChain(net, chain, target, log)
      {
        TrailingDirect(net, chain, target, log);
      }
    } else {
      var net: Network := _ => Accepted;
      PrintParse(target);
      assert ([] + [Direct]) == [Direct];
      assert ConnectChain(net, [Direct], target, log).result.Ok?;
      assert [Direct] + [Direct] == [Direct, Direct];
      assert ConnectChain(net, chain + [Direct], target, log) != ConnectChain(net, chain, target, log);
    }
  }

  lemma TrailingDirect(net: Network, chain: seq<UpstreamConfig>, target: ConnectTarget, log: seq<Event>)
    requires chain != [] && chain != [Direct]
    ensures ConnectChain(net, chain + [Direct], target, log) == ConnectChain(net, chain, target, log)
  {
    var longer := chain + [Direct];
    assert longer[0] == chain[0] && longer != [Direct];
    if ExtractProxyAddress(chain[0]).Ok? {
      var a := Dial(net, ExtractProxyAddress(chain[0]).value, Upstream, log);
      if a.result.Ok? {
        TrailingDirectHops(net, chain, 0, target, a.result.value, a.log);
        if |chain| == 1 {
          SingleHop(net, chain, target, a.result.value, a.log);
        }
      }
    }
  }

  /** One proxy, handled on its own or as a loop of one hop: the same. */
  lemma SingleHop(net: Network, chain: seq<UpstreamConfig>, target: ConnectTarget, conn: Conn, log: seq<Event>)
    requires |chain| == 1
    ensures RunHops(net, chain, 0, target, conn, log) == PerformProxyHandshake(net, conn, chain[0], target, log)
  {
  }
}
