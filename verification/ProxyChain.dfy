/** The chain connector: one stream threaded through the proxies of a chain. */
module ProxyChain {
  import opened Bytes
  import opened Credentials
  import opened HostPort
  import opened UpstreamConfigs

  function ExtractProxyAddress(config: UpstreamConfig): Result<Text> {
    match config
    case Http(addr, _, _) => Ok(addr)
    case Socks5Proxy(addr, _, _) => Ok(addr)
    case Direct => Err(Upstream)
    case Chain(_) => Err(Upstream)
  }

  function PerformProxyHandshake(net: Network, conn: Conn, config: UpstreamConfig, target: ConnectTarget,
                                 log: seq<Event>): Attempt {
    match config
    case Direct => Attempt(Ok(conn), log)
    case Http(_, auth, _) => Shake(net, conn, HttpConnect, auth, target, log)
    case Socks5Proxy(_, auth, _) => Shake(net, conn, Socks5Connect, auth, target, log)
    case Chain(_) => Attempt(Err(Upstream), log)
  }

  /** Where hop `i` is asked to connect to: the next proxy, or the target if the next entry is `Direct` or absent. */
  function NextTarget(chain: seq<UpstreamConfig>, i: nat, target: ConnectTarget): Result<ConnectTarget>
    requires i < |chain|
  {
    if i + 1 < |chain| && !chain[i + 1].Direct? then
      match ExtractProxyAddress(chain[i + 1])
      case Err(e) => Err(e)
      case Ok(addr) => ParseAddrToTarget(addr)
    else Ok(target)
  }

  /** The hops from `i` on. */
  function RunHops(net: Network, chain: seq<UpstreamConfig>, i: nat, target: ConnectTarget, conn: Conn,
                   log: seq<Event>): Attempt
    requires i <= |chain|
    decreases |chain| - i
  {
    if i == |chain| then Attempt(Ok(conn), log)
    else
      match NextTarget(chain, i, target)
      case Err(e) => Attempt(Err(e), log)
      case Ok(next) =>
        var a := PerformProxyHandshake(net, conn, chain[i], next, log);
        if a.result.Err? then a else RunHops(net, chain, i + 1, target, a.result.value, a.log)
  }

  function ConnectChain(net: Network, chain: seq<UpstreamConfig>, target: ConnectTarget, log: seq<Event>): Attempt {
    if chain == [] then Attempt(Err(Upstream), log)
    else if chain == [Direct] then PrintedIsText(target); Dial(net, PrintAddr(target), Upstream, log)
    else
      match ExtractProxyAddress(chain[0])
      case Err(e) => Attempt(Err(e), log)
      case Ok(addr) =>
        var a := Dial(net, addr, Upstream, log);
        if a.result.Err? then a
        else if |chain| == 1 then PerformProxyHandshake(net, a.result.value, chain[0], target, a.log)
        else RunHops(net, chain, 0, target, a.result.value, a.log)
  }

  method ProxyHandshake(wire: Wire, conn: Conn, config: UpstreamConfig, target: ConnectTarget) returns (r: Result<Conn>)
    modifies wire
    ensures Attempt(r, wire.log) == PerformProxyHandshake(wire.net, conn, config, target, old(wire.log))
  {
    match config {
      case Direct => r := Ok(conn);
      case Http(_, auth, _) => r := wire.Request(conn, HttpConnect, auth, target);
      case Socks5Proxy(_, auth, _) => r := wire.Request(conn, Socks5Connect, auth, target);
      case Chain(_) => r := Err(Upstream);
    }
  }

  class ChainConnector {
    const chain: seq<UpstreamConfig>

    constructor (chain: seq<UpstreamConfig>)
      ensures this.chain == chain
    {
      this.chain := chain;
    }

    method Connect(wire: Wire, target: ConnectTarget) returns (r: Result<Conn>)
      modifies wire
      ensures Attempt(r, wire.log) == ConnectChain(wire.net, chain, target, old(wire.log))
    {
      if chain == [] {
        return Err(Upstream);
      }
      if |chain| == 1 {
        if chain[0].Direct? {
          PrintedIsText(target);
          r := wire.Open(PrintAddr(target), Upstream);
          return;
        }
        var proxyAddr := ExtractProxyAddress(chain[0]);
        if proxyAddr.Err? {
          return Err(proxyAddr.error);
        }
        var dialled := wire.Open(proxyAddr.value, Upstream);
        if dialled.Err? {
          return dialled;
        }
        r := ProxyHandshake(wire, dialled.value, chain[0], target);
        return;
      }
      var firstProxyAddr := ExtractProxyAddress(chain[0]);
      if firstProxyAddr.Err? {
        return Err(firstProxyAddr.error);
      }
      var dialled := wire.Open(firstProxyAddr.value, Upstream);
      if dialled.Err? {
        return dialled;
      }
      var stream := dialled.value;
      for i := 0 to |chain|
        invariant RunHops(wire.net, chain, i, target, stream, wire.log)
               == ConnectChain(wire.net, chain, target, old(wire.log))
      {
        var nextTarget := target;
        if i + 1 < |chain| {
          if !chain[i + 1].Direct? {
            var nextAddr := ExtractProxyAddress(chain[i + 1]);
            if nextAddr.Err? {
              return Err(nextAddr.error);
            }
            var parsed := ParseAddrToTarget(nextAddr.value);
            if parsed.Err? {
              return Err(parsed.error);
            }
            nextTarget := parsed.value;
          }
        }
        var shaken := ProxyHandshake(wire, stream, chain[i], nextTarget);
        if shaken.Err? {
          return shaken;
        }
        stream := shaken.value;
      }
      return Ok(stream);
    }
  }
}
