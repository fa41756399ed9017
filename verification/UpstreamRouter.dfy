/** The connector each configuration selects, and how it compares with a chain of one. */
module UpstreamRouter {
  import opened Bytes
  import opened Credentials
  import opened HostPort
  import opened UpstreamConfigs
  import opened ProxyChain
  import ChainLaws

  datatype Connector =
    | DirectConnector
    | HttpProxyConnector(proxyAddr: Text, auth: Option<Credential>, useTls: bool)
    | Socks5ProxyConnector(proxyAddr: Text, auth: Option<Credential>, useTls: bool)
    | ChainOf(chain: seq<UpstreamConfig>)

  function FromConfig(config: UpstreamConfig): Connector {
    match config
    case Direct => DirectConnector
    case Http(addr, auth, tls) => HttpProxyConnector(addr, auth, tls == Some(true))
    case Socks5Proxy(addr, auth, tls) => Socks5ProxyConnector(addr, auth, tls == Some(true))
    case Chain(chain) => ChainOf(chain)
  }

  /** Dial the proxy, wrap the stream if asked to, then shake hands. */
  function ConnectViaProxy(net: Network, addr: Text, auth: Option<Credential>, useTls: bool, protocol: Protocol,
                           target: ConnectTarget, log: seq<Event>): Attempt
  {
    var a := Dial(net, addr, Upstream, log);
    if a.result.Err? then a
    else if !useTls then Shake(net, a.result.value, protocol, auth, target, a.log)
    else
      var wrapped := a.log + [TlsWrapped(ExtractHost(addr))];
      if net(wrapped) != Accepted then Attempt(Err(Upstream), wrapped)
      else Shake(net, a.result.value, protocol, auth, target, wrapped)
  }

  function ConnectWith(net: Network, connector: Connector, target: ConnectTarget, log: seq<Event>): Attempt {
    match connector
    case DirectConnector => PrintedIsText(target); Dial(net, PrintAddr(target), Io, log)
    case HttpProxyConnector(addr, auth, useTls) => ConnectViaProxy(net, addr, auth, useTls, HttpConnect, target, log)
    case Socks5ProxyConnector(addr, auth, useTls) =>
      ConnectViaProxy(net, addr, auth, useTls, Socks5Connect, target, log)
    case ChainOf(chain) => ConnectChain(net, chain, target, log)
  }

  /** A chain of one proxy is that proxy's own connector, on every network, exactly when TLS plays no part. */
  lemma ChainOfOneIff(config: UpstreamConfig, target: ConnectTarget, log: seq<Event>)
    requires config.Http? || config.Socks5Proxy?
    ensures (forall net: Network ::
               ConnectChain(net, [config], target, log) == ConnectWith(net, FromConfig(config), target, log))
       <==> config.tls != Some(true) || ParseAddrToTarget(config.addr).Err?
  {
    if config.tls == Some(true) && ParseAddrToTarget(config.addr).Ok? {
      var net: Network := _ => Accepted;
      var plain, wrapped := ConnectChain(net, [config], target, log), ConnectWith(net, FromConfig(config), target, log);
      assert |plain.log| == |log| + 2 && |wrapped.log| == |log| + 3;
    }
  }

  /** A chain of one `Direct` is the direct connector, up to the variant of a dial error. */
  lemma ChainOfDirect(net: Network, target: ConnectTarget, log: seq<Event>)
    ensures var c, d := ConnectChain(net, [Direct], target, log), ConnectWith(net, FromConfig(Direct), target, log);
            && c.log == d.log
            && (if c.result.Ok? then d.result == c.result else c.result == Err(Upstream) && d.result == Err(Io))
  {
  }

  /** Every connector that succeeds ends at the target. */
  lemma RoutedToTarget(net: Network, config: UpstreamConfig, target: ConnectTarget, log: seq<Event>)
    requires ConnectWith(net, FromConfig(config), target, log).result.Ok?
    ensures var path := ConnectWith(net, FromConfig(config), target, log).result.value.path;
            path != [] && path[|path| - 1] == target
  {
    hide ConnectChain, ParseAddrToTarget, PrintAddr;
    PrintParse(target);
    if config.Chain? {
      ChainLaws.FarEndIsTarget(net, config.chain, target, log);
    }
  }

  /** What a proxy's own connector does in order: dial, wrap if configured, then one handshake for the target. */
  function OwnCourse(config: UpstreamConfig, proxy: ConnectTarget, target: ConnectTarget): seq<Event>
    requires config.Http? || config.Socks5Proxy?
  {
    [Dialled(config.addr)]
    + (if config.tls == Some(true) then [TlsWrapped(proxy.host)] else [])
    + [Handshake(if config.Http? then HttpConnect else Socks5Connect, config.auth, target)]
  }

  /**
   * The whole behaviour of a proxy's own connector on any network: along its course up to the first refusal, which is
   * the error of the handshake, or else an upstream error. The wrapped name is the host of the proxy's address.
   */
  lemma OwnConnectorOutcome(net: Network, config: UpstreamConfig, proxy: ConnectTarget, target: ConnectTarget,
                            log: seq<Event>)
    requires config.Http? || config.Socks5Proxy?
    requires ParseAddrToTarget(config.addr) == Ok(proxy)
    ensures var e := OwnCourse(config, proxy, target);
            var a, w := ConnectWith(net, FromConfig(config), target, log), ChainLaws.Walk(net, log, e);
            && a.log == w.log
            && a.result == match w.refusal
                           case None => Ok(Conn([proxy, target]))
                           case Some(error) => Err(if |w.log| == |log| + |e| then error else Upstream)
  {
    hide ParseAddrToTarget, ExtractHost, ChainLaws.Walk;
    ParsersAgree(config.addr, proxy.host, proxy.port);
    assert [proxy] + [target] == [proxy, target];
    var shake := Handshake(if config.Http? then HttpConnect else Socks5Connect, config.auth, target);
    var wrap := if config.tls == Some(true) then [TlsWrapped(proxy.host)] else [];
    var dialled := log + [Dialled(config.addr)];
    assert OwnCourse(config, proxy, target) == [Dialled(config.addr)] + (wrap + [shake]);
    ChainLaws.WalkOne(net, log, Dialled(config.addr), wrap + [shake]);
    if wrap == [] {
      assert wrap + [shake] == [shake] + [];
      ChainLaws.WalkOne(net, dialled, shake, []);
      ChainLaws.NothingToWalk(net, dialled + [shake]);
    } else {
      var wrapped := dialled + [TlsWrapped(proxy.host)];
      assert wrap == [wrap[0]];
      ChainLaws.WalkOne(net, dialled, wrap[0], [shake]);
      assert [shake] == [shake] + [];
      ChainLaws.WalkOne(net, wrapped, shake, []);
      ChainLaws.NothingToWalk(net, wrapped + [shake]);
      assert ExtractHost(config.addr) == proxy.host;
      assert |OwnCourse(config, proxy, target)| == 3;
    }
  }

  /** A proxy address that does not parse is never reached. */
  lemma BadAddressFails(net: Network, config: UpstreamConfig, target: ConnectTarget, log: seq<Event>)
    requires (config.Http? || config.Socks5Proxy?) && ParseAddrToTarget(config.addr).Err?
    ensures ConnectWith(net, FromConfig(config), target, log) == Attempt(Err(Upstream), log + [Dialled(config.addr)])
  {
  }

  /** Without a proxy the target itself is dialled, as `host:port`. */
  lemma DirectOutcome(net: Network, target: ConnectTarget, log: seq<Event>)
    ensures var later := log + [Dialled(PrintAddr(target))];
            ConnectWith(net, FromConfig(Direct), target, log)
            == Attempt(if net(later) == Accepted then Ok(Conn([target])) else Err(Io), later)
  {
    PrintParse(target);
  }
}
