/** Upstream configuration, and the network as the connectors see it. */
module UpstreamConfigs {
  import opened Bytes
  import opened Credentials
  import opened HostPort

  datatype UpstreamConfig =
    | Direct
    | Http(addr: Text, auth: Option<Credential>, tls: Option<bool>)
    | Socks5Proxy(addr: Text, auth: Option<Credential>, tls: Option<bool>)
    | Chain(chain: seq<UpstreamConfig>)

  datatype Protocol = HttpConnect | Socks5Connect

  /** What a connector does on the network, in order. */
  datatype Event =
    | Dialled(addr: seq<byte>)
    | TlsWrapped(host: seq<byte>)
    | Handshake(protocol: Protocol, auth: Option<Credential>, target: ConnectTarget)

  /** One handshake of a chain. */
  type Leg = e: Event | e.Handshake? witness Handshake(Socks5Connect, None, ConnectTarget([], 0))

  datatype Answer = Accepted | Refused(error: ProxyError)

  /** How the network answers the last of a series of events. */
  type Network = seq<Event> -> Answer

  /**
   * An open stream: the addresses it leads through, the last being its far end. A far end that accepts a handshake has
   * dialled the requested target, which becomes the new far end.
   */
  datatype Conn = Conn(path: seq<ConnectTarget>)

  datatype Attempt = Attempt(result: Result<Conn>, log: seq<Event>)

  /** Opening a TCP connection; an address without a valid port cannot be dialled. */
  function Dial(net: Network, addr: Text, failure: ProxyError, log: seq<Event>): Attempt {
    var later := log + [Dialled(addr)];
    match (ParseAddrToTarget(addr), net(later))
    case (Ok(t), Accepted) => Attempt(Ok(Conn([t])), later)
    case _ => Attempt(Err(failure), later)
  }

  function Shake(net: Network, conn: Conn, protocol: Protocol, auth: Option<Credential>, target: ConnectTarget,
                 log: seq<Event>): Attempt
  {
    var later := log + [Handshake(protocol, auth, target)];
    match net(later)
    case Accepted => Attempt(Ok(Conn(conn.path + [target])), later)
    case Refused(e) => Attempt(Err(e), later)
  }

  /** The network with its history, as the connectors update it. */
  class Wire {
    const net: Network
    var log: seq<Event>

    constructor (net: Network)
      ensures this.net == net && log == []
    {
      this.net, log := net, [];
    }

    method Open(addr: Text, failure: ProxyError) returns (r: Result<Conn>)
      modifies this
      ensures Attempt(r, log) == Dial(net, addr, failure, old(log))
    {
      log := log + [Dialled(addr)];
      var target := ParseAddrToTarget(addr);
      if target.Err? || net(log) != Accepted {
        return Err(failure);
      }
      return Ok(Conn([target.value]));
    }

    method Request(conn: Conn, protocol: Protocol, auth: Option<Credential>,
                   target: ConnectTarget) returns (r: Result<Conn>)
      modifies this
      ensures Attempt(r, log) == Shake(net, conn, protocol, auth, target, old(log))
    {
      log := log + [Handshake(protocol, auth, target)];
      match net(log) {
        case Accepted => return Ok(Conn(conn.path + [target]));
        case Refused(e) => return Err(e);
      }
    }
  }
}
