/** The relay's shared state, updated in place. Every method keeps the invariant of all runs. */
module UdpRelayProgram {
  import opened Bytes
  import opened Address
  import opened UdpCodec
  import opened UdpRelay
  import opened UdpRelayRuns

  /** What the relay loop is woken by. */
  datatype Event = ChannelClosed | ChannelData | Arrived(packet: Packet) | RelayError

  /** What a listener is woken by, and whether the response then reaches the relay socket. */
  datatype Arrival = Heard(sender: TargetAddr, payload: seq<byte>, delivered: bool) | SocketError

  predicate Ends(e: Event) {
    e.ChannelClosed? || e.RelayError?
  }

  function PacketsOf(e: Event): seq<Packet> {
    if e.Arrived? then [e.packet] else []
  }

  /** The packets the loop takes before it ends. */
  function Taken(events: seq<Event>): seq<Packet> {
    if events == [] then []
    else PacketsOf(events[0]) + if Ends(events[0]) then [] else Taken(events[1..])
  }

  lemma FreshConcat(a: seq<Packet>, b: seq<Packet>)
    ensures FreshTasks(a + b) == FreshTasks(a) + FreshTasks(b)
  {
  }

  lemma NoTasks()
    ensures FreshTasks([]) == []
  {
  }

  predicate Breaks(a: Arrival) {
    a.SocketError? || !a.delivered
  }

  function RepliesTo(s: Sock, k: nat, a: Arrival): seq<Response> {
    if Breaks(a) then [] else [Response(s.owner, k, a.sender, UdpPacket(s.source, a.payload), a.payload)]
  }

  function LabelsOf(k: nat, a: Arrival): seq<Label> {
    match a
    case SocketError => [Break(k), CleanUp(k)]
    case Heard(sender, payload, delivered) =>
      [Hear(k, sender, payload, delivered)] + if delivered then [] else [CleanUp(k)]
  }

  /** The responses a listener sends before it breaks. */
  function Replies(s: Sock, k: nat, arrivals: seq<Arrival>): seq<Response> {
    if arrivals == [] then []
    else RepliesTo(s, k, arrivals[0]) + if Breaks(arrivals[0]) then [] else Replies(s, k, arrivals[1..])
  }

  /** The steps of a listener. */
  function ListenLabels(k: nat, arrivals: seq<Arrival>): seq<Label> {
    if arrivals == [] then []
    else LabelsOf(k, arrivals[0]) + if Breaks(arrivals[0]) then [] else ListenLabels(k, arrivals[1..])
  }

  /** The steps of a task that nothing interrupts. */
  function PacketLabels(r: Relay, i: nat, bound: bool, delivered: bool): seq<Label>
    requires i < |r.tasks|
  {
    [Get(i)] +
    match Looked(r, r.tasks[i])
    case Ready(_, _) => [Send(i, delivered)]
    case Missed(_) => if bound then [Bind(i, true), Insert(i), Spawn(i), Send(i, delivered)] else [Bind(i, false)]
    case _ => []
  }

  lemma ExecOne(r: Relay, l: Label, more: seq<Label>)
    requires Enabled(r, l)
    ensures Exec(r, [l] + more) == Exec(Step(r, l), more)
  {
    hide Step, Enabled;
    assert ([l] + more)[1..] == more;
  }

  class SharedRelay {
    var open: bool
    var clientMap: map<SocketAddr, nat>
    var tasks: seq<Task>
    var socks: seq<Sock>
    ghost var sent: seq<Forwarded>
    ghost var responses: seq<Response>

    constructor ()
      ensures Valid() && Snapshot() == START
    {
      open, clientMap, tasks, socks := true, map[], [], [];
      sent, responses := [], [];
    }

    ghost function Snapshot(): Relay
      reads this
    {
      Relay(open, clientMap, tasks, socks, sent, responses)
    }

    /** Tasks, sockets, map and history agree, as after any run. */
    ghost predicate Valid()
      reads this
    {
      Inv(Snapshot())
    }

    // One uninterrupted section each.

    method Receive(packet: Packet)
      requires Valid() && open
      modifies this
      ensures Valid() && Snapshot() == Step(old(Snapshot()), Label.Receive(packet.client, packet.data))
    {
      hide ParseUdp, UdpPacket, Inv;
      StepKeeps(Snapshot(), Label.Receive(packet.client, packet.data));
      tasks := tasks + [Task(packet.client, packet.data, Fresh)];
    }

    method Close()
      requires Valid() && open
      modifies this
      ensures Valid() && Snapshot() == Step(old(Snapshot()), Stop)
    {
      hide ParseUdp, UdpPacket, Inv;
      StepKeeps(Snapshot(), Stop);
      open := false;
    }

    method ParseAndLookUp(i: nat)
      requires Valid() && Enabled(Snapshot(), Get(i))
      modifies this
      ensures Valid() && Snapshot() == Step(old(Snapshot()), Get(i))
    {
      hide ParseUdp, UdpPacket, Inv;
      StepKeeps(Snapshot(), Get(i));
      var client := tasks[i].client;
      var packet := ParseSocks5UdpPacket(tasks[i].data);
      var stage := match packet
        case Err(_) => Dropped
        case Ok(d) => if client in clientMap then Ready(d, clientMap[client]) else Missed(d);
      tasks := tasks[i := tasks[i].(stage := stage)];
    }

    method BindSocket(i: nat, bound: bool)
      requires Valid() && Enabled(Snapshot(), Bind(i, bound))
      modifies this
      ensures Valid() && Snapshot() == Step(old(Snapshot()), Bind(i, bound))
    {
      hide ParseUdp, UdpPacket, Inv;
      StepKeeps(Snapshot(), Bind(i, bound));
      var d := tasks[i].stage.d;
      if bound {
        socks := socks + [Sock(tasks[i].client, d.target, i, Unlisted)];
        tasks := tasks[i := tasks[i].(stage := Opened(d, |socks| - 1))];
      } else {
        tasks := tasks[i := tasks[i].(stage := Dropped)];
      }
    }

    method InsertSocket(i: nat)
      requires Valid() && Enabled(Snapshot(), Insert(i))
      modifies this
      ensures Valid() && Snapshot() == Step(old(Snapshot()), Insert(i))
    {
      hide ParseUdp, UdpPacket, Inv;
      StepKeeps(Snapshot(), Insert(i));
      var d, k := tasks[i].stage.d, tasks[i].stage.sock;
      clientMap := clientMap[tasks[i].client := k];
      tasks := tasks[i := tasks[i].(stage := Listed(d, k))];
      socks := socks[k := socks[k].(stage := Unheard)];
    }

    method SpawnListener(i: nat)
      requires Valid() && Enabled(Snapshot(), Spawn(i))
      modifies this
      ensures Valid() && Snapshot() == Step(old(Snapshot()), Spawn(i))
    {
      hide ParseUdp, UdpPacket, Inv;
      StepKeeps(Snapshot(), Spawn(i));
      var d, k := tasks[i].stage.d, tasks[i].stage.sock;
      socks := socks[k := socks[k].(stage := Listening)];
      tasks := tasks[i := tasks[i].(stage := Ready(d, k))];
    }

    method Forward(i: nat, delivered: bool)
      requires Valid() && Enabled(Snapshot(), Send(i, delivered))
      modifies this
      ensures Valid() && Snapshot() == Step(old(Snapshot()), Send(i, delivered))
    {
      hide ParseUdp, UdpPacket, Inv;
      StepKeeps(Snapshot(), Send(i, delivered));
      var d := tasks[i].stage.d;
      if delivered {
        sent := sent + [Forwarded(i, tasks[i].stage.sock, d)];
        tasks := tasks[i := tasks[i].(stage := Sent(d))];
      } else {
        tasks := tasks[i := tasks[i].(stage := Dropped)];
      }
    }

    method Respond(k: nat, sender: TargetAddr, payload: seq<byte>, delivered: bool) returns (packet: seq<byte>)
      requires Valid() && Enabled(Snapshot(), Hear(k, sender, payload, delivered))
      modifies this
      ensures Valid() && Snapshot() == Step(old(Snapshot()), Hear(k, sender, payload, delivered))
      ensures packet == UdpPacket(old(socks)[k].source, payload)
    {
      hide ParseUdp, Inv;
      StepKeeps(Snapshot(), Hear(k, sender, payload, delivered));
      packet := BuildSocks5UdpResponse(socks[k].source, payload);
      if delivered {
        responses := responses + [Response(socks[k].owner, k, sender, packet, payload)];
      } else {
        socks := socks[k := socks[k].(stage := Broken)];
      }
    }

    method ReceiveFailed(k: nat)
      requires Valid() && Enabled(Snapshot(), Break(k))
      modifies this
      ensures Valid() && Snapshot() == Step(old(Snapshot()), Break(k))
    {
      hide ParseUdp, UdpPacket, Inv;
      StepKeeps(Snapshot(), Break(k));
      socks := socks[k := socks[k].(stage := Broken)];
    }

    method RemoveClient(k: nat)
      requires Valid() && Enabled(Snapshot(), CleanUp(k))
      modifies this
      ensures Valid() && Snapshot() == Step(old(Snapshot()), CleanUp(k))
    {
      hide ParseUdp, UdpPacket, Inv;
      StepKeeps(Snapshot(), CleanUp(k));
      clientMap := clientMap - {socks[k].owner};
      socks := socks[k := socks[k].(stage := Removed)];
    }

    // Longer stretches.

    /** One turn of the relay loop. */
    method HandleEvent(e: Event) returns (ended: bool)
      requires Valid() && open
      modifies this
      ensures Valid() && ended == Ends(e) && open == !ended
      ensures tasks == old(tasks) + FreshTasks(PacketsOf(e))
      ensures clientMap == old(clientMap) && socks == old(socks) && sent == old(sent) && responses == old(responses)
    {
      hide ParseUdp, UdpPacket, Inv;
      match e {
        case ChannelClosed | RelayError => Close();
        case ChannelData =>
        case Arrived(packet) => Receive(packet);
      }
      ended := Ends(e);
    }

    /** The relay loop: one task for every packet until the control channel closes or the relay socket fails. */
    method RelayLoop(events: seq<Event>)
      requires Valid() && open
      modifies this
      ensures Valid() && tasks == old(tasks) + FreshTasks(Taken(events))
      ensures open <==> forall n :: 0 <= n < |events| ==> !Ends(events[n])
      ensures clientMap == old(clientMap) && socks == old(socks) && sent == old(sent) && responses == old(responses)
    {
      hide ParseUdp, UdpPacket, Inv, FreshTasks, Ends, PacketsOf;
      assert events[0..] == events;
      NoTasks();
      for n := 0 to |events|
        invariant Valid() && open
        invariant tasks + FreshTasks(Taken(events[n..])) == old(tasks) + FreshTasks(Taken(events))
        invariant forall m :: 0 <= m < n ==> !Ends(events[m])
        invariant clientMap == old(clientMap) && socks == old(socks) && sent == old(sent) && responses == old(responses)
      {
        assert events[n..][1..] == events[n + 1..];
        ghost var later := if Ends(events[n]) then [] else Taken(events[n + 1..]);
        FreshConcat(PacketsOf(events[n]), later);
        Associates(tasks, FreshTasks(PacketsOf(events[n])), FreshTasks(later));
        var ended := HandleEvent(events[n]);
        if ended {
          return;
        }
      }
    }

    /**
     * A task from start to end with nothing in between. A packet that parses goes out once, through the socket its
     * client has in the map; if there was none, a new one is in the map and listened to, labelled with this target.
     */
    method HandleUdpPacket(i: nat, bound: bool, delivered: bool) returns (r: Result<()>)
      requires Valid() && i < |tasks| && tasks[i].stage.Fresh?
      modifies this
      ensures Valid()
      ensures Exec(old(Snapshot()), PacketLabels(old(Snapshot()), i, bound, delivered)) == Some(Snapshot())
      ensures var task, before := old(tasks)[i], old(Snapshot());
              match ParseUdp(task.data)
              case None => r == Err(Socks5) && Snapshot() == before.(tasks := tasks)
              case Some(d) =>
                if task.client !in before.clientMap && !bound then r == Err(Io) && Snapshot() == before.(tasks := tasks)
                else
                  && r == (if delivered then Ok(()) else Err(Io))
                  && task.client in clientMap && clientMap[task.client] < |socks|
                  && sent == before.sent + (if delivered then [Forwarded(i, clientMap[task.client], d)] else [])
                  && (if task.client in before.clientMap then clientMap == before.clientMap && socks == before.socks
                      else clientMap == before.clientMap[task.client := |before.socks|]
                           && socks == before.socks + [Sock(task.client, d.target, i, Listening)])
    {
      hide ParseUdp, UdpPacket, Inv;
      ghost var before, task := Snapshot(), tasks[i];
      ghost var labels := PacketLabels(before, i, bound, delivered);
      ghost var later := labels[1..];
      assert labels == [Get(i)] + later;
      ExecOne(before, Get(i), later);
      ParseAndLookUp(i);
      MappedSocket(before, task.client);
      match tasks[i].stage {
        case Missed(d) =>
          if !bound {
            ExecOne(Snapshot(), Bind(i, false), []);
            BindSocket(i, false);
            return Err(Io);
          }
          OpenSocket(i, d, delivered);
        case Ready(_, _) =>
          ExecOne(Snapshot(), Send(i, delivered), []);
        case _ =>
          return Err(Socks5);
      }
      ghost var ready := Snapshot();
      ExecOne(ready, Send(i, delivered), []);
      Forward(i, delivered);
      r := if delivered then Ok(()) else Err(Io);
    }

    /** Binds a socket, puts it into the map and starts its listener. */
    method OpenSocket(i: nat, d: Datagram, ghost delivered: bool)
      requires Valid() && i < |tasks| && tasks[i].stage == Missed(d)
      modifies this
      ensures Valid() && open == old(open) && sent == old(sent) && responses == old(responses)
      ensures tasks == old(tasks)[i := old(tasks)[i].(stage := Ready(d, |old(socks)|))]
      ensures socks == old(socks) + [Sock(old(tasks)[i].client, d.target, i, Listening)]
      ensures clientMap == old(clientMap)[old(tasks)[i].client := |old(socks)|]
      ensures Exec(old(Snapshot()), [Bind(i, true), Insert(i), Spawn(i), Send(i, delivered)])
           == Exec(Snapshot(), [Send(i, delivered)])
    {
      hide ParseUdp, UdpPacket, Inv;
      ExecOne(Snapshot(), Bind(i, true), [Insert(i), Spawn(i), Send(i, delivered)]);
      BindSocket(i, true);
      ExecOne(Snapshot(), Insert(i), [Spawn(i), Send(i, delivered)]);
      InsertSocket(i);
      ExecOne(Snapshot(), Spawn(i), [Send(i, delivered)]);
      SpawnListener(i);
    }

    /** One turn of a listener; when the receive or the send fails, the last. */
    method Answer(k: nat, a: Arrival, ghost later: seq<Arrival>) returns (broken: bool)
      requires Valid() && k < |socks| && socks[k].stage == Listening
      modifies this
      ensures Valid() && broken == Breaks(a)
      ensures tasks == old(tasks) && sent == old(sent) && open == old(open)
      ensures responses == old(responses) + RepliesTo(old(socks)[k], k, a)
      ensures clientMap == if broken then old(clientMap) - {old(socks)[k].owner} else old(clientMap)
      ensures socks == if broken then old(socks)[k := old(socks)[k].(stage := Removed)] else old(socks)
      ensures Exec(old(Snapshot()), LabelsOf(k, a) + ListenLabels(k, later))
           == Exec(Snapshot(), ListenLabels(k, later))
    {
      hide ParseUdp, UdpPacket, Inv, ListenLabels, Exec;
      ghost var rest := ListenLabels(k, later);
      match a {
        case SocketError =>
          assert LabelsOf(k, a) + rest == [Break(k)] + ([CleanUp(k)] + rest);
          ExecOne(Snapshot(), Break(k), [CleanUp(k)] + rest);
          ReceiveFailed(k);
        case Heard(sender, payload, delivered) =>
          ghost var hear := Hear(k, sender, payload, delivered);
          assert LabelsOf(k, a) + rest == [hear] + ((if delivered then [] else [CleanUp(k)]) + rest);
          ghost var next := (if delivered then [] else [CleanUp(k)]) + rest;
          ExecOne(Snapshot(), hear, next);
          var packet := Respond(k, sender, payload, delivered);
          assert [] + rest == rest;
      }
      broken := Breaks(a);
      if broken {
        ExecOne(Snapshot(), CleanUp(k), rest);
        RemoveClient(k);
      }
    }

    /**
     * A listener: every payload goes to the owner of the socket under the label of the socket until a receive or a send
     * fails; then the entry of that client goes, whichever socket it leads to.
     */
    method ListenForResponses(k: nat, arrivals: seq<Arrival>) returns (ended: bool)
      requires Valid() && k < |socks| && socks[k].stage == Listening
      modifies this
      ensures Valid() && (ended <==> exists n :: 0 <= n < |arrivals| && Breaks(arrivals[n]))
      ensures Exec(old(Snapshot()), ListenLabels(k, arrivals)) == Some(Snapshot())
      ensures tasks == old(tasks) && sent == old(sent) && open == old(open)
      ensures responses == old(responses) + Replies(old(socks)[k], k, arrivals)
      ensures clientMap == if ended then old(clientMap) - {old(socks)[k].owner} else old(clientMap)
      ensures socks == if ended then old(socks)[k := old(socks)[k].(stage := Removed)] else old(socks)
    {
      hide ParseUdp, UdpPacket, Inv, Breaks, RepliesTo, LabelsOf;
      ghost var s := socks[k];
      assert arrivals[0..] == arrivals;
      for n := 0 to |arrivals|
        invariant Valid() && tasks == old(tasks) && sent == old(sent) && open == old(open)
        invariant clientMap == old(clientMap) && socks == old(socks)
        invariant responses + Replies(s, k, arrivals[n..]) == old(responses) + Replies(s, k, arrivals)
        invariant Exec(Snapshot(), ListenLabels(k, arrivals[n..])) == Exec(old(Snapshot()), ListenLabels(k, arrivals))
        invariant forall m :: 0 <= m < n ==> !Breaks(arrivals[m])
      {
        ghost var later := if Breaks(arrivals[n]) then [] else arrivals[n + 1..];
        ghost var heard := responses;
        assert arrivals[n..][1..] == arrivals[n + 1..];
        NoMore(s, k, arrivals[n]);
        var broken := Answer(k, arrivals[n], later);
        Associates(heard, RepliesTo(s, k, arrivals[n]), Replies(s, k, later));
        if broken {
          return true;
        }
      }
      return false;
    }
  }

  lemma NoMore(s: Sock, k: nat, a: Arrival)
    ensures ListenLabels(k, []) == [] && Replies(s, k, []) == []
    ensures LabelsOf(k, a) + [] == LabelsOf(k, a) && RepliesTo(s, k, a) + [] == RepliesTo(s, k, a)
  {
  }

  lemma MappedSocket(r: Relay, c: SocketAddr)
    requires Inv(r)
    ensures c in r.clientMap ==> r.clientMap[c] < |r.socks|
  {
    assert c in r.clientMap ==> MapOk(r, c);
  }
}
