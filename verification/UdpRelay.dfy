/**
 * The UDP relay: one task per datagram from a client and one listener per target socket, sharing a map from client
 * addresses to sockets. Looking the map up, binding, inserting, starting the listener and sending are separate steps,
 * so two tasks of one client can both miss the map.
 */
module UdpRelay {
  import opened Bytes
  import opened Address
  import opened UdpCodec

  datatype SocketAddr = SocketAddr(ip: seq<byte>, port: u16)

  datatype TaskStage =
    | Fresh
    | Missed(d: Datagram)
    | Opened(d: Datagram, sock: nat)
    | Listed(d: Datagram, sock: nat)
    | Ready(d: Datagram, sock: nat)
    | Sent(d: Datagram)
    | Dropped

  datatype Task = Task(client: SocketAddr, data: seq<byte>, stage: TaskStage)

  datatype SockStage = Unlisted | Unheard | Listening | Broken | Removed

  /** A target socket: the client and the source its listener reports, and the task that bound it. */
  datatype Sock = Sock(owner: SocketAddr, source: TargetAddr, creator: nat, stage: SockStage)

  datatype Forwarded = Forwarded(task: nat, sock: nat, datagram: Datagram)

  /** What a client is sent, and by whom the payload was sent to the socket; the code ignores that sender. */
  datatype Response = Response(client: SocketAddr, sock: nat, sender: TargetAddr, packet: seq<byte>, payload: seq<byte>)

  datatype Relay = Relay(
    open: bool,
    clientMap: map<SocketAddr, nat>,
    tasks: seq<Task>,
    socks: seq<Sock>,
    sent: seq<Forwarded>,
    responses: seq<Response>)

  const START: Relay := Relay(true, map[], [], [], [], [])

  datatype Label =
    | Receive(client: SocketAddr, data: seq<byte>)
    | Stop
    | Get(i: nat)
    | Bind(i: nat, bound: bool)
    | Insert(i: nat)
    | Spawn(i: nat)
    | Send(i: nat, delivered: bool)
    | Hear(k: nat, sender: TargetAddr, payload: seq<byte>, delivered: bool)
    | Break(k: nat)
    | CleanUp(k: nat)

  function SetTask(r: Relay, i: nat, stage: TaskStage): Relay
    requires i < |r.tasks|
  {
    r.(tasks := r.tasks[i := r.tasks[i].(stage := stage)])
  }

  function SetSock(r: Relay, k: nat, stage: SockStage): Relay
    requires k < |r.socks|
  {
    r.(socks := r.socks[k := r.socks[k].(stage := stage)])
  }

  /** What a task at its first step finds: a malformed packet, a miss, or the socket of its client. */
  function Looked(r: Relay, t: Task): TaskStage {
    match ParseUdp(t.data)
    case None => Dropped
    case Some(d) => if t.client in r.clientMap then Ready(d, r.clientMap[t.client]) else Missed(d)
  }

  /** The bounds on `sock` always hold (`TaskOk`); they make `Step` total. */
  predicate Enabled(r: Relay, l: Label) {
    match l
    case Receive(_, _) | Stop => r.open
    case Get(i) => i < |r.tasks| && r.tasks[i].stage.Fresh?
    case Bind(i, _) => i < |r.tasks| && r.tasks[i].stage.Missed?
    case Insert(i) => i < |r.tasks| && r.tasks[i].stage.Opened? && r.tasks[i].stage.sock < |r.socks|
    case Spawn(i) => i < |r.tasks| && r.tasks[i].stage.Listed? && r.tasks[i].stage.sock < |r.socks|
    case Send(i, _) => i < |r.tasks| && r.tasks[i].stage.Ready?
    case Hear(k, _, _, _) => k < |r.socks| && r.socks[k].stage == Listening
    case Break(k) => k < |r.socks| && r.socks[k].stage == Listening
    case CleanUp(k) => k < |r.socks| && r.socks[k].stage == Broken
  }

  function Step(r: Relay, l: Label): Relay
    requires Enabled(r, l)
  {
    match l
    case Receive(client, data) => r.(tasks := r.tasks + [Task(client, data, Fresh)])
    case Stop => r.(open := false)
    case Get(i) => SetTask(r, i, Looked(r, r.tasks[i]))
    case Bind(i, bound) =>
      var d := r.tasks[i].stage.d;
      if bound then
        SetTask(r, i, Opened(d, |r.socks|)).(socks := r.socks + [Sock(r.tasks[i].client, d.target, i, Unlisted)])
      else SetTask(r, i, Dropped)
    case Insert(i) =>
      var (d, k) := (r.tasks[i].stage.d, r.tasks[i].stage.sock);
      SetSock(SetTask(r, i, Listed(d, k)), k, Unheard).(clientMap := r.clientMap[r.tasks[i].client := k])
    case Spawn(i) =>
      SetSock(SetTask(r, i, Ready(r.tasks[i].stage.d, r.tasks[i].stage.sock)), r.tasks[i].stage.sock, Listening)
    case Send(i, delivered) =>
      var (d, k) := (r.tasks[i].stage.d, r.tasks[i].stage.sock);
      if delivered then SetTask(r, i, Sent(d)).(sent := r.sent + [Forwarded(i, k, d)]) else SetTask(r, i, Dropped)
    case Hear(k, sender, payload, delivered) =>
      var s := r.socks[k];
      if delivered then
        r.(responses := r.responses + [Response(s.owner, k, sender, UdpPacket(s.source, payload), payload)])
      else SetSock(r, k, Broken)
    case Break(k) => SetSock(r, k, Broken)
    case CleanUp(k) => SetSock(r, k, Removed).(clientMap := r.clientMap - {r.socks[k].owner})
  }

  function Exec(r: Relay, labels: seq<Label>): Option<Relay>
    decreases |labels|
  {
    if labels == [] then Some(r)
    else if !Enabled(r, labels[0]) then None
    else Exec(Step(r, labels[0]), labels[1..])
  }

  // What every step keeps.

  predicate TaskOk(r: Relay, i: nat)
    requires i < |r.tasks|
  {
    var t := r.tasks[i];
    match t.stage
    case Fresh | Dropped => true
    case Missed(d) => ParseUdp(t.data) == Some(d)
    case Sent(d) => ParseUdp(t.data) == Some(d)
    case Opened(d, k) =>
      ParseUdp(t.data) == Some(d) && k < |r.socks| && r.socks[k].creator == i && r.socks[k].stage == Unlisted
    case Listed(d, k) =>
      ParseUdp(t.data) == Some(d) && k < |r.socks| && r.socks[k].creator == i && r.socks[k].stage == Unheard
    case Ready(d, k) =>
      ParseUdp(t.data) == Some(d) && k < |r.socks| && r.socks[k].owner == t.client && r.socks[k].stage != Unlisted
  }

  predicate SockOk(r: Relay, k: nat)
    requires k < |r.socks|
  {
    var s := r.socks[k];
    && s.creator < |r.tasks|
    && var t := r.tasks[s.creator];
    && t.client == s.owner
    && ParseUdp(t.data).Some? && ParseUdp(t.data).value.target == s.source
    && !t.stage.Fresh? && !t.stage.Missed?
    && (s.stage == Unlisted ==> t.stage.Opened? && t.stage.sock == k)
    && (s.stage == Unheard ==> t.stage.Listed? && t.stage.sock == k)
  }

  predicate MapOk(r: Relay, c: SocketAddr)
    requires c in r.clientMap
  {
    var k := r.clientMap[c];
    k < |r.socks| && r.socks[k].owner == c && r.socks[k].stage != Unlisted && r.socks[k].stage != Removed
  }

  predicate SentOk(r: Relay, f: Forwarded) {
    && f.task < |r.tasks| && f.sock < |r.socks|
    && r.tasks[f.task].stage == Sent(f.datagram)
    && r.socks[f.sock].owner == r.tasks[f.task].client
  }

  predicate ResponseOk(r: Relay, p: Response) {
    && p.sock < |r.socks|
    && p.client == r.socks[p.sock].owner
    && p.packet == UdpPacket(r.socks[p.sock].source, p.payload)
  }

  /** Tasks, sockets and map agree. */
  predicate StateOk(r: Relay) {
    && (forall i :: 0 <= i < |r.tasks| ==> TaskOk(r, i))
    && (forall k :: 0 <= k < |r.socks| ==> SockOk(r, k))
    && (forall j, k :: 0 <= j < k < |r.socks| ==> r.socks[j].creator != r.socks[k].creator)
    && (forall c :: c in r.clientMap ==> MapOk(r, c))
  }

  /** What was forwarded and answered is accounted for, each task at most once. */
  predicate HistoryOk(r: Relay) {
    && (forall n :: 0 <= n < |r.sent| ==> SentOk(r, r.sent[n]))
    && (forall m, n :: 0 <= m < n < |r.sent| ==> r.sent[m].task != r.sent[n].task)
    && (forall n :: 0 <= n < |r.responses| ==> ResponseOk(r, r.responses[n]))
  }

  predicate Inv(r: Relay) {
    StateOk(r) && HistoryOk(r)
  }

  /** Tasks and sockets keep their identity, and a task that has sent is finished. */
  predicate Grows(r: Relay, q: Relay) {
    && |r.tasks| <= |q.tasks| && |r.socks| <= |q.socks|
    && (forall i :: 0 <= i < |r.tasks| ==>
          && q.tasks[i].client == r.tasks[i].client && q.tasks[i].data == r.tasks[i].data
          && (r.tasks[i].stage.Sent? ==> q.tasks[i].stage == r.tasks[i].stage))
    && (forall k :: 0 <= k < |r.socks| ==>
          q.socks[k].owner == r.socks[k].owner && q.socks[k].source == r.socks[k].source
          && q.socks[k].creator == r.socks[k].creator)
  }

  lemma StepGrows(r: Relay, l: Label)
    requires Enabled(r, l)
    ensures Grows(r, Step(r, l))
  {
    hide ParseUdp, UdpPacket;
  }

  lemma SentKeeps(r: Relay, l: Label)
    requires Inv(r) && Enabled(r, l)
    ensures var q := Step(r, l); forall n :: 0 <= n < |q.sent| ==> SentOk(q, q.sent[n])
  {
    hide ParseUdp, UdpPacket;
    var q := Step(r, l);
    StepGrows(r, l);
    if l.Send? {
      assert TaskOk(r, l.i);
    }
    forall n | 0 <= n < |q.sent| ensures SentOk(q, q.sent[n]) {
      assert n < |r.sent| ==> SentOk(r, r.sent[n]);
    }
  }

  /** A task about to send has not sent before. */
  lemma SendersDiffer(r: Relay, l: Label)
    requires Inv(r) && Enabled(r, l)
    ensures var q := Step(r, l); forall m, n :: 0 <= m < n < |q.sent| ==> q.sent[m].task != q.sent[n].task
  {
  }

  lemma ResponsesKeep(r: Relay, l: Label)
    requires Inv(r) && Enabled(r, l)
    ensures var q := Step(r, l); forall n :: 0 <= n < |q.responses| ==> ResponseOk(q, q.responses[n])
  {
    hide ParseUdp, UdpPacket;
    var q := Step(r, l);
    StepGrows(r, l);
    forall n | 0 <= n < |q.responses| ensures ResponseOk(q, q.responses[n]) {
      assert n < |r.responses| ==> ResponseOk(r, r.responses[n]);
    }
  }

  /** The relay loop starts a task or ends. */
  lemma LoopStepKeeps(r: Relay, l: Label)
    requires StateOk(r) && Enabled(r, l) && (l.Receive? || l.Stop?)
    ensures StateOk(Step(r, l))
  {
    hide ParseUdp, UdpPacket;
    var q := Step(r, l);
    forall i | 0 <= i < |q.tasks| ensures TaskOk(q, i) {
      assert i < |r.tasks| ==> TaskOk(r, i);
    }
    forall k | 0 <= k < |q.socks| ensures SockOk(q, k) {
      assert SockOk(r, k);
    }
    forall c | c in q.clientMap ensures MapOk(q, c) {
      assert MapOk(r, c);
    }
  }

  /** Steps of a task that touch no socket and no map entry. */
  lemma TaskStepKeeps(r: Relay, l: Label)
    requires StateOk(r) && Enabled(r, l) && (l.Get? || l.Send?)
    ensures StateOk(Step(r, l))
  {
    hide ParseUdp, UdpPacket;
    var q := Step(r, l);
    if l.Get? {
      assert r.tasks[l.i].client in r.clientMap ==> MapOk(r, r.tasks[l.i].client);
    }
    forall i | 0 <= i < |q.tasks| ensures TaskOk(q, i) {
      assert TaskOk(r, i);
    }
    forall k | 0 <= k < |q.socks| ensures SockOk(q, k) {
      assert SockOk(r, k);
    }
    forall c | c in q.clientMap ensures MapOk(q, c) {
      assert MapOk(r, c);
    }
  }

  lemma BindKeeps(r: Relay, i: nat, bound: bool)
    requires StateOk(r) && Enabled(r, Bind(i, bound))
    ensures StateOk(Step(r, Bind(i, bound)))
  {
    hide ParseUdp, UdpPacket;
    var q := Step(r, Bind(i, bound));
    assert TaskOk(r, i);
    forall j | 0 <= j < |q.tasks| ensures TaskOk(q, j) {
      assert TaskOk(r, j);
    }
    forall k | 0 <= k < |q.socks| ensures SockOk(q, k) && (k < |r.socks| ==> q.socks[k].creator != i) {
      assert k < |r.socks| ==> SockOk(r, k);
    }
    forall c | c in q.clientMap ensures MapOk(q, c) {
      assert MapOk(r, c);
    }
  }

  /** The task that bound a socket publishes it, then starts its listener. */
  lemma PublishKeeps(r: Relay, l: Label)
    requires StateOk(r) && Enabled(r, l) && (l.Insert? || l.Spawn?)
    ensures StateOk(Step(r, l))
  {
    hide ParseUdp, UdpPacket;
    var q := Step(r, l);
    assert TaskOk(r, l.i);
    assert SockOk(r, r.tasks[l.i].stage.sock);
    forall j | 0 <= j < |q.tasks| ensures TaskOk(q, j) {
      assert TaskOk(r, j);
    }
    forall k | 0 <= k < |q.socks| ensures SockOk(q, k) {
      assert SockOk(r, k);
    }
    forall c | c in q.clientMap ensures MapOk(q, c) {
      assert c in r.clientMap ==> MapOk(r, c);
    }
  }

  /** A listener answers or breaks. */
  lemma BreakKeeps(r: Relay, l: Label)
    requires StateOk(r) && Enabled(r, l) && (l.Hear? || l.Break?)
    ensures StateOk(Step(r, l))
  {
    hide ParseUdp, UdpPacket;
    var q := Step(r, l);
    forall j | 0 <= j < |q.tasks| ensures TaskOk(q, j) {
      assert TaskOk(r, j);
    }
    forall k | 0 <= k < |q.socks| ensures SockOk(q, k) {
      assert SockOk(r, k);
    }
    forall c | c in q.clientMap ensures MapOk(q, c) {
      assert MapOk(r, c);
    }
  }

  /** A broken listener's socket goes together with its client's entry, whichever socket that entry leads to. */
  lemma CleanUpKeeps(r: Relay, k: nat)
    requires StateOk(r) && Enabled(r, CleanUp(k))
    ensures StateOk(Step(r, CleanUp(k)))
  {
    hide ParseUdp, UdpPacket;
    var q := Step(r, CleanUp(k));
    forall j | 0 <= j < |q.tasks| ensures TaskOk(q, j) {
      assert TaskOk(r, j);
    }
    forall j | 0 <= j < |q.socks| ensures SockOk(q, j) {
      assert SockOk(r, j);
    }
    forall c | c in q.clientMap ensures MapOk(q, c) {
      assert MapOk(r, c);
    }
  }

  lemma StepKeeps(r: Relay, l: Label)
    requires Inv(r) && Enabled(r, l)
    ensures Inv(Step(r, l))
  {
    hide ParseUdp, UdpPacket;
    SentKeeps(r, l);
    SendersDiffer(r, l);
    ResponsesKeep(r, l);
    match l
    case Bind(i, bound) => BindKeeps(r, i, bound);
    case Insert(_) | Spawn(_) => PublishKeeps(r, l);
    case Hear(_, _, _, _) | Break(_) => BreakKeeps(r, l);
    case CleanUp(k) => CleanUpKeeps(r, k);
    case Receive(_, _) | Stop => LoopStepKeeps(r, l);
    case Get(_) | Send(_, _) => TaskStepKeeps(r, l);
  }

  lemma {:induction false} RunKeeps(r: Relay, labels: seq<Label>)
    requires Inv(r) && Exec(r, labels).Some?
    ensures Inv(Exec(r, labels).value)
    decreases |labels|
  {
    if labels != [] {
      StepKeeps(r, labels[0]);
      RunKeeps(Step(r, labels[0]), labels[1..]);
    }
  }

  predicate Reachable(labels: seq<Label>, r: Relay) {
    Exec(START, labels) == Some(r)
  }

  lemma ReachableInv(labels: seq<Label>, r: Relay)
    requires Reachable(labels, r)
    ensures Inv(r)
  {
    RunKeeps(START, labels);
  }

  /** No dead entries: in every reachable state, races included, a mapped socket's listener has not cleaned up. */
  lemma NoDeadEntries(labels: seq<Label>, r: Relay, c: SocketAddr)
    requires Reachable(labels, r) && c in r.clientMap
    ensures r.clientMap[c] < |r.socks|
    ensures var s := r.socks[r.clientMap[c]];
            s.owner == c && (s.stage == Unheard || s.stage == Listening || s.stage == Broken)
  {
    ReachableInv(labels, r);
    assert MapOk(r, c);
  }

  /**
   * Client isolation: a response to a client came through a socket bound for that client, by a task of that client,
   * and carries a source the client itself asked for; it parses back to exactly that source and payload.
   */
  lemma Isolation(labels: seq<Label>, r: Relay, n: nat)
    requires Reachable(labels, r) && n < |r.responses|
    ensures var p := r.responses[n];
            && p.sock < |r.socks| && r.socks[p.sock].owner == p.client
            && var s := r.socks[p.sock];
            && s.creator < |r.tasks| && r.tasks[s.creator].client == p.client
            && ParseUdp(r.tasks[s.creator].data).Some? && ParseUdp(r.tasks[s.creator].data).value.target == s.source
            && Encodable(s.source)
            && ParseUdp(p.packet) == Some(Datagram(s.source, p.payload))
  {
    hide ParseUdp, UdpPacket;
    ReachableInv(labels, r);
    var p := r.responses[n];
    assert ResponseOk(r, p) && SockOk(r, p.sock);
    var s := r.socks[p.sock];
    UdpBijection(r.tasks[s.creator].data, ParseUdp(r.tasks[s.creator].data).value);
    UdpBijection(p.packet, Datagram(s.source, p.payload));
  }

  /** A task that is about to send holds a socket of its own client. */
  lemma TaskIsolation(labels: seq<Label>, r: Relay, i: nat)
    requires Reachable(labels, r) && i < |r.tasks| && r.tasks[i].stage.Ready?
    ensures r.tasks[i].stage.sock < |r.socks| && r.socks[r.tasks[i].stage.sock].owner == r.tasks[i].client
  {
    ReachableInv(labels, r);
    assert TaskOk(r, i);
  }

  /** A datagram goes out at most once for each packet, as that packet parses, through a socket of its client. */
  lemma ForwardedOnce(labels: seq<Label>, r: Relay, n: nat)
    requires Reachable(labels, r) && n < |r.sent|
    ensures var f := r.sent[n];
            && f.task < |r.tasks| && ParseUdp(r.tasks[f.task].data) == Some(f.datagram)
            && f.sock < |r.socks| && r.socks[f.sock].owner == r.tasks[f.task].client
            && forall m :: 0 <= m < |r.sent| && m != n ==> r.sent[m].task != f.task
  {
    hide ParseUdp, UdpPacket;
    ReachableInv(labels, r);
    assert SentOk(r, r.sent[n]);
    assert TaskOk(r, r.sent[n].task);
  }
}
