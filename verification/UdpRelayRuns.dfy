/** What the relay can do with the packets it receives, in any interleaving. */
module UdpRelayRuns {
  import opened Bytes
  import opened Address
  import opened UdpCodec
  import opened UdpRelay

  datatype Packet = Packet(client: SocketAddr, data: seq<byte>)

  function ReceivedBy(l: Label): seq<Packet> {
    if l.Receive? then [Packet(l.client, l.data)] else []
  }

  /** The packets received over a run, in order. */
  function Received(labels: seq<Label>): seq<Packet>
    decreases |labels|
  {
    if labels == [] then []
    else ReceivedBy(labels[0]) + Received(labels[1..])
  }

  function PacketsIn(tasks: seq<Task>): (w: seq<Packet>)
    ensures |w| == |tasks|
  {
    seq(|tasks|, i requires 0 <= i < |tasks| => Packet(tasks[i].client, tasks[i].data))
  }

  predicate RunOn(w: seq<Packet>, labels: seq<Label>, r: Relay) {
    Reachable(labels, r) && Received(labels) == w
  }

  lemma StepReceives(r: Relay, l: Label)
    requires Enabled(r, l)
    ensures PacketsIn(Step(r, l).tasks) == PacketsIn(r.tasks) + ReceivedBy(l)
  {
    hide ParseUdp, UdpPacket;
  }

  lemma {:induction false} TasksAreReceived(r: Relay, labels: seq<Label>)
    requires Exec(r, labels).Some?
    ensures PacketsIn(Exec(r, labels).value.tasks) == PacketsIn(r.tasks) + Received(labels)
    decreases |labels|
  {
    hide Step, PacketsIn;
    if labels == [] {
      assert PacketsIn(r.tasks) + [] == PacketsIn(r.tasks);
    } else {
      StepReceives(r, labels[0]);
      TasksAreReceived(Step(r, labels[0]), labels[1..]);
      Associates(PacketsIn(r.tasks), ReceivedBy(labels[0]), Received(labels[1..]));
    }
  }

  /** In a run on `w` there is one task for each packet, in order. */
  lemma TasksOf(w: seq<Packet>, labels: seq<Label>, r: Relay)
    requires RunOn(w, labels, r)
    ensures Reachable(labels, r) && Inv(r) && |r.tasks| == |w|
    ensures forall i :: 0 <= i < |w| ==> r.tasks[i].client == w[i].client && r.tasks[i].data == w[i].data
  {
    ReachableInv(labels, r);
    TasksAreReceived(START, labels);
    assert PacketsIn(r.tasks) == w;
    assert forall i :: 0 <= i < |w| ==> PacketsIn(r.tasks)[i] == w[i];
  }

  // Counting sockets against packets.

  function SocksOf(r: Relay, c: SocketAddr): set<nat> {
    set k: nat | k < |r.socks| && r.socks[k].owner == c
  }

  /** The packets of a client that parse. */
  function RequestsOf(w: seq<Packet>, c: SocketAddr): set<nat> {
    set i: nat | i < |w| && w[i].client == c && ParseUdp(w[i].data).Some?
  }

  lemma {:induction false} InjectionBound(a: set<nat>, b: set<nat>, f: seq<nat>)
    requires forall k :: k in a ==> k < |f| && f[k] in b
    requires forall j, k :: j in a && k in a && j != k ==> f[j] != f[k]
    ensures |a| <= |b|
    decreases |a|
  {
    if a != {} {
      var k :| k in a;
      InjectionBound(a - {k}, b - {f[k]}, f);
    }
  }

  /** Whatever the interleaving, a client never has more sockets than it sent packets that parse. */
  lemma SocketsAreBounded(w: seq<Packet>, labels: seq<Label>, r: Relay, c: SocketAddr)
    requires RunOn(w, labels, r)
    ensures |SocksOf(r, c)| <= |RequestsOf(w, c)|
  {
    hide ParseUdp, UdpPacket;
    TasksOf(w, labels, r);
    var creators: seq<nat> := seq(|r.socks|, k requires 0 <= k < |r.socks| => r.socks[k].creator);
    forall k | k in SocksOf(r, c) ensures creators[k] in RequestsOf(w, c) {
      assert SockOk(r, k);
    }
    InjectionBound(SocksOf(r, c), RequestsOf(w, c), creators);
  }

  // Conservation.

  /** Every packet that parses. */
  function Parsed(w: seq<Packet>): multiset<Datagram> {
    if w == [] then multiset{}
    else
      Parsed(w[..|w| - 1])
      + (match ParseUdp(w[|w| - 1].data) case Some(d) => multiset{d} case None => multiset{})
  }

  /** What the finished tasks have forwarded. */
  function Delivered(tasks: seq<Task>): multiset<Datagram> {
    if tasks == [] then multiset{} else Delivered(tasks[..|tasks| - 1]) + Outcome(tasks[|tasks| - 1].stage)
  }

  function Outcome(stage: TaskStage): multiset<Datagram> {
    if stage.Sent? then multiset{stage.d} else multiset{}
  }

  function Payloads(sent: seq<Forwarded>): multiset<Datagram> {
    if sent == [] then multiset{} else Payloads(sent[..|sent| - 1]) + multiset{sent[|sent| - 1].datagram}
  }

  lemma DeliveredLast(tasks: seq<Task>, t: Task)
    ensures Delivered(tasks + [t]) == Delivered(tasks) + Outcome(t.stage)
  {
    hide Outcome;
    assert (tasks + [t])[..|tasks|] == tasks;
  }

  lemma Swap(a: multiset<Datagram>, b: multiset<Datagram>, c: multiset<Datagram>)
    ensures a + b + c == a + c + b
  {
  }

  lemma {:induction false} DeliveredUpdate(tasks: seq<Task>, i: nat, stage: TaskStage)
    requires i < |tasks| && !tasks[i].stage.Sent?
    ensures Delivered(tasks[i := tasks[i].(stage := stage)]) == Delivered(tasks) + Outcome(stage)
    decreases |tasks|
  {
    hide Delivered, Outcome;
    var n := |tasks| - 1;
    var before, last := tasks[..n], tasks[n];
    assert tasks == before + [last];
    DeliveredLast(before, last);
    if i < n {
      var updated := before[i := tasks[i].(stage := stage)];
      DeliveredUpdate(before, i, stage);
      DeliveredLast(updated, last);
      assert tasks[i := tasks[i].(stage := stage)] == updated + [last];
      Swap(Delivered(before), Outcome(stage), Outcome(last.stage));
    } else {
      DeliveredLast(before, last.(stage := stage));
      assert tasks[i := tasks[i].(stage := stage)] == before + [last.(stage := stage)];
      NothingDelivered(last.stage, Delivered(before));
    }
  }

  lemma NothingDelivered(stage: TaskStage, a: multiset<Datagram>)
    requires !stage.Sent?
    ensures Outcome(stage) == multiset{} && a + Outcome(stage) == a
  {
  }

  lemma DeliveredStep(r: Relay, l: Label)
    requires Enabled(r, l) && Payloads(r.sent) == Delivered(r.tasks)
    ensures Payloads(Step(r, l).sent) == Delivered(Step(r, l).tasks)
  {
    hide ParseUdp, UdpPacket, Delivered, Payloads;
    match l
    case Receive(c, data) => ReceivedStep(r.tasks, Task(c, data, Fresh));
    case Send(i, delivered) => ForwardedStep(r, i, delivered);
    case Get(i) => DeliveredUpdate(r.tasks, i, Looked(r, r.tasks[i]));
    case Bind(i, bound) =>
      DeliveredUpdate(r.tasks, i, if bound then Opened(r.tasks[i].stage.d, |r.socks|) else Dropped);
    case Insert(i) => DeliveredUpdate(r.tasks, i, Listed(r.tasks[i].stage.d, r.tasks[i].stage.sock));
    case Spawn(i) => DeliveredUpdate(r.tasks, i, Ready(r.tasks[i].stage.d, r.tasks[i].stage.sock));
    case _ =>
  }

  lemma ReceivedStep(tasks: seq<Task>, t: Task)
    requires !t.stage.Sent?
    ensures Delivered(tasks + [t]) == Delivered(tasks)
  {
    assert (tasks + [t])[..|tasks|] == tasks;
  }

  lemma ForwardedStep(r: Relay, i: nat, delivered: bool)
    requires Enabled(r, Send(i, delivered)) && Payloads(r.sent) == Delivered(r.tasks)
    ensures var q := Step(r, Send(i, delivered)); Payloads(q.sent) == Delivered(q.tasks)
  {
    hide ParseUdp, UdpPacket;
    var d, q := r.tasks[i].stage.d, Step(r, Send(i, delivered));
    DeliveredUpdate(r.tasks, i, if delivered then Sent(d) else Dropped);
    if delivered {
      assert q.sent[..|q.sent| - 1] == r.sent;
    }
  }

  lemma {:induction false} DeliveredRun(r: Relay, labels: seq<Label>)
    requires Exec(r, labels).Some? && Payloads(r.sent) == Delivered(r.tasks)
    ensures var q := Exec(r, labels).value; Payloads(q.sent) == Delivered(q.tasks)
    decreases |labels|
  {
    if labels != [] {
      DeliveredStep(r, labels[0]);
      DeliveredRun(Step(r, labels[0]), labels[1..]);
    }
  }

  lemma {:induction false} DeliveredWithinParsed(tasks: seq<Task>)
    requires forall i :: 0 <= i < |tasks| && tasks[i].stage.Sent? ==> ParseUdp(tasks[i].data) == Some(tasks[i].stage.d)
    ensures Delivered(tasks) <= Parsed(PacketsIn(tasks))
    decreases |tasks|
  {
    hide ParseUdp, UdpPacket;
    if tasks != [] {
      var n := |tasks| - 1;
      DeliveredWithinParsed(tasks[..n]);
      assert PacketsIn(tasks)[..n] == PacketsIn(tasks[..n]);
    }
  }

  /**
   * Conservation: counted with multiplicity, what was sent to targets is part of what the received packets parse to,
   * target and payload unchanged.
   */
  lemma Conservation(w: seq<Packet>, labels: seq<Label>, r: Relay)
    requires RunOn(w, labels, r)
    ensures Payloads(r.sent) <= Parsed(w)
  {
    TasksOf(w, labels, r);
    DeliveredRun(START, labels);
    forall i | 0 <= i < |r.tasks| && r.tasks[i].stage.Sent?
      ensures ParseUdp(r.tasks[i].data) == Some(r.tasks[i].stage.d)
    {
      assert TaskOk(r, i);
    }
    DeliveredWithinParsed(r.tasks);
    assert PacketsIn(r.tasks) == w;
  }

  // Building runs.

  lemma {:induction false} ExecAppend(r: Relay, first: seq<Label>, l: Label)
    requires Exec(r, first).Some? && Enabled(Exec(r, first).value, l)
    ensures Exec(r, first + [l]) == Some(Step(Exec(r, first).value, l))
    decreases |first|
  {
    if first == [] {
      assert (first + [l])[1..] == [];
    } else {
      assert (first + [l])[1..] == first[1..] + [l];
      ExecAppend(Step(r, first[0]), first[1..], l);
    }
  }

  lemma {:induction false} ReceivedAppend(first: seq<Label>, l: Label)
    ensures Received(first + [l]) == Received(first) + ReceivedBy(l)
    decreases |first|
  {
    hide ReceivedBy;
    if first == [] {
      assert (first + [l])[1..] == [];
    } else {
      assert (first + [l])[1..] == first[1..] + [l];
      ReceivedAppend(first[1..], l);
      Associates(ReceivedBy(first[0]), Received(first[1..]), ReceivedBy(l));
    }
  }

  /** One more step that receives nothing. */
  lemma Extend(w: seq<Packet>, labels: seq<Label>, r: Relay, l: Label)
    requires RunOn(w, labels, r) && Enabled(r, l) && !l.Receive?
    ensures RunOn(w, labels + [l], Step(r, l))
  {
    hide Step;
    ExecAppend(START, labels, l);
    ReceivedAppend(labels, l);
  }

  function FreshTasks(w: seq<Packet>): seq<Task> {
    seq(|w|, i requires 0 <= i < |w| => Task(w[i].client, w[i].data, Fresh))
  }

  lemma {:induction false} ReceiveAll(w: seq<Packet>) returns (labels: seq<Label>, r: Relay)
    ensures RunOn(w, labels, r) && r == START.(tasks := FreshTasks(w))
    decreases |w|
  {
    if w == [] {
      return [], START;
    }
    var n := |w| - 1;
    labels, r := ReceiveAll(w[..n]);
    var l := Receive(w[n].client, w[n].data);
    ExecAppend(START, labels, l);
    ReceivedAppend(labels, l);
    assert w == w[..n] + [w[n]];
    assert FreshTasks(w) == FreshTasks(w[..n]) + [Task(w[n].client, w[n].data, Fresh)];
    labels, r := labels + [l], Step(r, l);
  }

  /** Some run on these packets reaches a state with this property. */
  ghost predicate CanReach(w: seq<Packet>, p: Relay -> bool) {
    exists labels, r :: RunOn(w, labels, r) && p(r)
  }

  // Two sockets of one client.

  predicate Requests(w: seq<Packet>, i: nat, d: Datagram) {
    i < |w| && ParseUdp(w[i].data) == Some(d)
  }

  predicate SameClient(w: seq<Packet>, i: nat, j: nat) {
    i < |w| && j < |w| && w[i].client == w[j].client && ParseUdp(w[i].data).Some? && ParseUdp(w[j].data).Some?
  }

  /** Two packets of one client parse. */
  predicate AsksTwice(w: seq<Packet>) {
    exists i, j :: 0 <= i < j < |w| && SameClient(w, i, j)
  }

  predicate Siblings(r: Relay, j: nat, k: nat) {
    j < |r.socks| && k < |r.socks| && j != k && r.socks[j].owner == r.socks[k].owner
  }

  predicate TwoSockets(r: Relay) {
    exists j, k :: 0 <= j < |r.socks| && 0 <= k < |r.socks| && Siblings(r, j, k)
  }

  predicate TwoListeners(r: Relay) {
    exists j, k :: 0 <= j < |r.socks| && 0 <= k < |r.socks| && Siblings(r, j, k)
                && r.socks[j].stage == Listening && r.socks[k].stage == Listening
  }

  /** A socket that is listened to and that the map does not lead to. */
  predicate Orphan(r: Relay, k: nat) {
    && k < |r.socks| && r.socks[k].stage == Listening
    && (r.socks[k].owner in r.clientMap ==> r.clientMap[r.socks[k].owner] != k)
  }

  predicate HasOrphan(r: Relay) {
    exists k :: 0 <= k < |r.socks| && Orphan(r, k)
  }

  /** Two sockets of one client come from two packets of that client. */
  lemma SiblingsAskTwice(w: seq<Packet>, labels: seq<Label>, r: Relay, j: nat, k: nat)
    requires RunOn(w, labels, r) && Siblings(r, j, k)
    ensures AsksTwice(w)
  {
    hide ParseUdp, UdpPacket;
    TasksOf(w, labels, r);
    assert SockOk(r, j) && SockOk(r, k);
    var a, b := r.socks[j].creator, r.socks[k].creator;
    assert SameClient(w, a, b) && SameClient(w, b, a);
  }

  /** Two tasks of one client both look the map up before either has inserted its socket. */
  lemma BothOpen(w: seq<Packet>, i: nat, j: nat, d: Datagram, e: Datagram) returns (labels: seq<Label>, r: Relay)
    requires i != j && SameClient(w, i, j) && Requests(w, i, d) && Requests(w, j, e)
    ensures RunOn(w, labels, r) && r.clientMap == map[] && |r.tasks| == |w|
    ensures r.tasks[i] == Task(w[i].client, w[i].data, Opened(d, 0))
    ensures r.tasks[j] == Task(w[j].client, w[j].data, Opened(e, 1))
    ensures r.socks == [Sock(w[i].client, d.target, i, Unlisted), Sock(w[j].client, e.target, j, Unlisted)]
  {
    hide ParseUdp, UdpPacket, RunOn;
    labels, r := ReceiveAll(w);
    Extend(w, labels, r, Get(i));
    labels, r := labels + [Get(i)], Step(r, Get(i));
    Extend(w, labels, r, Get(j));
    labels, r := labels + [Get(j)], Step(r, Get(j));
    Extend(w, labels, r, Bind(i, true));
    labels, r := labels + [Bind(i, true)], Step(r, Bind(i, true));
    assert r.socks == [Sock(w[i].client, d.target, i, Unlisted)];
    Extend(w, labels, r, Bind(j, true));
    labels, r := labels + [Bind(j, true)], Step(r, Bind(j, true));
  }

  lemma BothListen(w: seq<Packet>, i: nat, j: nat, d: Datagram, e: Datagram) returns (labels: seq<Label>, r: Relay)
    requires i != j && SameClient(w, i, j) && Requests(w, i, d) && Requests(w, j, e)
    ensures RunOn(w, labels, r) && r.clientMap == map[w[i].client := 1]
    ensures r.socks == [Sock(w[i].client, d.target, i, Listening), Sock(w[j].client, e.target, j, Listening)]
  {
    hide ParseUdp, UdpPacket, RunOn;
    labels, r := BothOpen(w, i, j, d, e);
    Extend(w, labels, r, Insert(i));
    labels, r := labels + [Insert(i)], Step(r, Insert(i));
    Extend(w, labels, r, Spawn(i));
    labels, r := labels + [Spawn(i)], Step(r, Spawn(i));
    assert r.tasks[j].stage == Opened(e, 1);
    Extend(w, labels, r, Insert(j));
    labels, r := labels + [Insert(j)], Step(r, Insert(j));
    Extend(w, labels, r, Spawn(j));
    labels, r := labels + [Spawn(j)], Step(r, Spawn(j));
  }

  /**
   * One socket per client fails exactly when a client may send two packets that parse: then some interleaving opens two
   * sockets for it, and even listens on both at once.
   */
  lemma TwoSocketsIff(w: seq<Packet>)
    ensures CanReach(w, TwoSockets) <==> AsksTwice(w)
    ensures CanReach(w, TwoListeners) <==> AsksTwice(w)
  {
    hide ParseUdp, UdpPacket, RunOn, Inv;
    forall labels, r | RunOn(w, labels, r) && (TwoSockets(r) || TwoListeners(r)) ensures AsksTwice(w) {
      var j: nat, k: nat :| j < |r.socks| && k < |r.socks| && Siblings(r, j, k);
      SiblingsAskTwice(w, labels, r, j, k);
    }
    if AsksTwice(w) {
      var i, j :| 0 <= i < j < |w| && SameClient(w, i, j);
      var labels, r := BothListen(w, i, j, ParseUdp(w[i].data).value, ParseUdp(w[j].data).value);
      assert Siblings(r, 0, 1);
      assert TwoSockets(r) && TwoListeners(r);
    }
  }

  /** A live socket that the map does not lead to has a sibling. */
  predicate OrphansHaveSiblings(r: Relay) {
    forall k :: 0 <= k < |r.socks| && Live(r.socks[k]) ==>
      Led(r, k) || exists j :: 0 <= j < |r.socks| && Siblings(r, j, k)
  }

  predicate Led(r: Relay, k: nat) {
    k < |r.socks| && r.socks[k].owner in r.clientMap && r.clientMap[r.socks[k].owner] == k
  }

  lemma OrphanStep(r: Relay, l: Label)
    requires Inv(r) && OrphansHaveSiblings(r) && Enabled(r, l)
    ensures OrphansHaveSiblings(Step(r, l))
  {
    hide ParseUdp, UdpPacket, HistoryOk, TaskOk, SockOk, MapOk;
    var q := Step(r, l);
    StepGrows(r, l);
    forall k | 0 <= k < |q.socks| && Live(q.socks[k])
      ensures Led(q, k) || exists j :: 0 <= j < |q.socks| && Siblings(q, j, k)
    {
      OrphanStepAt(r, l, k);
    }
  }

  lemma OrphanStepAt(r: Relay, l: Label, k: nat)
    requires Inv(r) && OrphansHaveSiblings(r) && Enabled(r, l)
    requires k < |Step(r, l).socks| && Live(Step(r, l).socks[k])
    ensures var q := Step(r, l); Led(q, k) || exists j :: 0 <= j < |q.socks| && Siblings(q, j, k)
  {
    hide ParseUdp, UdpPacket, HistoryOk, MapOk;
    var q := Step(r, l);
    StepGrows(r, l);
    if l.Insert? || l.Spawn? {
      assert TaskOk(r, l.i) && SockOk(r, r.tasks[l.i].stage.sock);
    }
    if k < |r.socks| && Live(r.socks[k]) && !Led(r, k) {
      var j :| 0 <= j < |r.socks| && Siblings(r, j, k);
      assert Siblings(q, j, k);
    } else if k < |r.socks| && Led(r, k) && !Led(q, k) {
      var j := if l.Insert? then r.tasks[l.i].stage.sock else l.k;
      assert Siblings(q, j, k);
    }
  }

  lemma {:induction false} OrphanRun(r: Relay, labels: seq<Label>)
    requires Inv(r) && OrphansHaveSiblings(r) && Exec(r, labels).Some?
    ensures OrphansHaveSiblings(Exec(r, labels).value)
    decreases |labels|
  {
    hide Inv, OrphansHaveSiblings, Step;
    if labels != [] {
      StepKeeps(r, labels[0]);
      OrphanStep(r, labels[0]);
      OrphanRun(Step(r, labels[0]), labels[1..]);
    }
  }

  /**
   * A socket that is listened to with no map entry leading to it: possible on exactly the same packets. The second
   * insertion hides the first socket, and the first listener's cleanup removes the entry of the second.
   */
  lemma OrphanIff(w: seq<Packet>)
    ensures CanReach(w, HasOrphan) <==> AsksTwice(w)
  {
    hide ParseUdp, UdpPacket, RunOn, Inv;
    forall labels, r | RunOn(w, labels, r) && HasOrphan(r) ensures AsksTwice(w) {
      var k: nat :| k < |r.socks| && Orphan(r, k);
      TasksOf(w, labels, r);
      assert OrphansHaveSiblings(START);
      StartInv();
      OrphanRun(START, labels);
      assert !Led(r, k) && Live(r.socks[k]);
      var j: nat :| j < |r.socks| && Siblings(r, j, k);
      SiblingsAskTwice(w, labels, r, j, k);
    }
    if AsksTwice(w) {
      var i, j :| 0 <= i < j < |w| && SameClient(w, i, j);
      var labels, r := RaceOrphansSocket(w, i, j, ParseUdp(w[i].data).value, ParseUdp(w[j].data).value);
      assert Orphan(r, 1);
    }
  }

  lemma StartInv()
    ensures Inv(START)
  {
  }

  /** The race in full: one socket is left, listened to, and no map entry leads anywhere. */
  lemma RaceOrphansSocket(w: seq<Packet>, i: nat, j: nat, d: Datagram, e: Datagram)
    returns (labels: seq<Label>, r: Relay)
    requires i != j && SameClient(w, i, j) && Requests(w, i, d) && Requests(w, j, e)
    ensures RunOn(w, labels, r) && r.clientMap == map[]
    ensures r.socks == [Sock(w[i].client, d.target, i, Removed), Sock(w[j].client, e.target, j, Listening)]
  {
    hide ParseUdp, UdpPacket, RunOn;
    labels, r := BothListen(w, i, j, d, e);
    Extend(w, labels, r, Break(0));
    labels, r := labels + [Break(0)], Step(r, Break(0));
    Extend(w, labels, r, CleanUp(0));
    labels, r := labels + [CleanUp(0)], Step(r, CleanUp(0));
  }

  // The label of a response.

  /** Two packets of one client ask for different targets. */
  predicate AsksTwoTargets(w: seq<Packet>) {
    exists i, j :: 0 <= i < |w| && 0 <= j < |w| && SameClient(w, i, j) && DifferentTargets(w, i, j)
  }

  predicate DifferentTargets(w: seq<Packet>, i: nat, j: nat) {
    && i < |w| && j < |w| && ParseUdp(w[i].data).Some? && ParseUdp(w[j].data).Some?
    && ParseUdp(w[i].data).value.target != ParseUdp(w[j].data).value.target
  }

  /** The client reads a source that is not the sender. */
  predicate Mislabelled(p: Response) {
    match ParseUdp(p.packet)
    case Some(d) => d.target != p.sender
    case None => true
  }

  /** The response comes from a target that something was sent to through its socket. */
  predicate Answers(f: Forwarded, p: Response) {
    f.sock == p.sock && f.datagram.target == p.sender
  }

  predicate HasMislabelledAnswer(r: Relay) {
    exists m, n :: 0 <= m < |r.sent| && 0 <= n < |r.responses| && Answers(r.sent[m], r.responses[n])
                && Mislabelled(r.responses[n])
  }

  predicate HasMislabelledResponse(r: Relay) {
    exists n :: 0 <= n < |r.responses| && Mislabelled(r.responses[n])
  }

  lemma MislabelledAsksTwo(w: seq<Packet>, labels: seq<Label>, r: Relay, m: nat, n: nat)
    requires RunOn(w, labels, r) && m < |r.sent| && n < |r.responses|
    requires Answers(r.sent[m], r.responses[n]) && Mislabelled(r.responses[n])
    ensures AsksTwoTargets(w)
  {
    hide ParseUdp, UdpPacket;
    TasksOf(w, labels, r);
    Isolation(labels, r, n);
    ForwardedOnce(labels, r, m);
    var i, j := r.socks[r.responses[n].sock].creator, r.sent[m].task;
    assert SameClient(w, i, j) && DifferentTargets(w, i, j);
  }

  /** One task opens a socket, and its listener starts. */
  lemma OneListens(w: seq<Packet>, i: nat, d: Datagram) returns (labels: seq<Label>, r: Relay)
    requires Requests(w, i, d)
    ensures RunOn(w, labels, r) && r.open && r.clientMap == map[w[i].client := 0] && |r.tasks| == |w|
    ensures r.socks == [Sock(w[i].client, d.target, i, Listening)] && r.sent == [] && r.responses == []
    ensures forall j :: 0 <= j < |w| && j != i ==> r.tasks[j] == Task(w[j].client, w[j].data, Fresh)
  {
    hide ParseUdp, UdpPacket, RunOn;
    labels, r := ReceiveAll(w);
    Extend(w, labels, r, Get(i));
    labels, r := labels + [Get(i)], Step(r, Get(i));
    Extend(w, labels, r, Bind(i, true));
    labels, r := labels + [Bind(i, true)], Step(r, Bind(i, true));
    Extend(w, labels, r, Insert(i));
    labels, r := labels + [Insert(i)], Step(r, Insert(i));
    Extend(w, labels, r, Spawn(i));
    labels, r := labels + [Spawn(i)], Step(r, Spawn(i));
  }

  /** The second target's answer comes back through the first target's socket, under the first target's name. */
  lemma SecondTargetMislabelled(w: seq<Packet>, i: nat, j: nat, d: Datagram, e: Datagram)
    returns (labels: seq<Label>, r: Relay)
    requires i != j && SameClient(w, i, j) && Requests(w, i, d) && Requests(w, j, e) && d.target != e.target
    ensures RunOn(w, labels, r) && r.sent == [Forwarded(j, 0, e)]
    ensures r.responses == [Response(w[i].client, 0, e.target, UdpPacket(d.target, []), [])]
  {
    hide ParseUdp, UdpPacket, RunOn;
    labels, r := OneListens(w, i, d);
    Extend(w, labels, r, Get(j));
    labels, r := labels + [Get(j)], Step(r, Get(j));
    Extend(w, labels, r, Send(j, true));
    labels, r := labels + [Send(j, true)], Step(r, Send(j, true));
    Extend(w, labels, r, Hear(0, e.target, [], true));
    labels, r := labels + [Hear(0, e.target, [], true)], Step(r, Hear(0, e.target, [], true));
  }

  /** A well-formed target is what the client reads from a packet labelled with it. */
  lemma LabelIsRead(w: seq<Packet>, i: nat, d: Datagram, payload: seq<byte>)
    requires Requests(w, i, d)
    ensures ParseUdp(UdpPacket(d.target, payload)) == Some(Datagram(d.target, payload))
  {
    hide ParseUdp, UdpPacket;
    UdpBijection(w[i].data, d);
    UdpBijection(UdpPacket(d.target, payload), Datagram(d.target, payload));
  }

  /**
   * The label of an answer: some interleaving gives a client the answer of one target under the name of another exactly
   * when the client asks for two different targets. Otherwise every answer carries its sender.
   */
  lemma MislabelledAnswerIff(w: seq<Packet>)
    ensures CanReach(w, HasMislabelledAnswer) <==> AsksTwoTargets(w)
  {
    hide ParseUdp, UdpPacket, RunOn, Inv;
    forall labels, r | RunOn(w, labels, r) && HasMislabelledAnswer(r) ensures AsksTwoTargets(w) {
      var m: nat, n: nat :| m < |r.sent| && n < |r.responses| && Answers(r.sent[m], r.responses[n])
                         && Mislabelled(r.responses[n]);
      MislabelledAsksTwo(w, labels, r, m, n);
    }
    if AsksTwoTargets(w) {
      var i, j :| 0 <= i < |w| && 0 <= j < |w| && SameClient(w, i, j) && DifferentTargets(w, i, j);
      var d, e := ParseUdp(w[i].data).value, ParseUdp(w[j].data).value;
      var labels, r := SecondTargetMislabelled(w, i, j, d, e);
      LabelIsRead(w, i, d, []);
      assert Answers(r.sent[0], r.responses[0]) && Mislabelled(r.responses[0]);
    }
  }

  /** From any sender, one packet that parses is enough: nothing compares the sender with the label. */
  lemma MislabelledResponseIff(w: seq<Packet>)
    ensures CanReach(w, HasMislabelledResponse) <==> exists i :: 0 <= i < |w| && ParseUdp(w[i].data).Some?
  {
    hide ParseUdp, UdpPacket, RunOn, Inv;
    forall labels, r | RunOn(w, labels, r) && HasMislabelledResponse(r)
      ensures exists i :: 0 <= i < |w| && ParseUdp(w[i].data).Some?
    {
      var n: nat :| n < |r.responses| && Mislabelled(r.responses[n]);
      TasksOf(w, labels, r);
      Isolation(labels, r, n);
      assert ParseUdp(w[r.socks[r.responses[n].sock].creator].data).Some?;
    }
    if i: nat :| i < |w| && ParseUdp(w[i].data).Some? {
      var d := ParseUdp(w[i].data).value;
      var labels, r := OneListens(w, i, d);
      var stranger := if d.target == Ipv4([0, 0, 0, 0], 0) then Ipv4([0, 0, 0, 0], 1) else Ipv4([0, 0, 0, 0], 0);
      Extend(w, labels, r, Hear(0, stranger, [], true));
      labels, r := labels + [Hear(0, stranger, [], true)], Step(r, Hear(0, stranger, [], true));
      LabelIsRead(w, i, d, []);
      assert Mislabelled(r.responses[0]);
    }
  }

  // After the control channel has closed.

  /** A run that goes on after the close, and then answers a client. */
  ghost predicate AnswersAfterClose(w: seq<Packet>) {
    exists labels, r, more, q :: RunOn(w, labels, r) && GoesOnAnswering(r, more, q)
  }

  predicate GoesOnAnswering(r: Relay, more: seq<Label>, q: Relay) {
    !r.open && Exec(r, more) == Some(q) && |q.responses| > |r.responses|
  }

  lemma {:induction false} ClosedReceivesNothing(r: Relay, labels: seq<Label>)
    requires !r.open && Exec(r, labels).Some?
    ensures Received(labels) == []
    decreases |labels|
  {
    hide ParseUdp, UdpPacket;
    if labels != [] {
      ClosedReceivesNothing(Step(r, labels[0]), labels[1..]);
    }
  }

  /**
   * The association ends with its control channel (RFC 1928, section 7), but a listener holds the relay socket and goes
   * on: some interleaving answers a client after the close exactly when one of the received packets parses.
   */
  lemma AnswersAfterCloseIff(w: seq<Packet>)
    ensures AnswersAfterClose(w) <==> exists i :: 0 <= i < |w| && ParseUdp(w[i].data).Some?
  {
    hide ParseUdp, UdpPacket, RunOn;
    forall labels, r, more, q | RunOn(w, labels, r) && GoesOnAnswering(r, more, q)
      ensures exists i :: 0 <= i < |w| && ParseUdp(w[i].data).Some?
    {
      TasksOf(w, labels, r);
      ClosedAnswerParses(w, r, more, q);
    }
    if i: nat :| i < |w| && ParseUdp(w[i].data).Some? {
      var d := ParseUdp(w[i].data).value;
      var labels, r := OneListens(w, i, d);
      Extend(w, labels, r, Stop);
      labels, r := labels + [Stop], Step(r, Stop);
      var hear := Hear(0, d.target, [], true);
      assert Exec(Step(r, hear), [hear][1..]) == Some(Step(r, hear));
      assert GoesOnAnswering(r, [hear], Step(r, hear));
    }
  }

  lemma ClosedAnswerParses(w: seq<Packet>, r: Relay, more: seq<Label>, q: Relay)
    requires Inv(r) && |r.tasks| == |w| && GoesOnAnswering(r, more, q)
    requires forall i :: 0 <= i < |w| ==> r.tasks[i].client == w[i].client && r.tasks[i].data == w[i].data
    ensures exists i :: 0 <= i < |w| && ParseUdp(w[i].data).Some?
  {
    hide ParseUdp, UdpPacket;
    RunKeeps(r, more);
    ClosedReceivesNothing(r, more);
    TasksAreReceived(r, more);
    var p := q.responses[|q.responses| - 1];
    assert ResponseOk(q, p) && SockOk(q, p.sock);
    var i := q.socks[p.sock].creator;
    assert PacketsIn(q.tasks) == PacketsIn(r.tasks);
    assert PacketsIn(q.tasks)[i] == PacketsIn(r.tasks)[i];
    assert ParseUdp(w[i].data).Some?;
  }

  // Without overlap between lookup and insertion a client keeps to one socket.

  /** Between its lookup and its insertion. */
  predicate InGap(t: Task) {
    t.stage.Missed? || t.stage.Opened?
  }

  /** No other task of the same client is in the gap when a task looks the map up. */
  predicate Undisturbed(r: Relay, l: Label) {
    l.Get? && l.i < |r.tasks| ==>
      forall j :: 0 <= j < |r.tasks| && j != l.i && r.tasks[j].client == r.tasks[l.i].client ==> !InGap(r.tasks[j])
  }

  predicate UndisturbedRun(r: Relay, labels: seq<Label>)
    decreases |labels|
  {
    || labels == []
    || (&& Enabled(r, labels[0]) && Undisturbed(r, labels[0])
        && UndisturbedRun(Step(r, labels[0]), labels[1..]))
  }

  predicate Live(s: Sock) {
    s.stage == Unheard || s.stage == Listening || s.stage == Broken
  }

  /** The map is exactly the set of live sockets, and at most one task a client is in the gap. */
  predicate Single(r: Relay) {
    && (forall k :: 0 <= k < |r.socks| && Live(r.socks[k]) ==>
          r.socks[k].owner in r.clientMap && r.clientMap[r.socks[k].owner] == k)
    && (forall i :: 0 <= i < |r.tasks| && InGap(r.tasks[i]) ==> r.tasks[i].client !in r.clientMap)
    && (forall i, j :: 0 <= i < j < |r.tasks| && InGap(r.tasks[i]) && InGap(r.tasks[j]) ==>
          r.tasks[i].client != r.tasks[j].client)
  }

  lemma SingleTaskStep(r: Relay, l: Label)
    requires Single(r) && Enabled(r, l) && Undisturbed(r, l) && (l.Receive? || l.Stop? || l.Get? || l.Send?)
    ensures Single(Step(r, l))
  {
    hide ParseUdp, UdpPacket;
  }

  lemma SingleBind(r: Relay, i: nat, bound: bool)
    requires Single(r) && Enabled(r, Bind(i, bound))
    ensures Single(Step(r, Bind(i, bound)))
  {
    hide ParseUdp, UdpPacket;
  }

  lemma SinglePublish(r: Relay, l: Label)
    requires Inv(r) && Single(r) && Enabled(r, l) && (l.Insert? || l.Spawn?)
    ensures Single(Step(r, l))
  {
    hide ParseUdp, UdpPacket;
    assert TaskOk(r, l.i);
    assert SockOk(r, r.tasks[l.i].stage.sock);
  }

  lemma SingleListenerStep(r: Relay, l: Label)
    requires Single(r) && Enabled(r, l) && (l.Hear? || l.Break? || l.CleanUp?)
    ensures Single(Step(r, l))
  {
    hide ParseUdp, UdpPacket;
  }

  lemma SingleStep(r: Relay, l: Label)
    requires Inv(r) && Single(r) && Enabled(r, l) && Undisturbed(r, l)
    ensures Single(Step(r, l))
  {
    hide ParseUdp, UdpPacket;
    match l
    case Bind(i, bound) => SingleBind(r, i, bound);
    case Insert(_) | Spawn(_) => SinglePublish(r, l);
    case Hear(_, _, _, _) | Break(_) | CleanUp(_) => SingleListenerStep(r, l);
    case Receive(_, _) | Stop | Get(_) | Send(_, _) => SingleTaskStep(r, l);
  }

  lemma {:induction false} SingleRun(r: Relay, labels: seq<Label>)
    requires Inv(r) && Single(r) && UndisturbedRun(r, labels)
    ensures Exec(r, labels).Some?
    ensures Inv(Exec(r, labels).value) && Single(Exec(r, labels).value)
    decreases |labels|
  {
    if labels != [] {
      StepKeeps(r, labels[0]);
      SingleStep(r, labels[0]);
      SingleRun(Step(r, labels[0]), labels[1..]);
    }
  }

  /** Without overlap every client has at most one socket that has not been cleaned up, and the map leads to it. */
  lemma OneSocketPerClient(labels: seq<Label>, r: Relay, j: nat, k: nat)
    requires Reachable(labels, r) && UndisturbedRun(START, labels)
    requires j < |r.socks| && k < |r.socks| && r.socks[j].owner == r.socks[k].owner
    requires r.socks[j].stage != Removed && r.socks[k].stage != Removed
    ensures j == k
    ensures Live(r.socks[k]) ==> r.socks[k].owner in r.clientMap && r.clientMap[r.socks[k].owner] == k
  {
    SingleRun(START, labels);
    assert SockOk(r, j) && SockOk(r, k);
  }
}
