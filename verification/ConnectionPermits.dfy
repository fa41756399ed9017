/**
 * Accept loops sharing one semaphore, the shutdown notice and the drain. A loop listens for the notice only while it is
 * at its `select!`; the notice reaches the loops that are there at that moment and no others.
 */
module ConnectionPermits {

  /**
   * `Busy` is on its way to its `select!`: not yet polled for the first time, or between two turns. `Listening(true)`
   * has a notice that it has not acted on; `Pending` holds a connection without a permit.
   */
  datatype Loop = Busy | Listening(notified: bool) | Pending | Stopped

  datatype Task = Serving | Ended

  datatype Phase = Running | Stopping | Joined | Drained | TimedOut

  /** The most permits a semaphore can have (`usize::MAX >> 3`); a larger limit stops the server at its start. */
  const MAX_PERMITS: nat := 0x1FFF_FFFF_FFFF_FFFF

  type Limit = n: nat | n <= MAX_PERMITS

  datatype Server = Server(maxConn: Limit, permits: nat, loops: seq<Loop>, tasks: seq<Task>, phase: Phase)

  datatype Label =
    | Enter(i: nat)
    | Accept(i: nat)
    | AcceptFails(i: nat)
    | Acquire(i: nat)
    | Finish(t: nat)
    | Notify
    | Observe(i: nat)
    | Join
    | Drain
    | TimeOut

  function Start(maxConn: Limit, loops: nat): Server {
    Server(maxConn, maxConn, seq(loops, _ => Busy), [], Running)
  }

  /** `max_conn as u32`, the number of permits the drain waits for. */
  function Awaited(maxConn: nat): nat {
    maxConn % 0x1_0000_0000
  }

  predicate AllStopped(s: Server) {
    forall i :: 0 <= i < |s.loops| ==> s.loops[i] == Stopped
  }

  predicate Enabled(s: Server, l: Label) {
    match l
    case Enter(i) => i < |s.loops| && s.loops[i].Busy?
    case Accept(i) => i < |s.loops| && s.loops[i].Listening?
    case AcceptFails(i) => i < |s.loops| && s.loops[i].Listening?
    case Acquire(i) => i < |s.loops| && s.loops[i].Pending? && s.permits > 0
    case Finish(t) => t < |s.tasks| && s.tasks[t] == Serving
    case Notify => s.phase == Running
    case Observe(i) => i < |s.loops| && s.loops[i] == Listening(true)
    case Join => s.phase == Stopping && AllStopped(s)
    case Drain => s.phase == Joined && s.permits >= Awaited(s.maxConn)
    case TimeOut => s.phase == Joined && s.permits < s.maxConn
  }

  function Notice(loops: seq<Loop>): seq<Loop> {
    seq(|loops|, i requires 0 <= i < |loops| => if loops[i].Listening? then Listening(true) else loops[i])
  }

  function Step(s: Server, l: Label): Server
    requires Enabled(s, l)
  {
    match l
    case Enter(i) => s.(loops := s.loops[i := Listening(false)])
    case Accept(i) => s.(loops := s.loops[i := Pending])
    case AcceptFails(i) => s.(loops := s.loops[i := Busy])
    case Acquire(i) =>
      s.(loops := s.loops[i := Busy], permits := s.permits - 1, tasks := s.tasks + [Serving])
    case Finish(t) => s.(tasks := s.tasks[t := Ended], permits := s.permits + 1)
    case Notify => s.(phase := Stopping, loops := Notice(s.loops))
    case Observe(i) => s.(loops := s.loops[i := Stopped])
    case Join => s.(phase := Joined)
    case Drain => s.(phase := Drained)
    case TimeOut => s.(phase := TimedOut)
  }

  ghost predicate Runs(s: Server, labels: seq<Label>, t: Server)
    decreases |labels|
  {
    if labels == [] then s == t
    else Enabled(s, labels[0]) && Runs(Step(s, labels[0]), labels[1..], t)
  }

  /** Tasks that hold a permit. */
  function InFlight(tasks: seq<Task>): nat {
    if tasks == [] then 0 else InFlight(tasks[..|tasks| - 1]) + if tasks[|tasks| - 1] == Serving then 1 else 0
  }

  predicate PastLoops(s: Server) {
    s.phase == Joined || s.phase == Drained || s.phase == TimedOut
  }

  predicate Inv(s: Server) {
    && s.permits + InFlight(s.tasks) == s.maxConn
    && (PastLoops(s) ==> AllStopped(s))
    && (s.phase == Drained ==> InFlight(s.tasks) <= s.maxConn - Awaited(s.maxConn))
    && (s.phase == Running ==>
          forall i :: 0 <= i < |s.loops| ==> s.loops[i] != Listening(true) && s.loops[i] != Stopped)
  }

  lemma {:induction false} InFlightFinish(tasks: seq<Task>, t: nat)
    requires t < |tasks| && tasks[t] == Serving
    ensures InFlight(tasks[t := Ended]) == InFlight(tasks) - 1
    decreases |tasks|
  {
    var n := |tasks| - 1;
    if t < n {
      InFlightFinish(tasks[..n], t);
      assert tasks[t := Ended][..n] == tasks[..n][t := Ended];
    } else {
      assert tasks[t := Ended][..n] == tasks[..n];
    }
  }

  lemma StepKeeps(s: Server, l: Label)
    requires Inv(s) && Enabled(s, l)
    ensures Inv(Step(s, l))
    ensures PastLoops(s) ==> PastLoops(Step(s, l)) && InFlight(Step(s, l).tasks) <= InFlight(s.tasks)
  {
    match l
    case Acquire(i) => assert (s.tasks + [Serving])[..|s.tasks|] == s.tasks;
    case Finish(t) => InFlightFinish(s.tasks, t);
    case _ =>
  }

  lemma {:induction false} RunKeeps(s: Server, labels: seq<Label>, t: Server)
    requires Inv(s) && Runs(s, labels, t)
    ensures Inv(t) && t.maxConn == s.maxConn && |t.loops| == |s.loops|
    ensures PastLoops(s) ==> PastLoops(t) && InFlight(t.tasks) <= InFlight(s.tasks)
    decreases |labels|
  {
    if labels != [] {
      StepKeeps(s, labels[0]);
      RunKeeps(Step(s, labels[0]), labels[1..], t);
    }
  }

  /** Conservation: free permits and permit-holding tasks always add up to the limit. */
  lemma PermitsAreConserved(maxConn: Limit, loops: nat, labels: seq<Label>, s: Server)
    requires Runs(Start(maxConn, loops), labels, s)
    ensures s.permits + InFlight(s.tasks) == maxConn
  {
    RunKeeps(Start(maxConn, loops), labels, s);
  }

  /** Once every accept loop has been joined, no later moment has more tasks in flight. */
  lemma NoNewTasksAfterJoin(maxConn: Limit, loops: nat, before: seq<Label>, s: Server, after: seq<Label>, t: Server)
    requires Runs(Start(maxConn, loops), before, s) && PastLoops(s) && Runs(s, after, t)
    ensures InFlight(t.tasks) <= InFlight(s.tasks) && AllStopped(t)
  {
    RunKeeps(Start(maxConn, loops), before, s);
    RunKeeps(s, after, t);
  }

  /** After a completed drain nothing is in flight, then and for the rest of the run, if the limit fits in 32 bits. */
  lemma DrainedIsIdle(maxConn: Limit, loops: nat, before: seq<Label>, s: Server, after: seq<Label>, t: Server)
    requires maxConn < 0x1_0000_0000
    requires Runs(Start(maxConn, loops), before, s) && s.phase == Drained && Runs(s, after, t)
    ensures InFlight(t.tasks) == 0
  {
    RunKeeps(Start(maxConn, loops), before, s);
    RunKeeps(s, after, t);
  }

  lemma {:induction false} RunsAppend(s: Server, labels: seq<Label>, t: Server, l: Label)
    requires Runs(s, labels, t) && Enabled(t, l)
    ensures Runs(s, labels + [l], Step(t, l))
    decreases |labels|
  {
    if labels != [] {
      assert (labels + [l])[1..] == labels[1..] + [l];
      RunsAppend(Step(s, labels[0]), labels[1..], t, l);
    } else {
      assert (labels + [l])[1..] == [];
    }
  }

  /** With a larger limit the cast makes the drain complete while a connection is still served. */
  lemma LargeLimitDrainsEarly(maxConn: Limit) returns (labels: seq<Label>, s: Server)
    requires maxConn >= 0x1_0000_0000
    ensures Runs(Start(maxConn, 1), labels, s) && s.phase == Drained && InFlight(s.tasks) == 1
  {
    var start := Start(maxConn, 1);
    labels, s := [], start;
    RunsAppend(start, labels, s, Enter(0));
    labels, s := labels + [Enter(0)], Step(s, Enter(0));
    RunsAppend(start, labels, s, Accept(0));
    labels, s := labels + [Accept(0)], Step(s, Accept(0));
    RunsAppend(start, labels, s, Acquire(0));
    labels, s := labels + [Acquire(0)], Step(s, Acquire(0));
    RunsAppend(start, labels, s, Enter(0));
    labels, s := labels + [Enter(0)], Step(s, Enter(0));
    RunsAppend(start, labels, s, Notify);
    labels, s := labels + [Notify], Step(s, Notify);
    RunsAppend(start, labels, s, Observe(0));
    labels, s := labels + [Observe(0)], Step(s, Observe(0));
    RunsAppend(start, labels, s, Join);
    labels, s := labels + [Join], Step(s, Join);
    RunsAppend(start, labels, s, Drain);
    labels, s := labels + [Drain], Step(s, Drain);
    assert s.tasks == [Serving];
  }

  ghost predicate DrainsBy(maxConn: Limit, loops: nat, labels: seq<Label>, s: Server) {
    Runs(Start(maxConn, loops), labels, s) && s.phase == Drained
  }

  /** The drain means what it says exactly for limits that fit in 32 bits, of those a semaphore can have. */
  lemma DrainIsSoundIff(maxConn: Limit)
    ensures (forall loops: nat, labels, s :: DrainsBy(maxConn, loops, labels, s) ==> InFlight(s.tasks) == 0)
       <==> maxConn < 0x1_0000_0000
  {
    if maxConn < 0x1_0000_0000 {
      forall loops: nat, labels, s | DrainsBy(maxConn, loops, labels, s)
        ensures InFlight(s.tasks) == 0
      {
        DrainedIsIdle(maxConn, loops, labels, s, [], s);
      }
    } else {
      var labels, s := LargeLimitDrainsEarly(maxConn);
      assert DrainsBy(maxConn, 1, labels, s);
    }
  }

  // The lost notice.

  /** A loop the notice has missed. */
  predicate Missed(s: Server, i: nat) {
    i < |s.loops| && (s.loops[i] == Busy || s.loops[i] == Pending || s.loops[i] == Listening(false))
  }

  /** A loop that the notice has missed goes on forever, and shutdown never gets past joining it. */
  lemma {:induction false} MissedForever(s: Server, i: nat, labels: seq<Label>, t: Server)
    requires s.phase == Stopping && Missed(s, i) && Runs(s, labels, t)
    ensures t.phase == Stopping && Missed(t, i)
    decreases |labels|
  {
    if labels != [] {
      MissedForever(Step(s, labels[0]), i, labels[1..], t);
    }
  }

  /** Stops, one by one, the loops that have the notice. */
  lemma {:induction false} StopFrom(s: Server, k: nat) returns (labels: seq<Label>, t: Server)
    requires s.phase == Stopping && k <= |s.loops|
    requires forall i :: 0 <= i < |s.loops| ==> s.loops[i] == Stopped || s.loops[i] == Listening(true)
    requires forall i :: 0 <= i < k ==> s.loops[i] == Stopped
    ensures Runs(s, labels, t) && t.phase == Stopping && AllStopped(t)
    decreases |s.loops| - k
  {
    if k == |s.loops| {
      return [], s;
    }
    if s.loops[k] == Stopped {
      labels, t := StopFrom(s, k + 1);
    } else {
      var later;
      later, t := StopFrom(Step(s, Observe(k)), k + 1);
      labels := [Observe(k)] + later;
      assert labels[1..] == later;
    }
  }

  ghost predicate JoinsBy(s: Server, labels: seq<Label>, t: Server) {
    Runs(s, labels, t) && t.phase == Joined
  }

  /** Shutdown can still get past joining exactly while every loop has stopped or still holds an unread notice. */
  lemma CanJoinIff(s: Server)
    requires s.phase == Stopping
    ensures (exists labels, t :: JoinsBy(s, labels, t))
       <==> forall i :: 0 <= i < |s.loops| ==> s.loops[i] == Stopped || s.loops[i] == Listening(true)
  {
    if forall i :: 0 <= i < |s.loops| ==> s.loops[i] == Stopped || s.loops[i] == Listening(true) {
      var labels, t := StopFrom(s, 0);
      RunsAppend(s, labels, t, Join);
      assert JoinsBy(s, labels + [Join], Step(t, Join));
    } else {
      var i :| 0 <= i < |s.loops| && !(s.loops[i] == Stopped || s.loops[i] == Listening(true));
      forall labels, t | Runs(s, labels, t) ensures !JoinsBy(s, labels, t) {
        MissedForever(s, i, labels, t);
      }
    }
  }

  /**
   * From the moment of the notice in any reachable state: shutdown can get past joining exactly when every accept loop
   * was at its `select!` at that moment.
   */
  lemma NoticeReachesAllIff(maxConn: Limit, loops: nat, before: seq<Label>, s: Server)
    requires Runs(Start(maxConn, loops), before, s) && s.phase == Running
    ensures (exists labels, t :: JoinsBy(Step(s, Notify), labels, t))
       <==> forall i :: 0 <= i < |s.loops| ==> s.loops[i].Listening?
  {
    RunKeeps(Start(maxConn, loops), before, s);
    var q := Step(s, Notify);
    CanJoinIff(q);
    forall i | 0 <= i < |s.loops| ensures q.loops[i] == Listening(true) <==> s.loops[i].Listening? {
      assert q.loops[i] == if s.loops[i].Listening? then Listening(true) else s.loops[i];
    }
  }

  /**
   * Each way of being away from the `select!` loses the notice for good: not polled yet, between two turns, or holding
   * a connection. In these reachable states no run ever gets past joining.
   */
  lemma NoticeCanBeLost(maxConn: Limit, loops: nat, before: seq<Label>) returns (s: Server)
    requires loops > 0
    requires before in [[], [Enter(0), AcceptFails(0)], [Enter(0), Accept(0)]]
    ensures Runs(Start(maxConn, loops), before + [Notify], s) && s.phase == Stopping
    ensures forall more, t :: !JoinsBy(s, more, t)
  {
    var start := Start(maxConn, loops);
    s := start;
    if before != [] {
      RunsAppend(start, [], s, Enter(0));
      s := Step(s, Enter(0));
      RunsAppend(start, [Enter(0)], s, before[1]);
      assert [] + [Enter(0)] == [Enter(0)] && [Enter(0)] + [before[1]] == before;
      s := Step(s, before[1]);
    }
    RunsAppend(start, before, s, Notify);
    s := Step(s, Notify);
    assert Missed(s, 0);
    forall more, t | Runs(s, more, t) ensures !JoinsBy(s, more, t) {
      MissedForever(s, 0, more, t);
    }
  }
}
