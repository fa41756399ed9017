/** The server's shared counters and loops, updated in place. Every method keeps the invariant of all runs. */
module ProxyServer {
  import opened ConnectionPermits

  datatype Outcome = Hung | Graceful | Forced

  /** Connections among the results of `accept`. */
  function Accepted(arrivals: seq<bool>): nat {
    if arrivals == [] then 0
    else Accepted(arrivals[..|arrivals| - 1]) + if arrivals[|arrivals| - 1] then 1 else 0
  }

  lemma {:induction false} AcceptedSoFar(arrivals: seq<bool>, n: nat)
    requires n <= |arrivals|
    ensures Accepted(arrivals[..n]) <= Accepted(arrivals)
    decreases |arrivals|
  {
    if n < |arrivals| {
      var m := |arrivals| - 1;
      AcceptedSoFar(arrivals[..m], n);
      assert arrivals[..m][..n] == arrivals[..n];
    } else {
      assert arrivals[..n] == arrivals;
    }
  }

  class SharedServer {
    const maxConn: Limit
    var permits: nat
    var loops: seq<Loop>
    var tasks: seq<Task>
    var phase: Phase

    constructor (maxConn: Limit, listeners: nat)
      ensures Valid() && Snapshot() == Start(maxConn, listeners)
    {
      this.maxConn, permits, tasks, phase := maxConn, maxConn, [], Running;
      loops := seq(listeners, _ => Busy);
    }

    ghost function Snapshot(): Server
      reads this
    {
      Server(maxConn, permits, loops, tasks, phase)
    }

    /** Permits are conserved, joined loops have stopped, and a completed drain has left what it should. */
    ghost predicate Valid()
      reads this
    {
      Inv(Snapshot())
    }

    // One uninterrupted section each.

    method EnterSelect(i: nat)
      requires Valid() && Enabled(Snapshot(), Enter(i))
      modifies this
      ensures Valid() && Snapshot() == Step(old(Snapshot()), Enter(i))
    {
      StepKeeps(Snapshot(), Enter(i));
      loops := loops[i := Listening(false)];
    }

    method AcceptConnection(i: nat)
      requires Valid() && Enabled(Snapshot(), Accept(i))
      modifies this
      ensures Valid() && Snapshot() == Step(old(Snapshot()), Accept(i))
    {
      StepKeeps(Snapshot(), Accept(i));
      loops := loops[i := Pending];
    }

    method AcceptError(i: nat)
      requires Valid() && Enabled(Snapshot(), AcceptFails(i))
      modifies this
      ensures Valid() && Snapshot() == Step(old(Snapshot()), AcceptFails(i))
    {
      StepKeeps(Snapshot(), AcceptFails(i));
      loops := loops[i := Busy];
    }

    method AcquireAndSpawn(i: nat)
      requires Valid() && Enabled(Snapshot(), Acquire(i))
      modifies this
      ensures Valid() && Snapshot() == Step(old(Snapshot()), Acquire(i))
    {
      StepKeeps(Snapshot(), Acquire(i));
      permits := permits - 1;
      tasks := tasks + [Serving];
      loops := loops[i := Busy];
    }

    method BreakOnNotice(i: nat)
      requires Valid() && Enabled(Snapshot(), Observe(i))
      modifies this
      ensures Valid() && Snapshot() == Step(old(Snapshot()), Observe(i))
    {
      StepKeeps(Snapshot(), Observe(i));
      loops := loops[i := Stopped];
    }

    method DropPermit(t: nat)
      requires Valid() && Enabled(Snapshot(), Finish(t))
      modifies this
      ensures Valid() && Snapshot() == Step(old(Snapshot()), Finish(t))
    {
      StepKeeps(Snapshot(), Finish(t));
      tasks := tasks[t := Ended];
      permits := permits + 1;
    }

    /** The notice reaches the loops that are at their `select!` at this moment and no others. */
    method NotifyWaiters()
      requires Valid() && Enabled(Snapshot(), Notify)
      modifies this
      ensures Valid() && Snapshot() == Step(old(Snapshot()), Notify)
    {
      StepKeeps(Snapshot(), Notify);
      phase := Stopping;
      ghost var before := loops;
      for i := 0 to |loops|
        invariant |loops| == |before|
        invariant permits == old(permits) && tasks == old(tasks) && phase == Stopping
        invariant forall k :: 0 <= k < i ==> loops[k] == Notice(before)[k]
        invariant forall k :: i <= k < |loops| ==> loops[k] == before[k]
      {
        if loops[i].Listening? {
          loops := loops[i := Listening(true)];
        }
      }
      assert loops == Notice(before);
    }

    /** Whether every accept loop has returned; if so they are joined. */
    method JoinLoops() returns (joined: bool)
      requires Valid() && phase == Stopping
      modifies this
      ensures Valid() && (joined <==> AllStopped(old(Snapshot())))
      ensures Snapshot() == if joined then Step(old(Snapshot()), Join) else old(Snapshot())
    {
      for i := 0 to |loops|
        invariant forall k :: 0 <= k < i ==> loops[k] == Stopped
        invariant Snapshot() == old(Snapshot())
      {
        if loops[i] != Stopped {
          return false;
        }
      }
      StepKeeps(Snapshot(), Join);
      phase := Joined;
      return true;
    }

    /** The moment at which the wait for all permits ends: they are free and given straight back, or time is up. */
    method WaitForConnections() returns (drained: bool)
      requires Valid() && phase == Joined
      modifies this
      ensures Valid() && (drained <==> old(permits) >= Awaited(maxConn))
      ensures Snapshot() == Step(old(Snapshot()), if drained then Drain else TimeOut)
    {
      drained := permits >= Awaited(maxConn);
      StepKeeps(Snapshot(), if drained then Drain else TimeOut);
      phase := if drained then Drained else TimedOut;
    }

    // Longer stretches.

    /** One turn of an accept loop; out of permits, the connection waits, and so does the loop. */
    method AcceptOne(i: nat, arrived: bool) returns (waits: bool)
      requires Valid() && i < |loops| && loops[i] == Busy
      modifies this
      ensures Valid() && phase == old(phase) && (waits <==> arrived && old(permits) == 0)
      ensures permits == old(permits) - (if arrived && !waits then 1 else 0)
      ensures tasks == old(tasks) + (if arrived && !waits then [Serving] else [])
      ensures loops == old(loops)[i := if waits then Pending else Busy]
    {
      EnterSelect(i);
      if !arrived {
        AcceptError(i);
        return false;
      }
      AcceptConnection(i);
      if permits == 0 {
        return true;
      }
      AcquireAndSpawn(i);
      return false;
    }

    /**
     * One accept loop on its own, over the results of `accept`: it serves connections while there are permits and then
     * listens again, but the first one beyond them leaves it waiting, deaf to the notice.
     */
    method AcceptLoop(i: nat, arrivals: seq<bool>) returns (served: nat)
      requires Valid() && i < |loops| && loops[i] == Busy
      modifies this
      ensures Valid() && phase == old(phase)
      ensures served == if Accepted(arrivals) <= old(permits) then Accepted(arrivals) else old(permits)
      ensures permits == old(permits) - served && tasks == old(tasks) + seq(served, _ => Serving)
      ensures loops == old(loops)[i := if Accepted(arrivals) <= old(permits) then Listening(false) else Pending]
    {
      hide Inv;
      served := 0;
      assert old(tasks) + seq(served, _ => Serving) == tasks;
      for n := 0 to |arrivals|
        invariant Valid() && phase == old(phase)
        invariant served == Accepted(arrivals[..n]) <= old(permits) && permits == old(permits) - served
        invariant tasks == old(tasks) + seq(served, _ => Serving)
        invariant loops == old(loops)[i := Busy]
      {
        assert arrivals[..n + 1][..n] == arrivals[..n];
        var waits := AcceptOne(i, arrivals[n]);
        if waits {
          AcceptedSoFar(arrivals, n + 1);
          return;
        }
        if arrivals[n] {
          assert seq(served, _ => Serving) + [Serving] == seq(served + 1, _ => Serving);
          served := served + 1;
        }
      }
      assert arrivals[..|arrivals|] == arrivals;
      EnterSelect(i);
    }

    /** Every loop that was given the notice acts on it. */
    method StopLoops()
      requires Valid() && phase == Stopping
      modifies this
      ensures Valid() && phase == Stopping && tasks == old(tasks) && permits == old(permits) && |loops| == |old(loops)|
      ensures forall k :: 0 <= k < |loops| ==>
                loops[k] == if old(loops)[k] == Listening(true) then Stopped else old(loops)[k]
    {
      for i := 0 to |loops|
        invariant Valid() && phase == Stopping && tasks == old(tasks) && permits == old(permits)
        invariant |loops| == |old(loops)|
        invariant forall k :: 0 <= k < i ==>
                    loops[k] == if old(loops)[k] == Listening(true) then Stopped else old(loops)[k]
        invariant forall k :: i <= k < |loops| ==> loops[k] == old(loops)[k]
      {
        if loops[i] == Listening(true) {
          BreakOnNotice(i);
        }
      }
    }

    /** The connections that end while the server waits. */
    method FinishTasks(ending: seq<nat>)
      requires Valid()
      modifies this
      ensures Valid() && phase == old(phase) && loops == old(loops) && |tasks| == |old(tasks)|
      ensures forall t :: 0 <= t < |tasks| ==> tasks[t] == if t in ending then Ended else old(tasks)[t]
    {
      for n := 0 to |ending|
        invariant Valid() && phase == old(phase) && loops == old(loops) && |tasks| == |old(tasks)|
        invariant forall t :: 0 <= t < |tasks| ==> tasks[t] == if t in ending[..n] then Ended else old(tasks)[t]
      {
        assert ending[..n + 1] == ending[..n] + [ending[n]];
        if ending[n] < |tasks| && tasks[ending[n]] == Serving {
          DropPermit(ending[n]);
        }
      }
      assert ending[..|ending|] == ending;
    }

    /** Notice and join: the join is reached exactly when every loop is at its `select!` at the notice. */
    method StopAccepting() returns (joined: bool)
      requires Valid() && phase == Running
      modifies this
      ensures Valid() && tasks == old(tasks)
      ensures joined <==> forall i :: 0 <= i < |old(loops)| ==> old(loops)[i].Listening?
      ensures if joined then phase == Joined else phase == Stopping && exists i :: Missed(Snapshot(), i)
    {
      ghost var before := loops;
      NotifyWaiters();
      ghost var noticed := loops;
      StopLoops();
      forall i | 0 <= i < |before| ensures loops[i] == Stopped <==> before[i].Listening? {
        assert noticed[i] == Notice(before)[i];
      }
      joined := JoinLoops();
      if !joined {
        ghost var i :| 0 <= i < |loops| && loops[i] != Stopped;
        assert !before[i].Listening?;
        assert Missed(Snapshot(), i);
      }
    }

    /**
     * The end of `run`: notice, join, drain, with `ending` the connections that finish in time. It hangs, for good,
     * exactly when some loop was away from its `select!` at the notice; otherwise it is graceful exactly when few
     * enough connections are left, which for limits that fit in 32 bits means none.
     */
    method Shutdown(ending: seq<nat>) returns (outcome: Outcome)
      requires Valid() && phase == Running
      modifies this
      ensures Valid()
      ensures outcome == Hung <==> exists i :: 0 <= i < |old(loops)| && !old(loops)[i].Listening?
      ensures outcome == Hung ==> forall more, t :: !JoinsBy(Snapshot(), more, t)
      ensures outcome != Hung ==> AllStopped(Snapshot()) && |tasks| == |old(tasks)|
      ensures outcome != Hung ==>
                forall t :: 0 <= t < |tasks| ==> tasks[t] == if t in ending then Ended else old(tasks)[t]
      ensures outcome != Hung ==> (outcome == Graceful <==> InFlight(tasks) + maxConn % 0x1_0000_0000 <= maxConn)
      ensures outcome == Graceful && maxConn < 0x1_0000_0000 ==> InFlight(tasks) == 0
    {
      var joined := StopAccepting();
      if !joined {
        ghost var i :| Missed(Snapshot(), i);
        forall more, t | Runs(Snapshot(), more, t) ensures !JoinsBy(Snapshot(), more, t) {
          MissedForever(Snapshot(), i, more, t);
        }
        return Hung;
      }
      FinishTasks(ending);
      var drained := WaitForConnections();
      outcome := if drained then Graceful else Forced;
    }
  }
}
