/** The pool of connections to Redis. Each method is one stretch of work under the
    pool's lock; threads run them in any order, opening connections in between. */
module RedisPool {
  /** Where a thread stands: elsewhere, waiting for a connection to be given back,
      opening one outside the lock, or holding one. */
  datatype Thread = Outside | Waiting | Opening | Holding(connection: nat)

  predicate Busy(t: Thread) { t.Opening? || t.Holding? }

  function BusyCount(threads: seq<Thread>): nat {
    if threads == [] then 0
    else
      var n := |threads| - 1;
      BusyCount(threads[..n]) + (if Busy(threads[n]) then 1 else 0)
  }

  lemma {:induction false} BusyUpdate(threads: seq<Thread>, t: nat, now: Thread)
    requires t < |threads|
    ensures BusyCount(threads[t := now])
         == BusyCount(threads) - (if Busy(threads[t]) then 1 else 0) + (if Busy(now) then 1 else 0)
    decreases |threads|
  {
    var n := |threads| - 1;
    if t == n {
      assert threads[t := now][..n] == threads[..n];
    } else {
      assert threads[t := now][..n] == threads[..n][t := now];
      BusyUpdate(threads[..n], t, now);
    }
  }

  /** No connection is idle twice, held twice, or both, and a new one is none of them. */
  ghost predicate Apart(idle: seq<nat>, threads: seq<Thread>, next: nat) {
    && (forall i, j :: 0 <= i < j < |idle| ==> idle[i] != idle[j])
    && (forall t, u :: 0 <= t < u < |threads| && threads[t].Holding? && threads[u].Holding? ==>
          threads[t].connection != threads[u].connection)
    && (forall t :: 0 <= t < |threads| && threads[t].Holding? ==>
          threads[t].connection !in idle && threads[t].connection < next)
    && (forall i :: 0 <= i < |idle| ==> idle[i] < next)
  }

  datatype Step = Borrow(t: nat) | Opened(t: nat, ok: bool) | Return(t: nat, failed: bool)

  class Pool {
    const poolSize: nat
    /** Idle connections, the last returned first. */
    var connections: seq<nat>
    var count: int
    var threads: seq<Thread>
    /** The number of the next connection opened. */
    var next: nat

    constructor (poolSize: nat, threadCount: nat)
      ensures Valid() && this.poolSize == poolSize && count == 0 && |threads| == threadCount
    {
      this.poolSize, connections, count, next := poolSize, [], 0, 0;
      threads := seq(threadCount, _ => Outside);
      new;
      NobodyBusy(threads);
    }

    ghost predicate Valid()
      reads this
    {
      && count == |connections| + BusyCount(threads)
      && count <= poolSize
      && Apart(connections, threads, next)
    }

    /** Under the lock in `borrowConnection`: take an idle connection, or claim room
        for a new one before opening it, or wait. */
    method Borrow(t: nat)
      requires Valid() && t < |threads| && (threads[t].Outside? || threads[t].Waiting?)
      modifies this`connections, this`count, this`threads
      ensures Valid() && |threads| == old(|threads|)
      ensures threads == old(threads)[t := threads[t]]
      ensures old(connections) != [] ==>
        threads[t] == Holding(old(connections)[0]) && connections == old(connections)[1..] && count == old(count)
      ensures old(connections) == [] ==> connections == []
      ensures old(connections) == [] && old(count) < poolSize ==> threads[t] == Opening && count == old(count) + 1
      ensures old(connections) == [] && old(count) >= poolSize ==> threads[t] == Waiting && count == old(count)
    {
      hide BusyCount;
      if connections != [] {
        BusyUpdate(threads, t, Holding(connections[0]));
        threads := threads[t := Holding(connections[0])];
        connections := connections[1..];
      } else if count < poolSize {
        BusyUpdate(threads, t, Opening);
        count := count + 1;
        threads := threads[t := Opening];
      } else {
        BusyUpdate(threads, t, Waiting);
        threads := threads[t := Waiting];
      }
    }

    /** The connection is there, or its room is given up. */
    method Opened(t: nat, ok: bool)
      requires Valid() && t < |threads| && threads[t].Opening?
      modifies this`count, this`threads, this`next
      ensures Valid() && threads == old(threads)[t := if ok then Holding(old(next)) else Outside]
      ensures count == old(count) - (if ok then 0 else 1)
    {
      hide BusyCount;
      if ok {
        BusyUpdate(threads, t, Holding(next));
        threads := threads[t := Holding(next)];
        next := next + 1;
      } else {
        BusyUpdate(threads, t, Outside);
        count := count - 1;
        threads := threads[t := Outside];
      }
    }

    /** `returnConnection`: a connection that failed is dropped with its room. */
    method Return(t: nat, failed: bool)
      requires Valid() && t < |threads| && threads[t].Holding?
      modifies this`connections, this`count, this`threads
      ensures Valid() && threads == old(threads)[t := Outside]
      ensures connections == if failed then old(connections) else [old(threads)[t].connection] + old(connections)
      ensures count == old(count) - (if failed then 1 else 0)
    {
      hide BusyCount;
      BusyUpdate(threads, t, Outside);
      if failed {
        count := count - 1;
      } else {
        connections := [threads[t].connection] + connections;
      }
      threads := threads[t := Outside];
    }

    /** Any interleaving of any threads; a step whose thread is elsewhere is skipped.
        At every point the count is right, within the pool size, and no connection
        has two holders. */
    method Run(steps: seq<Step>)
      requires Valid()
      modifies this
      ensures Valid()
    {
      var i := 0;
      while i < |steps|
        invariant 0 <= i <= |steps| && Valid()
      {
        var step := steps[i];
        if step.t < |threads| {
          match step
          case Borrow(t) => if threads[t].Outside? || threads[t].Waiting? { Borrow(t); }
          case Opened(t, ok) => if threads[t].Opening? { Opened(t, ok); }
          case Return(t, failed) => if threads[t].Holding? { Return(t, failed); }
        }
        i := i + 1;
      }
    }
  }

  lemma {:induction false} NobodyBusy(threads: seq<Thread>)
    requires forall t :: 0 <= t < |threads| ==> threads[t] == Outside
    ensures BusyCount(threads) == 0
  {
    if threads != [] {
      NobodyBusy(threads[..|threads| - 1]);
    }
  }
}
