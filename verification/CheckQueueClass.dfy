/** The queue object: its fields, and its critical sections as methods that change them. Each method does what
    the step of the transition system says, and a Wait without workers is a plain loop. */
module CheckQueueClass {
  import opened CheckQueue

  class Queue<T(!new)> {
    var queue: seq<T>
    var nIdle: int
    var nTotal: int
    var allOk: bool
    var nTodo: int
    const maxBatch: nat

    ghost function View(): Shared<T>
      reads this
    {
      Shared(queue, nIdle, nTotal, allOk, nTodo)
    }

    constructor (maxBatch: nat)
      ensures this.maxBatch == maxBatch
      ensures View() == Start<T>(0).shared
    {
      this.maxBatch := maxBatch;
      queue, nIdle, nTotal, allOk, nTodo := [], 0, 0, true, 0;
    }

    /** Queues the checks; tells how many threads are to be notified. */
    method Add(checks: seq<T>) returns (notifyOne: bool, notifyAll: bool)
      modifies this
      ensures View() == old(View()).(queue := old(queue) + checks, nTodo := old(nTodo) + |checks|)
      ensures notifyOne <==> |checks| == 1
      ensures notifyAll <==> |checks| > 1
    {
      if checks == [] {
        assert queue + checks == queue;
        return false, false;
      }
      queue := queue + checks;
      nTodo := nTodo + |checks|;
      return |checks| == 1, |checks| != 1;
    }

    /** From taking the mutex to giving it up. */
    method Critical(master: bool, p: Phase<T>) returns (o: Outcome<T>, notifyMaster: bool)
      requires MayLock(p) && Arrived(View(), p).nTotal + Arrived(View(), p).nIdle >= 0
      modifies this
      ensures (View(), o) == Decided(old(Arrived(View(), p)), maxBatch, master)
      ensures notifyMaster <==> p.Working? && !master && old(Arrived(View(), p)).nTodo == 0
    {
      notifyMaster := false;
      if p.Working? {
        allOk := allOk && p.ok;
        nTodo := nTodo - |p.batch|;
        notifyMaster := nTodo == 0 && !master;
      } else if p.Woken? {
        nIdle := nIdle - 1;
      } else {
        nTotal := nTotal + 1;
      }
      if queue == [] {
        if master && nTodo == 0 {
          nTotal := nTotal - 1;
          o := Returns(allOk);
          allOk := true;
          return;
        }
        nIdle := nIdle + 1;
        return Waits, notifyMaster;
      }
      var rest := |queue| - BatchSize(maxBatch, |queue|, nTotal + nIdle + 1);
      o := Takes(queue[rest..], allOk);
      queue := queue[..rest];
    }

    /** Executes a batch; after the first failure the remaining checks are skipped. */
    static method Execute(eval: T -> bool, batch: seq<T>, start: bool) returns (ok: bool)
      ensures ok <==> start && AllTrue(eval, batch)
    {
      ok := start;
      for i := 0 to |batch|
        invariant ok <==> start && AllTrue(eval, batch[..i])
      {
        assert batch[..i + 1] == batch[..i] + [batch[i]];
        if ok {
          ok := eval(batch[i]);
        }
      }
      assert batch[..|batch|] == batch;
    }

    /** The master's loop on a queue without workers. */
    method WaitAlone(eval: T -> bool) returns (result: bool)
      requires View() == Shared(queue, 0, 0, true, |queue|)
      modifies this
      ensures result <==> AllTrue(eval, old(queue))
      ensures View() == Start<T>(0).shared
    {
      hide BatchSize, AllTrue, Decided;
      ghost var all, done := queue, [];
      Nothing(eval);
      TakenAlone(View(), eval, maxBatch, Entering, all, done);
      var o, notify := Critical(true, Entering);
      while !o.Returns?
        invariant o.Takes? ==> Alone(View(), eval, o, all, done)
        invariant o.Returns? ==> View() == Start<T>(0).shared && (o.result <==> AllTrue(eval, all))
        invariant !o.Waits?
        decreases if o.Takes? then |queue| + 1 else 0
      {
        var batch := o.batch;
        var ok := Execute(eval, batch, o.ok);
        ghost var now := batch + done;
        Both(eval, batch, done);
        assert queue + batch + done == queue + now;
        TakenAlone(View(), eval, maxBatch, Working(batch, |batch|, ok), all, now);
        o, notify := Critical(true, Working(batch, |batch|, ok));
        done := now;
      }
      result := o.result;
    }
  }

  /** The state of the loop while the master holds a batch: what is done, what it holds and what is queued. */
  ghost predicate Alone<T(!new)>(s: Shared<T>, eval: T -> bool, o: Outcome<T>, all: seq<T>, done: seq<T>) {
    && o.Takes? && o.batch != [] && o.ok == s.allOk
    && s.nIdle == 0 && s.nTotal == 1 && s.nTodo == |s.queue| + |o.batch|
    && all == s.queue + o.batch + done
    && (s.allOk <==> AllTrue(eval, done))
  }

  lemma {:induction false} Nothing<T(!new)>(eval: T -> bool)
    ensures AllTrue(eval, [])
  {
  }

  lemma {:induction false} Both<T(!new)>(eval: T -> bool, a: seq<T>, b: seq<T>)
    ensures AllTrue(eval, a + b) <==> AllTrue(eval, a) && AllTrue(eval, b)
  {
    if AllTrue(eval, a + b) {
      forall c | c in a ensures eval(c) {
        assert c in a + b;
      }
      forall c | c in b ensures eval(c) {
        assert c in a + b;
      }
    }
  }

  lemma {:induction false} TakenAlone<T(!new)>(s: Shared<T>, eval: T -> bool, maxBatch: nat, p: Phase<T>, all: seq<T>, done: seq<T>)
    requires p.Entering? || (p.Working? && p.batch != [])
    requires var u := Arrived(s, p);
      && u.nIdle == 0 && u.nTotal == 1 && u.nTodo == |u.queue| && all == u.queue + done
      && (u.allOk <==> AllTrue(eval, done))
    ensures var (u, o) := Decided(Arrived(s, p), maxBatch, true);
      && !o.Waits?
      && (o.Takes? ==> Alone(u, eval, o, all, done) && |u.queue| < |s.queue|)
      && (o.Returns? ==> u == Start<T>(0).shared && (o.result <==> AllTrue(eval, all)))
  {
    hide BatchSize, AllTrue;
    var (u, o) := Decided(Arrived(s, p), maxBatch, true);
    if o.Takes? {
      assert s.queue == u.queue + o.batch;
    } else {
      assert all == done;
    }
  }
}
