/**
 * The engine of the campfire view as an object whose fields are updated in
 * place, one statement at a time, as the view's actions and timers do.
 * Each method is proved to perform the corresponding transition of module
 * Engine and to keep its invariant.
 */
module Campfire {
  import opened Types
  import opened Trace
  import Pool
  import opened MessageQueue
  import Engine

  class CampfireSim {
    var looper: Looper
    var queue: seq<Message>
    var processingMsg: Option<Message>
    /** The processing timeouts scheduled and not yet fired, oldest first. */
    var timers: seq<Engine.Timer>
    var logs: seq<LogEntry>
    var poolSize: int
    var msgIdCounter: nat

    function State(): Engine.State
      reads this
    {
      Engine.State(looper, queue, processingMsg, timers, logs, poolSize, msgIdCounter)
    }

    ghost predicate Valid()
      reads this
    {
      Engine.Valid(State())
    }

    constructor ()
      ensures State() == Engine.Initial && Valid()
    {
      looper := Looper(false, "MainThread", false);
      queue := [];
      processingMsg := None;
      timers := [];
      logs := [];
      poolSize := Pool.InitialSize;
      msgIdCounter := 0;
    }

    /** `addLog`. */
    method AddLog(e: LogEntry)
      modifies this`logs
      ensures logs == Record(old(logs), e)
    {
      logs := Record(logs, e);
    }

    method PrepareLooper()
      requires Valid()
      modifies this
      ensures State() == Engine.PrepareLooper(old(State())) && Valid()
    {
      Engine.PreparePreservesValid(State());
      if looper.active {
        AddLog(AlreadyPrepared);
        return;
      }
      looper := looper.(active := true);
      AddLog(LooperPrepared);
    }

    method StartLoop()
      requires Valid()
      modifies this
      ensures State() == Engine.StartLoop(old(State())) && Valid()
    {
      Engine.StartPreservesValid(State());
      if !looper.active {
        AddLog(NotPrepared);
        return;
      }
      if looper.isLooping {
        AddLog(AlreadyLooping);
        return;
      }
      looper := looper.(isLooping := true);
      AddLog(LoopStarted);
    }

    method StopLoop()
      requires Valid()
      modifies this
      ensures State() == Engine.StopLoop(old(State())) && Valid()
    {
      Engine.StopPreservesValid(State());
      looper := looper.(isLooping := false);
      AddLog(LoopStopped);
    }

    /**
     * The pool step of `sendMessage`: take an object from the pool when asked
     * to and one is left, otherwise allocate a fresh one; log which happened.
     */
    method ObtainOrAllocate(isObtain: bool) returns (fromPool: bool)
      modifies this`poolSize, this`logs
      ensures fromPool == Pool.CanObtain(old(poolSize), isObtain)
      ensures poolSize == Pool.Checkout(old(poolSize), isObtain)
      ensures logs == Record(old(logs), Engine.AllocationEntry(old(poolSize), isObtain))
    {
      if isObtain && poolSize > 0 {
        poolSize := poolSize - 1;
        AddLog(ObtainedFromPool);
        fromPool := true;
      } else {
        if isObtain {
          AddLog(PoolEmpty);
        } else {
          AddLog(FreshAllocation);
        }
        fromPool := false;
      }
    }

    /** `sendMessage(delay, isObtain)` at time `now`, with payload tag `what`. */
    method SendMessage(now: int, delay: int, isObtain: bool, what: int) returns (newMsg: Message)
      requires Valid()
      modifies this
      ensures State() == Engine.SendMessage(old(State()), now, delay, isObtain, what) && Valid()
      ensures newMsg == Engine.NewMessage(old(State()), now, delay, isObtain, what)
    {
      ghost var s0 := State();
      ghost var target := Engine.SendMessage(s0, now, delay, isObtain, what);
      if !looper.active {
        AddLog(SendingBlindly);
      }
      assert logs == (if s0.looper.active then s0 else Engine.Log(s0, SendingBlindly)).logs;
      var fromPool := ObtainOrAllocate(isObtain);
      assert looper == s0.looper && queue == s0.queue && msgIdCounter == s0.nextId;
      newMsg := Message(msgIdCounter, what, now + delay, "Handler", fromPool);
      assert newMsg == Engine.NewMessage(s0, now, delay, isObtain, what);
      msgIdCounter := msgIdCounter + 1;
      queue := SortByWhen(queue + [newMsg]);
      AddLog(Sent(what, delay));
      assert logs == target.logs && queue == target.queue && poolSize == target.poolSize;
      assert State() == target;
      Engine.SendPreservesValid(s0, now, delay, isObtain, what);
    }

    /** One firing of the 500 ms polling interval at time `now`. */
    method Tick(now: int, reuse: bool)
      requires Valid()
      modifies this
      ensures State() == Engine.Tick(old(State()), now, reuse) && Valid()
    {
      Engine.TickPreservesValid(State(), now, reuse);
      if !looper.isLooping {
        return;
      }
      if |queue| == 0 {
        return;
      }
      var nextMsg := queue[0];
      if now >= nextMsg.when {
        processingMsg := Some(nextMsg);
        AddLog(Dispatched(nextMsg.what));
        timers := timers + [Engine.Timer(nextMsg, reuse)];
        queue := queue[1..];
      }
    }

    /** The oldest 800 ms processing timeout fires. */
    method Complete()
      requires Valid() && timers != []
      modifies this
      ensures State() == Engine.Complete(old(State())) && Valid()
    {
      Engine.CompletePreservesValid(State());
      var t := timers[0];
      timers := timers[1..];
      processingMsg := None;
      if t.msg.isRecycled || t.reuse {
        poolSize := Pool.Recycle(poolSize);
        AddLog(Recycled(t.msg.what));
      }
    }
  }
}
