/**
 * The Handler/Looper/MessageQueue simulation of the campfire view, as pure
 * transitions on a whole-state value. The class in campfire_sim.dfy runs
 * these transitions in place; the lemmas here state what they guarantee.
 *
 * The two timers of the view become explicit steps: `Tick` is one firing of
 * the 500 ms polling interval and `Complete` one firing of the 800 ms
 * processing timeout. `Date.now()` is the parameter `now`, `Math.random()`
 * for `what` the parameter `what`, and whether the active lesson is the
 * "reuse" one the parameter `reuse`.
 */
module Engine {
  import opened Types
  import opened Trace
  import Pool
  import opened MessageQueue

  /**
   * A scheduled completion: the message being processed, and whether the
   * "reuse" lesson was active when the interval that dispatched it was set up.
   */
  datatype Timer = Timer(msg: Message, reuse: bool)

  /**
   * The whole engine: the looper record, the queue, the processing slot, the
   * completions still to fire (oldest first), the log, the pool count and the
   * message id counter.
   */
  datatype State = State(
    looper: Looper,
    queue: seq<Message>,
    processing: Option<Message>,
    timers: seq<Timer>,
    logs: seq<LogEntry>,
    poolSize: int,
    nextId: nat)

  const Initial: State :=
    State(Looper(false, "MainThread", false), [], None, [], [], Pool.InitialSize, 0)

  function Log(s: State, e: LogEntry): State
  {
    s.(logs := Record(s.logs, e))
  }

  /**
   * `prepareLooper`: afterwards the looper is active; `isLooping` and
   * everything but the looper and the log stay as they were.
   */
  function PrepareLooper(s: State): (r: State)
    ensures r.looper.active
    ensures r.looper.isLooping == s.looper.isLooping && r.looper.threadName == s.looper.threadName
    ensures r.logs == Record(s.logs, if s.looper.active then AlreadyPrepared else LooperPrepared)
    ensures r.(looper := s.looper, logs := s.logs) == s
  {
    if s.looper.active then Log(s, AlreadyPrepared)
    else Log(s.(looper := s.looper.(active := true)), LooperPrepared)
  }

  /**
   * `startLoop`: afterwards the looper loops exactly when it was prepared or
   * already looping; `active` and everything but the looper and the log stay.
   */
  function StartLoop(s: State): (r: State)
    ensures r.looper.active == s.looper.active && r.looper.threadName == s.looper.threadName
    ensures r.looper.isLooping == (s.looper.active || s.looper.isLooping)
    ensures r.logs == Record(s.logs,
      if !s.looper.active then NotPrepared
      else if s.looper.isLooping then AlreadyLooping
      else LoopStarted)
    ensures r.(looper := s.looper, logs := s.logs) == s
  {
    if !s.looper.active then Log(s, NotPrepared)
    else if s.looper.isLooping then Log(s, AlreadyLooping)
    else Log(s.(looper := s.looper.(isLooping := true)), LoopStarted)
  }

  /** `stopLoop`: unconditional; afterwards the looper does not loop and `active` is kept. */
  function StopLoop(s: State): (r: State)
    ensures !r.looper.isLooping
    ensures r.looper.active == s.looper.active && r.looper.threadName == s.looper.threadName
    ensures r.logs == Record(s.logs, LoopStopped)
    ensures r.(looper := s.looper, logs := s.logs) == s
  {
    Log(s.(looper := s.looper.(isLooping := false)), LoopStopped)
  }

  /**
   * The message a send creates: the next id from the counter, due `delay`
   * after `now`, and marked as reused exactly when the pool can supply it.
   */
  function NewMessage(s: State, now: int, delay: int, isObtain: bool, what: int): (m: Message)
    ensures m.id == s.nextId && m.what == what && m.when == now + delay
    ensures m.isRecycled <==> isObtain && s.poolSize > 0
  {
    Message(s.nextId, what, now + delay, "Handler", Pool.CanObtain(s.poolSize, isObtain))
  }

  /** The log entry the pool step of a send produces. */
  function AllocationEntry(poolSize: int, isObtain: bool): (e: LogEntry)
    ensures e == ObtainedFromPool <==> isObtain && poolSize > 0
    ensures e == PoolEmpty <==> isObtain && poolSize <= 0
    ensures e == FreshAllocation <==> !isObtain
  {
    if Pool.CanObtain(poolSize, isObtain) then ObtainedFromPool
    else if isObtain then PoolEmpty
    else FreshAllocation
  }

  /**
   * `sendMessage(delay, isObtain)` at time `now`, with payload tag `what`:
   * the queue grows by one message, the counter by one, the pool follows the
   * checkout rule and the last entry logged is the send itself.
   */
  function SendMessage(s: State, now: int, delay: int, isObtain: bool, what: int): (r: State)
    ensures |r.queue| == |s.queue| + 1
    ensures r.nextId == s.nextId + 1
    ensures r.poolSize == Pool.Checkout(s.poolSize, isObtain)
    ensures r.logs != [] && r.logs[0] == Sent(what, delay)
    ensures r.looper == s.looper && r.processing == s.processing && r.timers == s.timers
  {
    var warned := if s.looper.active then s else Log(s, SendingBlindly);
    var built := Log(warned, AllocationEntry(s.poolSize, isObtain));
    var m := NewMessage(s, now, delay, isObtain, what);
    Log(built.(poolSize := Pool.Checkout(s.poolSize, isObtain),
                   nextId := s.nextId + 1,
                   queue := SortByWhen(s.queue + [m])),
        Sent(what, delay))
  }

  /** Whether a tick at `now` dispatches: the interval runs and the head is due. */
  predicate Dispatches(s: State, now: int)
  {
    s.looper.isLooping && s.queue != [] && now >= s.queue[0].when
  }

  /**
   * One firing of the polling interval (it only exists while looping): it
   * changes nothing unless the head is due, and then moves the head from the
   * queue into the processing slot and schedules its completion.
   */
  function Tick(s: State, now: int, reuse: bool): (r: State)
    ensures !Dispatches(s, now) ==> r == s
    ensures Dispatches(s, now) ==>
      && r.queue == s.queue[1..]
      && r.processing == Some(s.queue[0])
      && r.timers == s.timers + [Timer(s.queue[0], reuse)]
      && r.poolSize == s.poolSize && r.looper == s.looper && r.nextId == s.nextId
  {
    if !Dispatches(s, now) then s
    else
      var head := s.queue[0];
      Log(s.(processing := Some(head),
             timers := s.timers + [Timer(head, reuse)],
             queue := s.queue[1..]),
          Dispatched(head.what))
  }

  /** A completed message goes back to the pool if it came from it, or under the "reuse" lesson. */
  predicate Recycles(t: Timer)
  {
    t.msg.isRecycled || t.reuse
  }

  /**
   * The oldest processing timeout fires: the slot is emptied, the timer
   * retired, and the pool takes the object back when the timer recycles.
   */
  function Complete(s: State): (r: State)
    requires s.timers != []
    ensures r.processing == None && r.timers == s.timers[1..]
    ensures r.poolSize == if Recycles(s.timers[0]) then Pool.Recycle(s.poolSize) else s.poolSize
    ensures r.queue == s.queue && r.looper == s.looper && r.nextId == s.nextId
  {
    var t := s.timers[0];
    var cleared := s.(processing := None, timers := s.timers[1..]);
    if Recycles(t) then Log(cleared.(poolSize := Pool.Recycle(s.poolSize)), Recycled(t.msg.what))
    else cleared
  }

  predicate TimerIdsBelow(ts: seq<Timer>, n: int)
  {
    forall i :: 0 <= i < |ts| ==> ts[i].msg.id < n
  }

  /** No message is both queued and being processed, and no two queued messages share an id. */
  predicate OwnedOnce(s: State)
  {
    && (forall i, j :: 0 <= i < j < |s.queue| ==> s.queue[i].id != s.queue[j].id)
    && (forall i, j :: 0 <= i < |s.timers| && 0 <= j < |s.queue| ==> s.timers[i].msg.id != s.queue[j].id)
  }

  /** The invariant every reachable state keeps. */
  predicate Valid(s: State)
  {
    && (s.looper.isLooping ==> s.looper.active)
    && Ordered(s.queue)
    && IdsBelow(s.queue, s.nextId)
    && TimerIdsBelow(s.timers, s.nextId)
    && OwnedOnce(s)
    && (s.processing.Some? ==> s.timers != [] && s.timers[|s.timers| - 1].msg == s.processing.value)
    && Pool.InBounds(s.poolSize)
    && |s.logs| <= MaxEntries
  }

  lemma InitialValid()
    ensures Valid(Initial)
  {
  }

  // ---------------------------------------------------------------------
  // The looper state machine

  /**
   * A second prepare changes no looper state and adds exactly one rejection
   * entry; a first one sets `active` and leaves `isLooping` alone.
   */
  lemma PrepareLooperCases(s: State)
    ensures s.looper.active ==> PrepareLooper(s) == s.(logs := Record(s.logs, AlreadyPrepared))
    ensures !s.looper.active ==>
      PrepareLooper(s) == s.(looper := s.looper.(active := true), logs := Record(s.logs, LooperPrepared))
  {
  }

  /** Preparing twice: the second call leaves the looper as the first left it and only logs a rejection. */
  lemma PrepareTwice(s: State)
    ensures var once := PrepareLooper(s);
      PrepareLooper(once) == once.(logs := Record(once.logs, AlreadyPrepared)) && once.looper.active
  {
  }

  /**
   * Starting changes the looper only when it is prepared and not yet
   * looping; otherwise it only logs why it refused.
   */
  lemma StartLoopCases(s: State)
    ensures !s.looper.active ==> StartLoop(s) == s.(logs := Record(s.logs, NotPrepared))
    ensures s.looper.active && s.looper.isLooping ==>
      StartLoop(s) == s.(logs := Record(s.logs, AlreadyLooping))
    ensures s.looper.active && !s.looper.isLooping ==>
      StartLoop(s) == s.(looper := s.looper.(isLooping := true), logs := Record(s.logs, LoopStarted))
    ensures StartLoop(s).looper.active == s.looper.active
  {
  }

  /** Stopping always ends looping, keeps `active`, and a second stop leaves the looper the same. */
  lemma StopLoopIdempotent(s: State)
    ensures !StopLoop(s).looper.isLooping && StopLoop(s).looper.active == s.looper.active
    ensures StopLoop(StopLoop(s)).looper == StopLoop(s).looper
  {
  }

  lemma PreparePreservesValid(s: State)
    requires Valid(s)
    ensures Valid(PrepareLooper(s))
  {
  }

  lemma StartPreservesValid(s: State)
    requires Valid(s)
    ensures Valid(StartLoop(s))
  {
  }

  lemma StopPreservesValid(s: State)
    requires Valid(s)
    ensures Valid(StopLoop(s))
  {
  }

  // ---------------------------------------------------------------------
  // Sending

  /**
   * A send inserts exactly one new message into the queue, after every
   * queued message due no later than it; the queue stays ordered by due time
   * with ties in submission order. The new message is due at `now + delay`
   * and has an id above every earlier one.
   */
  lemma {:induction false} SendMessageSpec(s: State, now: int, delay: int, isObtain: bool, what: int)
    requires Valid(s)
    ensures var r := SendMessage(s, now, delay, isObtain, what);
      var m := NewMessage(s, now, delay, isObtain, what);
      && r.queue == Enqueue(s.queue, m)
      && multiset(r.queue) == multiset(s.queue) + multiset{m}
      && Ordered(r.queue)
      && m.when == now + delay
      && IdsBelow(s.queue, m.id) && TimerIdsBelow(s.timers, m.id)
      && r.nextId == m.id + 1
  {
    var m := NewMessage(s, now, delay, isObtain, what);
    OrderedIsSorted(s.queue);
    SortAppendIsEnqueue(s.queue, m);
    EnqueuePermutes(s.queue, m);
    EnqueueKeepsOrder(s.queue, m);
  }

  /**
   * The pool gives up one object, and the new message is marked as reused,
   * exactly when an object is asked for and one is left. A send leaves the
   * looper, the processing slot and the pending completions alone.
   */
  lemma SendMessagePool(s: State, now: int, delay: int, isObtain: bool, what: int)
    ensures var r := SendMessage(s, now, delay, isObtain, what);
      var m := NewMessage(s, now, delay, isObtain, what);
      && (Pool.CanObtain(s.poolSize, isObtain) ==> r.poolSize == s.poolSize - 1 && m.isRecycled)
      && (!Pool.CanObtain(s.poolSize, isObtain) ==> r.poolSize == s.poolSize && !m.isRecycled)
      && r.looper == s.looper && r.processing == s.processing && r.timers == s.timers
  {
  }

  /** The log entries of a send, oldest first. */
  lemma SendMessageLog(s: State, now: int, delay: int, isObtain: bool, what: int)
    ensures var r := SendMessage(s, now, delay, isObtain, what);
      var entries := (if s.looper.active then [] else [SendingBlindly])
                     + [AllocationEntry(s.poolSize, isObtain), Sent(what, delay)];
      r.logs == RecordAll(s.logs, entries)
  {
    var a, b := AllocationEntry(s.poolSize, isObtain), Sent(what, delay);
    var l0 := if s.looper.active then s.logs else Record(s.logs, SendingBlindly);
    assert [a, b][1..] == [b] && [b][1..] == [];
    assert RecordAll(l0, [a, b]) == Record(Record(l0, a), b) by {
      assert RecordAll(l0, [a, b]) == RecordAll(Record(l0, a), [b]);
      assert RecordAll(Record(l0, a), [b]) == RecordAll(Record(Record(l0, a), b), []);
    }
    var entries := (if s.looper.active then [] else [SendingBlindly]) + [a, b];
    if s.looper.active {
      assert entries == [a, b];
    } else {
      assert entries == [SendingBlindly, a, b] && entries[1..] == [a, b];
      assert RecordAll(s.logs, entries) == RecordAll(l0, [a, b]);
    }
    assert SendMessage(s, now, delay, isObtain, what).logs == Record(Record(l0, a), b);
  }

  /** A send keeps every id below the counter and no id in two places. */
  lemma SendKeepsOwnership(s: State, m: Message, q: seq<Message>)
    requires Valid(s) && m.id == s.nextId && q == Enqueue(s.queue, m)
    ensures IdsBelow(q, s.nextId + 1)
    ensures forall i, j :: 0 <= i < j < |q| ==> q[i].id != q[j].id
    ensures forall i, j :: 0 <= i < |s.timers| && 0 <= j < |q| ==> s.timers[i].msg.id != q[j].id
  {
    forall i | 0 <= i < |q| ensures q[i].id < s.nextId + 1 {
      EnqueueAt(s.queue, m, i);
    }
    forall i, j | 0 <= i < j < |q| ensures q[i].id != q[j].id {
      EnqueueAt(s.queue, m, i);
      EnqueueAt(s.queue, m, j);
    }
    forall i, j | 0 <= i < |s.timers| && 0 <= j < |q| ensures s.timers[i].msg.id != q[j].id {
      EnqueueAt(s.queue, m, j);
    }
  }

  lemma SendPreservesValid(s: State, now: int, delay: int, isObtain: bool, what: int)
    requires Valid(s)
    ensures Valid(SendMessage(s, now, delay, isObtain, what))
  {
    var m := NewMessage(s, now, delay, isObtain, what);
    OrderedIsSorted(s.queue);
    SortAppendIsEnqueue(s.queue, m);
    EnqueueKeepsOrder(s.queue, m);
    SendKeepsOwnership(s, m, Enqueue(s.queue, m));
  }

  // ---------------------------------------------------------------------
  // Dispatching

  /**
   * A tick changes nothing unless the loop runs and the head is due. When it
   * dispatches, it removes exactly the head, which precedes every message
   * left behind; the head fills the processing slot and its completion is
   * scheduled after those already pending. The pool is untouched.
   */
  lemma TickSpec(s: State, now: int, reuse: bool)
    requires Valid(s)
    ensures !Dispatches(s, now) ==> Tick(s, now, reuse) == s
    ensures Dispatches(s, now) ==>
      var r := Tick(s, now, reuse);
      && r.queue == s.queue[1..]
      && (forall i :: 0 <= i < |r.queue| ==> Precedes(s.queue[0], r.queue[i]))
      && r.processing == Some(s.queue[0])
      && r.timers == s.timers + [Timer(s.queue[0], reuse)]
      && r.poolSize == s.poolSize && r.looper == s.looper && r.nextId == s.nextId
      && r.logs == Record(s.logs, Dispatched(s.queue[0].what))
  {
    if Dispatches(s, now) {
      HeadPrecedesRest(s.queue);
    }
  }

  lemma TickPreservesValid(s: State, now: int, reuse: bool)
    requires Valid(s)
    ensures Valid(Tick(s, now, reuse))
  {
    if Dispatches(s, now) {
      HeadPrecedesRest(s.queue);
    }
  }

  /**
   * The tick never looks at the processing slot: a message still being
   * processed does not hold back the next due one, which takes over the slot
   * while both completions stay pending.
   */
  lemma DispatchIgnoresProcessingSlot(s: State, now: int, reuse: bool)
    requires Valid(s) && s.processing.Some? && Dispatches(s, now)
    ensures var r := Tick(s, now, reuse);
      && |r.timers| >= 2
      && r.timers[|r.timers| - 2].msg == s.processing.value
      && r.processing == Some(s.queue[0])
      && s.processing.value != s.queue[0]
  {
    var r := Tick(s, now, reuse);
    assert r.timers[|r.timers| - 2] == s.timers[|s.timers| - 1];
    assert s.timers[|s.timers| - 1].msg.id != s.queue[0].id;
  }

  // ---------------------------------------------------------------------
  // Completing

  /**
   * A completion empties the processing slot and retires the oldest timer.
   * The pool gains one object, capped at the capacity, exactly when the
   * message came from the pool or the "reuse" lesson was active; otherwise it
   * is unchanged and nothing is logged.
   */
  lemma CompleteSpec(s: State)
    requires Valid(s) && s.timers != []
    ensures var r := Complete(s);
      && r.processing == None
      && r.timers == s.timers[1..]
      && r.queue == s.queue && r.looper == s.looper && r.nextId == s.nextId
      && (Recycles(s.timers[0]) ==>
            r.poolSize == Pool.Recycle(s.poolSize)
            && r.logs == Record(s.logs, Recycled(s.timers[0].msg.what)))
      && (!Recycles(s.timers[0]) ==> r.poolSize == s.poolSize && r.logs == s.logs)
  {
  }

  lemma CompletePreservesValid(s: State)
    requires Valid(s) && s.timers != []
    ensures Valid(Complete(s))
  {
  }

  /**
   * Stopping the loop while messages are being processed does not cancel
   * their completions: each still fires and still returns its object to the
   * pool as it would have.
   */
  lemma StopKeepsCompletions(s: State)
    requires s.timers != []
    ensures StopLoop(s).timers == s.timers
    ensures Complete(StopLoop(s)).poolSize == Complete(s).poolSize
    ensures Complete(StopLoop(s)).timers == Complete(s).timers
  {
  }

  // ---------------------------------------------------------------------
  // Any sequence of operations

  /** The operations a user and the two timers can perform. */
  datatype Op =
    | Prepare
    | Start
    | Stop
    | Send(now: int, delay: int, isObtain: bool, what: int)
    | TickAt(now: int, reuse: bool)
    | CompleteOldest

  /** One operation; a completion with no pending timer does not happen. */
  function Step(s: State, op: Op): State
  {
    match op
    case Prepare => PrepareLooper(s)
    case Start => StartLoop(s)
    case Stop => StopLoop(s)
    case Send(now, delay, isObtain, what) => SendMessage(s, now, delay, isObtain, what)
    case TickAt(now, reuse) => Tick(s, now, reuse)
    case CompleteOldest => if s.timers == [] then s else Complete(s)
  }

  function Run(s: State, ops: seq<Op>): State
    decreases |ops|
  {
    if ops == [] then s else Run(Step(s, ops[0]), ops[1..])
  }

  lemma StepPreservesValid(s: State, op: Op)
    requires Valid(s)
    ensures Valid(Step(s, op))
  {
    match op
    case Prepare => PreparePreservesValid(s);
    case Start => StartPreservesValid(s);
    case Stop => StopPreservesValid(s);
    case Send(now, delay, isObtain, what) => SendPreservesValid(s, now, delay, isObtain, what);
    case TickAt(now, reuse) => TickPreservesValid(s, now, reuse);
    case CompleteOldest => if s.timers != [] { CompletePreservesValid(s); }
  }

  lemma {:induction false} RunPreservesValid(s: State, ops: seq<Op>)
    requires Valid(s)
    ensures Valid(Run(s, ops))
    decreases |ops|
  {
    if ops != [] {
      StepPreservesValid(s, ops[0]);
      RunPreservesValid(Step(s, ops[0]), ops[1..]);
    }
  }

  /**
   * Whatever happens from the start, the pool count stays between 0 and 10,
   * the queue stays ordered by due time with ties in submission order, the
   * log keeps at most 50 entries, and the loop runs only once prepared.
   */
  lemma {:induction false} Reachable(ops: seq<Op>)
    ensures var r := Run(Initial, ops);
      && 0 <= r.poolSize <= Pool.Capacity
      && Ordered(r.queue)
      && |r.logs| <= MaxEntries
      && (r.looper.isLooping ==> r.looper.active)
  {
    InitialValid();
    RunPreservesValid(Initial, ops);
  }

  /** Without a prepare the looper is never activated and never loops. */
  lemma {:induction false} NoLoopWithoutPrepare(s: State, ops: seq<Op>)
    requires !s.looper.active && !s.looper.isLooping
    requires forall i :: 0 <= i < |ops| ==> ops[i] != Prepare
    ensures !Run(s, ops).looper.active && !Run(s, ops).looper.isLooping
    decreases |ops|
  {
    if ops != [] {
      var next := Step(s, ops[0]);
      assert !next.looper.active && !next.looper.isLooping;
      NoLoopWithoutPrepare(next, ops[1..]);
    }
  }
}
