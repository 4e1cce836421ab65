# Campfire looper engine

A Dafny model of the simulation engine inside the campfire view of an
educational app about Android's Handler / Looper / MessageQueue. The engine
is a single-threaded state machine with five pieces of state:

- the looper record, two booleans `active` and `isLooping` (plus a thread name
  that never changes);
- the message queue, kept in order of each message's due time `when`;
- the "processing" slot;
- the message object pool, a counter that starts at 5 and is capped at 10;
- the system log, newest entry first, at most 50 entries.

Its actions are `prepareLooper`, `startLoop`, `stopLoop` and
`sendMessage(delay, isObtain)`. Two timers drive dispatch. A 500 ms polling
interval runs while the looper loops and dispatches the queue head once it is
due. An 800 ms timeout per dispatched message clears the slot and may return
the object to the pool.

Files:

- `types.dfy` (module `Types`): the `AndroidMessage` and `AndroidLooper`
  records of `types.ts`.
- `trace.dfy` (module `Trace`): log entries as tokens, and `addLog` as `Record`.
- `pool.dfy` (module `Pool`): checkout and recycle on the pool counter.
- `message_queue.dfy` (module `MessageQueue`): the queue order. It holds
  append-then-sort as a stable insertion sort (`SortByWhen`) and the stable
  insertion `Enqueue`. It proves that on a sorted queue the two agree. It
  also proves that the sort is stable: ties keep submission order.
- `engine.dfy` (module `Engine`): every action and timer firing as a pure
  transition on a whole-state value. It defines the invariant `Valid` that all
  transitions keep, and the lemmas about single steps and about any sequence
  of operations (`Run`).
- `campfire_sim.dfy` (module `Campfire`): the class `CampfireSim`. Its fields
  are updated in place, statement by statement, as the view's handlers do.
  Each method is proved to perform the matching `Engine` transition and to
  keep `Valid`.

Time and chance are parameters. `Date.now()` becomes `now`, and
`Math.random()` for the payload tag becomes `what`. Whether the active lesson
is the "reuse" one becomes `reuse`. The two timers are explicit steps: `Tick`
is one firing of the interval and `Complete` one firing of the oldest pending
timeout. Every timeout has the same 800 ms delay, so timeouts fire in the
order they were scheduled. The model keeps them in a sequence, `timers`,
oldest first.

Where the code departs from Android's Handler/Looper design, the model
follows the code:

- The looper is two booleans, not an explicit state enumeration.
  `stopLoop` is unconditional: it also runs when the looper was never
  started.
- Sending a message does not need a prepared looper. It only logs a warning
  first.
- The tick never looks at the processing slot. A message can be dispatched
  while an earlier one is still being processed. The later message
  overwrites the slot, and both completions stay pending. The first completion
  then empties the slot while the second message is still in flight
  (`Engine.DispatchIgnoresProcessingSlot`). So, unlike Android's looper,
  which handles one message at a time, the code can have more than one
  message in flight.
- A completion that does not recycle writes no log entry; only a recycling
  completion is logged.
- The "reuse" flag a completion uses is the one seen by the interval that
  dispatched the message. The timeout callback is created inside that
  interval's closure, so the model records the flag with the timer at
  dispatch time.

`CampfireSim.SendMessage` also returns the message it created. The view's
`sendMessage` returns nothing. The out-parameter only makes the new message
visible to callers of the model.

## Model

| member | source | states |
|---|---|---|
| Trace.Record | components/CampfireSim.tsx:23-25 | the new entry is at index 0, the earlier entries follow in their order, and the length is min(old length + 1, 50) |
| Trace.RecordAllNewestFirst | components/CampfireSim.tsx:23-25 | after any run of log calls the log is the newest 50 of all entries ever recorded, newest first; the oldest are the ones dropped |
| Pool.Checkout | components/CampfireSim.tsx:62-63 | the pool loses exactly one object when one is asked for and the pool is not empty, otherwise it is unchanged; a count in 0..10 stays in 0..10 |
| Pool.Recycle | components/CampfireSim.tsx:114 | a return adds one object below capacity and is absorbed at capacity; the result never exceeds 10 and stays in bounds |
| Pool.CheckoutTimesDrains | components/CampfireSim.tsx:62-73 | n consecutive obtains from a pool of p leave p - n objects, or 0 once the pool ran dry; it never goes negative |
| MessageQueue.InsertionPoint | components/CampfireSim.tsx:86-89 | the insertion point follows every leading message due no later than the new one and stops before the first one due later |
| MessageQueue.Enqueue | components/CampfireSim.tsx:86-89 | the insertion adds one element and places the new message at the insertion point |
| MessageQueue.EnqueuePermutes | components/CampfireSim.tsx:87 | the queue after insertion holds the old messages plus exactly the new one (multiset equality) |
| MessageQueue.EnqueueRemove | components/CampfireSim.tsx:87 | taking the new message out again gives back the old queue in its old order |
| MessageQueue.EnqueueAt | components/CampfireSim.tsx:87 | each old message keeps its place before the insertion point and moves up by one after it |
| MessageQueue.EnqueueKeepsSorted | components/CampfireSim.tsx:87 | insertion keeps a queue sorted by due time |
| MessageQueue.EnqueueKeepsOrder | components/CampfireSim.tsx:87 | inserting a message whose id is above every queued id keeps the queue ordered by (due time, id) |
| MessageQueue.SortByWhen | components/CampfireSim.tsx:87 | the stable sort of the appended array returns a sequence of the same length as its input |
| MessageQueue.EnqueueDueAt | components/CampfireSim.tsx:87 | on a sorted queue, the messages due at any time w after insertion are those due at w before, followed by the new message when it is due at w |
| MessageQueue.SortKeepsTieOrder | components/CampfireSim.tsx:87 | the sort is stable for any input: for every due time, the messages due at that time come out in the order they went in |
| MessageQueue.SortByWhenPermutes | components/CampfireSim.tsx:87 | sorting by due time rearranges its input without adding or losing messages |
| MessageQueue.SortByWhenSorted | components/CampfireSim.tsx:87 | sorting by due time yields a sequence sorted non-decreasingly by due time |
| MessageQueue.SortIsStable | components/CampfireSim.tsx:87 | the sort is stable: input in submission order comes out ordered by due time with ties in submission order |
| MessageQueue.SortSortedIsIdentity | components/CampfireSim.tsx:87 | sorting a queue already sorted by due time leaves it unchanged |
| MessageQueue.SortAppendIsEnqueue | components/CampfireSim.tsx:87 | on a sorted queue, append-then-sort is the same as inserting after the last message due no later than the new one |
| MessageQueue.HeadPrecedesRest | components/CampfireSim.tsx:119 | removing the head keeps the queue ordered, and the head comes before every remaining message |
| Engine.InitialValid | components/CampfireSim.tsx:11-19 | the initial state (unprepared looper, empty queue, empty slot, pool 5, id counter 0) satisfies the invariant |
| Engine.PrepareLooper | components/CampfireSim.tsx:27-34 | afterwards the looper is active with isLooping and the thread name unchanged; one entry is logged, the rejection if it was already active and the success otherwise; nothing but the looper and the log changes |
| Engine.StartLoop | components/CampfireSim.tsx:36-47 | afterwards the looper loops exactly when it was prepared or already looping, with active unchanged; one entry is logged: not prepared, already looping, or started; nothing but the looper and the log changes |
| Engine.StopLoop | components/CampfireSim.tsx:49-52 | afterwards the looper does not loop and keeps active, one stop entry is logged, and nothing else changes |
| Engine.NewMessage | components/CampfireSim.tsx:65-82 | the created message takes the counter's value as id, is due at now + delay, carries the given tag and is marked reused exactly when asked for and the pool is not empty |
| Engine.AllocationEntry | components/CampfireSim.tsx:62-74 | the pool step logs the reuse entry exactly when an object is obtained, the pool-empty warning exactly when one is asked for and none is left, and the fresh allocation entry exactly when none is asked for |
| Engine.SendMessage | components/CampfireSim.tsx:55-91 | a send adds one message to the queue and one to the counter, applies the checkout rule to the pool, logs the send last, and leaves looper, slot and pending completions alone |
| Engine.Tick | components/CampfireSim.tsx:97-122 | a tick is a no-op unless the loop runs and the head is due; then the queue loses exactly its head, the head fills the slot and its completion is scheduled last, with pool, looper and counter unchanged |
| Engine.Complete | components/CampfireSim.tsx:110-117 | a completion empties the slot, retires the oldest timer, returns the object to the pool (capped) exactly when the timer recycles, and leaves queue, looper and counter alone |
| Engine.PrepareLooperCases | components/CampfireSim.tsx:27-34 | when already active, prepare only adds one rejection entry; otherwise it sets active, leaves isLooping and everything else alone and logs success |
| Engine.PrepareTwice | components/CampfireSim.tsx:27-34 | a second prepare leaves the looper as the first left it and adds exactly one rejection entry |
| Engine.StartLoopCases | components/CampfireSim.tsx:36-47 | start changes the looper only when active and not looping, and then sets isLooping; unprepared or already looping it only logs why; active never changes |
| Engine.StopLoopIdempotent | components/CampfireSim.tsx:49-52 | stop always ends looping with active unchanged, and a second stop leaves the looper as it was |
| Engine.PreparePreservesValid | components/CampfireSim.tsx:27-34 | prepare keeps the engine invariant |
| Engine.StartPreservesValid | components/CampfireSim.tsx:36-47 | start keeps the engine invariant, in particular looping only once prepared |
| Engine.StopPreservesValid | components/CampfireSim.tsx:49-52 | stop keeps the engine invariant |
| Engine.SendMessageSpec | components/CampfireSim.tsx:55-91 | a send inserts exactly one message, after the queued ones due no later; the queue stays ordered by (due time, id); the message is due at now + delay with an id above every earlier id |
| Engine.SendMessagePool | components/CampfireSim.tsx:62-83 | the pool drops by one and the message is marked recycled exactly when an object is asked for and the pool is not empty, otherwise the pool is unchanged and the message is fresh; looper, slot and pending completions are untouched |
| Engine.SendMessageLog | components/CampfireSim.tsx:56-90 | a send logs, in order, the blind-send warning when the looper is not prepared, then which allocation happened, then the send itself |
| Engine.SendKeepsOwnership | components/CampfireSim.tsx:65-89 | after a send every queued id is below the counter, queued ids are distinct, and no queued message is also awaiting completion |
| Engine.SendPreservesValid | components/CampfireSim.tsx:55-91 | a send keeps the engine invariant |
| Engine.TickSpec | components/CampfireSim.tsx:95-122 | a tick changes nothing unless the loop runs and the head is due; otherwise it removes exactly the head, which precedes every remaining message, puts it in the slot, schedules its completion after the pending ones and logs the dispatch; the pool is untouched |
| Engine.TickPreservesValid | components/CampfireSim.tsx:95-122 | a tick keeps the engine invariant |
| Engine.DispatchIgnoresProcessingSlot | components/CampfireSim.tsx:104-111 | with a message still processing, a due head is dispatched anyway; it takes over the slot while the earlier message remains pending |
| Engine.CompleteSpec | components/CampfireSim.tsx:110-117 | a completion empties the slot and retires the oldest timer; the pool becomes min(pool + 1, 10) with a log entry exactly when the message came from the pool or the reuse lesson was active, and is otherwise unchanged with no log entry |
| Engine.CompletePreservesValid | components/CampfireSim.tsx:110-117 | a completion keeps the engine invariant |
| Engine.StopKeepsCompletions | components/CampfireSim.tsx:110-117 | stopping the loop does not cancel pending completions: each still fires and returns its object to the pool as it would have |
| Engine.StepPreservesValid | components/CampfireSim.tsx:27-122 | every operation keeps the engine invariant |
| Engine.RunPreservesValid | components/CampfireSim.tsx:27-122 | any sequence of operations keeps the engine invariant |
| Engine.Reachable | components/CampfireSim.tsx:11-19 | from the initial state, after any sequence of operations, the pool is within 0..10, the queue is ordered by due time with ties in submission order, the log has at most 50 entries, and the loop runs only once prepared |
| Engine.NoLoopWithoutPrepare | components/CampfireSim.tsx:36-47 | without a prepare the looper is never activated and never loops, whatever else happens |
| Campfire.CampfireSim.constructor | components/CampfireSim.tsx:11-19 | the fields start as the initial engine state, which satisfies the invariant |
| Campfire.CampfireSim.AddLog | components/CampfireSim.tsx:23-25 | the log field becomes the old log with the entry recorded in front; no other field changes |
| Campfire.CampfireSim.PrepareLooper | components/CampfireSim.tsx:27-34 | the in-place update performs the prepare transition and keeps the invariant |
| Campfire.CampfireSim.StartLoop | components/CampfireSim.tsx:36-47 | the in-place update performs the start transition and keeps the invariant |
| Campfire.CampfireSim.StopLoop | components/CampfireSim.tsx:49-52 | the in-place update performs the stop transition and keeps the invariant |
| Campfire.CampfireSim.ObtainOrAllocate | components/CampfireSim.tsx:62-83 | the message comes from the pool exactly when asked and the pool is not empty; the pool count and log change accordingly and nothing else does |
| Campfire.CampfireSim.SendMessage | components/CampfireSim.tsx:55-91 | the in-place update performs the send transition, returns the created message and keeps the invariant |
| Campfire.CampfireSim.Tick | components/CampfireSim.tsx:97-122 | the in-place update performs one interval firing and keeps the invariant |
| Campfire.CampfireSim.Complete | components/CampfireSim.tsx:110-117 | the in-place update performs the oldest pending completion and keeps the invariant |

## Left out

- Rendering: all JSX, icons, styling and the "clock" badge on messages due more than a second ahead. These are presentation only.
- The log text: the `toLocaleTimeString` timestamp and the emoji-decorated messages are replaced by `Trace.LogEntry` tokens that carry the values the text shows. Only the order and the number of entries are modelled.
- Real timers: `setInterval`, `setTimeout`, `clearInterval` and the 500 ms and 800 ms delays. They become the explicit `Tick` and `Complete` steps, which a caller may interleave in any order. The model has no clock that ties a completion to 800 ms after its dispatch.
- React's update semantics: batched state updates, updater functions that may run twice, and closures that see stale values. Each action is one atomic step over the current state.
- `Date.now()` and `Math.random()`: they are the parameters `now` and `what`. The view draws `what` from 0 to 99. The model accepts any integer, because no part of the engine depends on the range.
- The default arguments of `sendMessage(delay = 0, isObtain = false)`: the model's `SendMessage` takes both as required parameters. Every call site in the view passes both.
- The optional `obj` payload of a message: the engine never sets it.
- The remote chat assistant, the sidebar, the concept card, the app shell and the lesson catalogue. These are UI and a network service. The lesson catalogue reaches the engine only through the `reuse` flag.
