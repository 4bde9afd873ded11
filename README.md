# Priority scheduler core, modelled in Dafny

This project models the sequential heart of a simulated preemptive priority
scheduler (Kotlin, `core/src/main/kotlin/edu/shamalov/os`):

- **Priority**: a range-checked integer in `0..3` with subtraction as its comparison. It provides `min`, `max`, `default` and a decimal `toString`. Modelled as a `newtype` (`priority.dfy`).
- **State / Event**: the task lifecycle `Suspended → Ready → Running → Suspended`. An extended task can also go `Running → Waiting → Ready`. `succeededBy` is a pure total function into a `Result` (`state.dfy`).
- **Task**: a class with a 32-bit id from a global counter, a priority, a kind (basic or extended), a mutable `state`, the `needWaiting` flag and whether a job was ever launched (`task.dfy`). `OnEvent` is the imperative `onEvent`, including the recursive follow-up `Wait`/`Terminate` after a `Start`. The job body is abstracted away. Each job portion is reduced to one boolean: whether it called `needWaiting()`.
- **TasksQueue**: a class whose field is a map from priority to a FIFO list (`tasks_queue.dfy`). It is specified by pure functions over that map: `PopOrder` (the order in which successive pops return the tasks), `Enqueue`, `Dequeue` and `HotLevel`.
- **Scheduler**: the queue behind an admission bound (`scheduler.dfy`). The bounded channel of slots is a counter. A `send` that would suspend becomes the precondition `slots < capacity` on `Offer`, and a `receive` that would suspend becomes `slots > 0` on `Pop`.

Exceptions become `Err` values of `Outcomes.Error`. A failed `require` or `throw` in the source is the corresponding error case in the model.

Three facts about the Kotlin code shape the model:
- Task equality compares id, kind, priority and state, not the id alone.
- The queue itself does not require its tasks to be `Ready`. Only `Scheduler.pop` checks that, after it has already removed the task and released its slot.
- Ids wrap around at `Int.MAX_VALUE`, so "never reused" holds only within 2^32 allocations.

## Model

| member | source | states |
|---|---|---|
| Priorities.Of | core/src/main/kotlin/edu/shamalov/os/Priority.kt:3-14 | construction succeeds iff `MIN_PRIORITY <= v <= MAX_PRIORITY`, otherwise fails with OutOfRange; the built priority holds `v` |
| Priorities.OfValue | core/src/main/kotlin/edu/shamalov/os/Priority.kt:9-14 | every priority is rebuilt from its own value |
| Priorities.CompareTo | core/src/main/kotlin/edu/shamalov/os/Priority.kt:16-18 | the sign of `compareTo` agrees with the integer order (negative, zero, positive); the difference never leaves `-3..3`, so Int subtraction cannot overflow |
| Priorities.CompareToAntisymmetric | core/src/main/kotlin/edu/shamalov/os/Priority.kt:16-18 | `compareTo(a, b) == -compareTo(b, a)`, and one of the two is `<= 0` |
| Priorities.Min | core/src/main/kotlin/edu/shamalov/os/Priority.kt:24-25 | `min` compares `<= 0` against every priority |
| Priorities.Max | core/src/main/kotlin/edu/shamalov/os/Priority.kt:21-22 | `max` compares `>= 0` against every priority |
| Priorities.Default | core/src/main/kotlin/edu/shamalov/os/Priority.kt:27-28 | `default` is the midpoint of the range rounded down, and lies between `min` and `max` |
| Priorities.ToString | core/src/main/kotlin/edu/shamalov/os/Priority.kt:31 | `toString` is one decimal digit |
| Priorities.ToStringParses | core/src/main/kotlin/edu/shamalov/os/Priority.kt:31 | reading `toString`'s output as a decimal number gives back the priority's value |
| States.SucceededBy | core/src/main/kotlin/edu/shamalov/os/State.kt:8-63 | every failure is IllegalTransition; a successful transition keeps `isBasic`, reaches Waiting only from an extended task, and always changes the state |
| States.SucceededByFollowsTable | core/src/main/kotlin/edu/shamalov/os/State.kt:8-63 | `succeededBy(s, e) == t` iff (kind of s, e, kind of t) is one of the six table rows and `isBasic` is kept; it fails iff no row applies |
| States.SameStateIsEquality | core/src/main/kotlin/edu/shamalov/os/State.kt:16-49 | the overridden `equals` holds iff both states have the same kind and the same `isBasic`, i.e. iff they are the same value |
| States.RunKeepsKind | core/src/main/kotlin/edu/shamalov/os/State.kt:38-44 | along any sequence of legal events a state keeps its `isBasic`, so a basic task never reaches Waiting |
| Tasks.IncWraps | core/src/main/kotlin/edu/shamalov/os/Task.kt:86 | the counter's increment is addition modulo 2^32 in Int's range |
| Tasks.AdvanceWraps | core/src/main/kotlin/edu/shamalov/os/Task.kt:15 | after k allocations the counter has advanced by k modulo 2^32 |
| Tasks.IdsIncrease | core/src/main/kotlin/edu/shamalov/os/Task.kt:15 | ids strictly increase as long as the counter does not pass `Int.MAX_VALUE` |
| Tasks.IdsDistinct | core/src/main/kotlin/edu/shamalov/os/Task.kt:15 | no id is issued twice within 2^32 consecutive allocations |
| Tasks.IdsRepeatAfterFullCycle | core/src/main/kotlin/edu/shamalov/os/Task.kt:86 | after 2^32 allocations the counter is back at its start, so ids are reused from then on |
| Tasks.IdCounter.constructor | core/src/main/kotlin/edu/shamalov/os/Task.kt:86 | the id counter starts at 0 |
| Tasks.IdCounter.GetAndIncrement | core/src/main/kotlin/edu/shamalov/os/Task.kt:15 | returns the current id and moves the counter to its wrapping successor |
| Tasks.Task.constructor | core/src/main/kotlin/edu/shamalov/os/Task.kt:9-29 | a new task takes the next id and starts `Suspended(isBasic)` with `needWaiting` false and no job |
| Tasks.Task.RunPortion | core/src/main/kotlin/edu/shamalov/os/Task.kt:65-68 | a portion that calls `needWaiting()` sets the flag on an extended task and fails on a basic one; the job is launched either way |
| Tasks.Task.OnEvent | core/src/main/kotlin/edu/shamalov/os/Task.kt:33-63 | an illegal event fails and changes nothing. Activate, Terminate and Release only move the state. Preempt readies the task and fails if no job was ever launched. Wait parks an extended task and runs one more portion. Start ends in Waiting if the flag was set (before or by its portion) and otherwise in Suspended, clears the flag, and fails leaving a basic task Running if its portion asked to wait. The result is the new state, and the task's invariant is kept |
| Tasks.EqualsIsEquivalence | core/src/main/kotlin/edu/shamalov/os/Task.kt:72-81 | task equality is reflexive, symmetric and transitive, and equal tasks share id and state |
| Tasks.WaitReleaseCycle | core/src/main/kotlin/edu/shamalov/os/Task.kt:45-57 | an extended task whose first portion asks to wait goes Ready, Waiting, Ready, Suspended over Activate, Start, Release, Start |
| Tasks.BasicTaskCannotWait | core/src/main/kotlin/edu/shamalov/os/Task.kt:65-68 | a basic task whose portion asks to wait fails Start with InvalidOperation and stays Running |
| TasksQueues.HotFrom | core/src/main/kotlin/edu/shamalov/os/schedule/TasksQueue.kt:22-23 | finds the highest non-empty bucket at or below a bound: that bucket is non-empty, every bucket between it and the bound is empty, and None means all are empty |
| TasksQueues.HotLevel | core/src/main/kotlin/edu/shamalov/os/schedule/TasksQueue.kt:22-23 | `hotTasks` is the non-empty bucket above which every bucket is empty; there is none iff every bucket is empty |
| TasksQueues.Enqueue | core/src/main/kotlin/edu/shamalov/os/schedule/TasksQueue.kt:42-44 | offering keeps every level present and every task in its own priority's bucket |
| TasksQueues.Dequeue | core/src/main/kotlin/edu/shamalov/os/schedule/TasksQueue.kt:35-37 | popping keeps every level present and every task in its own priority's bucket |
| TasksQueues.EmptyBuckets | core/src/main/kotlin/edu/shamalov/os/schedule/TasksQueue.kt:11-17 | the queue built from an empty map has every level, all empty |
| TasksQueues.LevelsLength | core/src/main/kotlin/edu/shamalov/os/schedule/TasksQueue.kt:19-20 | the summed bucket lengths equal the number of tasks in pop order |
| TasksQueues.SizeIsPopOrderLength | core/src/main/kotlin/edu/shamalov/os/schedule/TasksQueue.kt:19-30 | `size` is the number of tasks pop can return; `isEmpty()` iff `size == 0` iff there is no hot bucket |
| TasksQueues.EnqueuePlacement | core/src/main/kotlin/edu/shamalov/os/schedule/TasksQueue.kt:42-44 | an offered task pops after every queued task of its own or higher priority and before every lower one |
| TasksQueues.EnqueueSize | core/src/main/kotlin/edu/shamalov/os/schedule/TasksQueue.kt:42-44 | offer increases `size` by one |
| TasksQueues.DequeueTakesHead | core/src/main/kotlin/edu/shamalov/os/schedule/TasksQueue.kt:22-37 | pop fails with Empty iff nothing is queued; otherwise it returns the first task in pop order, leaves the rest in order and decreases `size` by one |
| TasksQueues.LevelsSorted | core/src/main/kotlin/edu/shamalov/os/schedule/TasksQueue.kt:22-23 | in pop order priorities never rise, so a higher priority task always pops before a lower one |
| TasksQueues.MaxPriorityIsGreatest | core/src/main/kotlin/edu/shamalov/os/schedule/TasksQueue.kt:25-26 | `maxPriority` fails iff the queue is empty; otherwise it is the greatest queued priority and the priority of the task pop returns |
| TasksQueues.TwoOffers | core/src/test/kotlin/edu/shamalov/os/schedule/TasksQueueTest.kt:32-75 | two tasks offered to an empty queue pop higher priority first, and in offer order when their priorities are equal |
| TasksQueues.SingleOffer | core/src/test/kotlin/edu/shamalov/os/schedule/TasksQueueTest.kt:16-30 | a task offered to an empty queue is the only task pop can return |
| TasksQueues.TasksQueue.constructor | core/src/main/kotlin/edu/shamalov/os/schedule/TasksQueue.kt:8-17 | the init loop keeps the given buckets and adds an empty one for every priority that has none |
| TasksQueues.TasksQueue.Size | core/src/main/kotlin/edu/shamalov/os/schedule/TasksQueue.kt:19-20 | `size` is the number of tasks in pop order |
| TasksQueues.TasksQueue.IsEmptyQueue | core/src/main/kotlin/edu/shamalov/os/schedule/TasksQueue.kt:28-30 | `isEmpty()` holds iff pop order is empty |
| TasksQueues.TasksQueue.MaxPriority | core/src/main/kotlin/edu/shamalov/os/schedule/TasksQueue.kt:25-26 | fails with Empty iff nothing is queued; otherwise it is the priority of the next task popped, and in a consistent queue it is at least every queued priority |
| TasksQueues.TasksQueue.Offer | core/src/main/kotlin/edu/shamalov/os/schedule/TasksQueue.kt:42-44 | appends the task to its own priority's bucket, grows `size` by one, and keeps the buckets consistent |
| TasksQueues.TasksQueue.Pop | core/src/main/kotlin/edu/shamalov/os/schedule/TasksQueue.kt:35-37 | on an empty queue fails with Empty and changes nothing; otherwise returns the head of pop order, leaves the rest in order, and shrinks `size` by one |
| Schedule.Scheduler.constructor | core/src/main/kotlin/edu/shamalov/os/schedule/Scheduler.kt:22-32 | a new scheduler has its capacity, an empty queue and no slot taken |
| Schedule.Scheduler.IsFull | core/src/main/kotlin/edu/shamalov/os/schedule/Scheduler.kt:34-35 | `isFull` iff `size >= capacity`, which in a valid scheduler is exactly when every slot is taken |
| Schedule.Scheduler.HasHigherPriorityTask | core/src/main/kotlin/edu/shamalov/os/schedule/Scheduler.kt:37-39 | true iff some queued task has a priority strictly above `than` (so false on an empty queue) |
| Schedule.Scheduler.Offer | core/src/main/kotlin/edu/shamalov/os/schedule/Scheduler.kt:41-55 | rejects a task that is not Ready, Suspended or Waiting with InvalidState and changes nothing. Otherwise it takes one slot (it cannot proceed when all are taken), turns the task Ready via Activate or Release, and appends it to its bucket. The slot-count invariant is kept |
| Schedule.Scheduler.Pop | core/src/main/kotlin/edu/shamalov/os/schedule/Scheduler.kt:57-65 | cannot proceed with no slot taken; otherwise releases one slot and removes the head of pop order. It returns that task if it is Ready and Corrupted if not. The slot-count invariant is kept |
| Schedule.OfferThenPop | core/src/test/kotlin/edu/shamalov/os/schedule/SchedulerTest.kt:34-63 | one task offered to a fresh scheduler and popped comes back as the same task, Ready |
| Schedule.FillToCapacity | core/src/test/kotlin/edu/shamalov/os/schedule/SchedulerTest.kt:87-108 | with capacity 1 one offer makes the scheduler full, so a further offer cannot take a slot |

## Left out

- The dispatcher loop (`OperatingSystem.kt`) and the processor (`Processor.kt`): their behaviour is concurrent (coroutines, a busy-wait preemption watchdog, job cancellation, a thread pool), so they are not part of this model.
- Coroutine machinery in `Task.onEvent`: `async`, `withContext` and the concurrent cancellation of a running job by `Preempt`. A job portion is one atomic step that reports whether it called `needWaiting()`. `Preempt` only checks that a job exists. Races between cancellation and completion are not modelled.
- The scheduler's `Mutex` (`lock`, `unlock`, `withLock`), its single-thread dispatcher and the `Deferred` handle that `pop` returns. Operations run one at a time, so slots taken always equal the queue's size. In the source a sender can hold a slot before its task is queued.
- Schedule.Scheduler.constructor: only capacities 1 to `Int.MAX_VALUE - 1` are modelled. A channel of capacity 0 is a rendezvous channel, and `Int.MAX_VALUE` is the unlimited channel. Under `toInt()`, the capacities 2^31 to 2^32-3 become negative and `Channel` throws when it is built. 2^32-2 and 2^32-1 become the buffered and conflated modes, in which `isFull` is always true. None of these fits a slot counter.
- Schedule.Scheduler.Offer: the `!!` on the task's bucket in `TasksQueue.offer` cannot fail, because every priority has a bucket. `Valid()` records this.
- TasksQueues.TasksQueue.constructor: the source copies only the map (`toMutableMap()`), so its lists stay shared with the caller's map, and a later `offer` or `pop` also changes the caller's lists. The model copies the lists by value and does not capture this aliasing. The scheduler always builds its queue from an empty map.
- TasksQueues.TasksQueue.MaxPriority: the promise that it is at least every queued priority needs the buckets to be consistent (every task in its own priority's bucket). The internal constructor can be given an inconsistent map. The scheduler's queue always starts consistent, and every operation keeps it so.
- Default arguments of the Task constructor (priority `default`, basic) and the `BasicTask`/`ExtendedTask` subclasses: a task takes its kind as a boolean, and "is an ExtendedTask" is read as "is not basic".
- Logging, `hashCode`, `Task.toString`, build scripts, the `env` driver (random task generation, stdin commands, sleeps), and the legacy root-module and stale `BasicTask.kt`/`ExtendedTask.kt` files.
