# spawn_groups: a Dafny model of the sequential core

spawn_groups is a Rust library of structured-concurrency task groups. A group
(`SpawnGroup`, `ErrSpawnGroup` or `DiscardingSpawnGroup`) spawns child tasks with a
`Priority`. It can cancel them or wait for them, and it streams their results in
FIFO order. Every group runs on a `RuntimeEngine`.

This project models the bookkeeping and data-structure logic underneath:

- the engine's `(Priority, Task)` list, spawn counter and restart flag;
- three revisions of the result stream and the run queue built on one of them;
- the group handles and their `get_chunks` counting loop;
- the scoped entry points of `lib.rs` and their documented examples;
- the scheduling helpers: `Priority`, `TaskPriority` and `PrioritizedTask`;
- the heap-like `PriorityQueue`, the FIFO/LIFO `ThreadSafeQueue` and the round-robin `Indexer`;
- the `Yielder` future.

The model follows the code as written. Each locked section is one atomic step, and
each guarded field is a plain field. Types and methods that update state in place
are Dafny classes with `modifies` frames. The executor and the thread pool are
abstracted as follows:

- each spawned task is a `Handle`: the value its future produces and a state
  (`Running`, `Completed`, `Cancelled`);
- requests to the executor (`start`, `cancel`, `spawn`, `join`, `end`) go into a
  ghost event log;
- a closure given to `engine.execute` runs at once, in submission order;
- when a consumer's poll delivers nothing (`Pending`, or the `Ready(None)` of a
  cancelled stream that `get_chunks` ignores), the executor completes a running
  task as an explicit step.

Modules, one per source file (and `Common`, `RuntimeTasks`, `GroupChunks` for shared
types, the engine's list algebra and the `get_chunks` loop):

| module | file | source |
|---|---|---|
| `Common` | common.dfy | `Option`, `Poll`, `Ordering`, `usize` wrapping, `Waker` |
| `Priorities` | priority.dfy | src/shared/priority.rs |
| `TaskPriorities` | task_priority.dfy | src/threadpool_impl/task_priority.rs |
| `PrioritizedTasks` | priority_task.dfy | src/shared/priority_task.rs |
| `PriorityQueues` | priority_queue.dfy | src/threadpool_impl/queue.rs |
| `ThreadSafeQueues` | thread_safe_queue.dfy | src/threadpool/queue.rs |
| `Indexers` | indexer.dfy | src/threadpool_impl/index.rs |
| `Yielders` | yielder.dfy | src/yield_now/yielder.rs |
| `StreamInner` | stream_inner.dfy | src/async_stream/inner.rs |
| `TaskStream` | task_stream.dfy | src/async_stream/stream.rs |
| `WakerStream` | waker_stream.dfy | src/async_stream/mod.rs |
| `RuntimeStream` | runtime_stream.dfy | src/async_runtime/stream.rs |
| `TaskQueues` | task_queue.dfy | src/async_runtime/task_queue.rs |
| `RuntimeTasks` | runtime_tasks.dfy | the list, the stable sort and the drain of src/shared/runtime.rs |
| `Runtime` | runtime.dfy | src/shared/runtime.rs |
| `GroupChunks` | chunks.dfy | the counting loop of `get_chunks` |
| `SpawnGroups` | spawn_group.dfy | src/spawn_group.rs |
| `ErrSpawnGroups` | err_spawn_group.dfy | src/err_spawn_group.rs |
| `DiscardingSpawnGroups` | discarding_spawn_group.dfy | src/discarding_spawn_group.rs |
| `Scopes` | scopes.dfy | src/lib.rs |

Each group holds one `RuntimeEngine` from src/shared/runtime.rs. Its `stream` field
is the `AsyncStream` of src/async_stream/stream.rs, over the `Inner` of inner.rs.
The files come from different revisions, and the places where they do not fit
together are read as follows:

- spawn_group.rs calls `runtime.stream()`, but runtime.rs defines no such method,
  only the public field `stream`. The call is read as that field.
- The groups' `Drop` calls `wait_for_all_tasks_non_async`, which runtime.rs does not
  define. It is modelled as a blocking `wait_for_all_tasks`
  (`Runtime.RuntimeEngine.WaitForAllTasksNonAsync`).
- runtime.rs defines neither `RuntimeEngine::new(num_of_threads)` nor `end()`. The
  first is modelled as `init`, ignoring the thread count. The second is modelled as
  an `Ended` log event.
- lib.rs:294 calls `DiscardingSpawnGroup::new()` with no argument, but
  discarding_spawn_group.rs:41 takes a thread count. The call is modelled as `init`
  (which waits at drop), as the scope's documentation promises. The other two
  groups' `new` also calls `init`.

## Model

| member | source | states |
|---|---|---|
| Priorities.Discriminant | src/shared/priority.rs:6-13 | The discriminant BACKGROUND = 0, ..., USERINITIATED = 5. It is 0 exactly for BACKGROUND and 5 exactly for USERINITIATED. |
| Priorities.FromDiscriminant | src/shared/priority.rs:6-13 | The variant with a given discriminant: the inverse of `Discriminant`. |
| Priorities.Cmp | src/shared/priority.rs:5 | The derived `cmp` is `Equal` iff the variants are equal, and `Less` iff the left discriminant is smaller. |
| Priorities.Default | src/shared/priority.rs:10-11 | The default priority has discriminant 3 (MEDIUM). |
| Priorities.DeclarationOrder | src/shared/priority.rs:6-13 | BACKGROUND < LOW < UTILITY < MEDIUM < HIGH < USERINITIATED. |
| Priorities.DiscriminantsAreConsecutive | src/shared/priority.rs:7-13 | Discriminants are unique, and `FromDiscriminant` recovers each variant. |
| Priorities.LeIsDiscriminantOrder | src/shared/priority.rs:5 | `<=` and `<` are the discriminant order. |
| Priorities.TotalOrder | src/shared/priority.rs:5 | The derived order is reflexive, antisymmetric, transitive and total. `<` is `<=` without equality, and `cmp(b, a)` is the reverse of `cmp(a, b)`. |
| TaskPriorities.Rank | src/threadpool_impl/task_priority.rs:3-12 | The declaration index is at most 6, and it is 0 exactly for `Wait`. |
| TaskPriorities.Cmp | src/threadpool_impl/task_priority.rs:3 | The derived `cmp` is `Equal` iff equal, and `Less` iff the rank is smaller. |
| TaskPriorities.FromPriority | src/threadpool_impl/task_priority.rs:14-25 | `From<Priority>` never yields `Wait`, and maps each variant one rank above its discriminant. |
| TaskPriorities.FromPriorityMonotone | src/threadpool_impl/task_priority.rs:14-25 | The conversion preserves `cmp` exactly, so it is strictly monotone and injective. |
| TaskPriorities.WaitIsLeast | src/threadpool_impl/task_priority.rs:5 | `Wait` is below every other level. |
| TaskPriorities.DefaultIsMedium | src/threadpool_impl/task_priority.rs:20 | The default `Priority` converts to `TaskPriority::Medium`. |
| PrioritizedTasks.New | src/shared/priority_task.rs:25-30 | `new` builds a `Task` variant carrying the future and the priority. |
| PrioritizedTasks.NewWith | src/shared/priority_task.rs:32-37 | `new_with` builds a `Barrier` variant carrying the barrier and the priority. |
| PrioritizedTasks.Eq | src/shared/priority_task.rs:16-20 | Two tasks are equal iff their priorities are. |
| PrioritizedTasks.CmpTasks | src/shared/priority_task.rs:40-44 | `cmp` is `Less` iff the left task has the higher priority, and `Greater` iff it has the lower priority. |
| PrioritizedTasks.PartialCmp | src/shared/priority_task.rs:46-50 | `partial_cmp` always returns `Some`. |
| PrioritizedTasks.CmpIsReversed | src/shared/priority_task.rs:40-44 | `cmp` is the reverse of the priority order, and is `Equal` iff `eq` holds. |
| PrioritizedTasks.PartialCmpDisagreesWithCmp | src/shared/priority_task.rs:46-50 | `partial_cmp` is the forward priority order. It differs from `Some(cmp)` on every pair of unequal tasks. |
| PriorityQueues.Swap | src/threadpool_impl/queue.rs:50 | `swap` exchanges the two positions and keeps every other one. |
| PriorityQueues.SwapPermutes | src/threadpool_impl/queue.rs:50 | A swap keeps the multiset of elements. |
| PriorityQueues.SiftUp | src/threadpool_impl/queue.rs:41-53 | The `up_heap` loop keeps the length. |
| PriorityQueues.Largest | src/threadpool_impl/queue.rs:58-74 | The index `down_heap` picks is the current one or one of its children (2i or 2i + 1) within the storage. |
| PriorityQueues.SiftDown | src/threadpool_impl/queue.rs:55-83 | The `down_heap` loop keeps the length. |
| PriorityQueues.Pushed | src/threadpool_impl/queue.rs:24-27 | `push` grows the storage by one. |
| PriorityQueues.Popped | src/threadpool_impl/queue.rs:29-39 | `pop` on empty storage gives `None` and no change. Otherwise it gives the element at index 0 and one element fewer. |
| PriorityQueues.SiftUpPermutes | src/threadpool_impl/queue.rs:41-53 | `up_heap` only permutes the storage. |
| PriorityQueues.SiftDownPermutes | src/threadpool_impl/queue.rs:55-83 | `down_heap` only permutes the storage. |
| PriorityQueues.QueueKeepsElements | src/threadpool_impl/queue.rs:24-39 | The multiset after `push(val)` is the old one plus `val`. `pop` removes exactly the element it returns. |
| PriorityQueues.SiftUpStep | src/threadpool_impl/queue.rs:43-51 | Under a strict weak order, one swap of `up_heap` moves the single heap-order violation up to the parent. |
| PriorityQueues.SiftUpRestoresHeap | src/threadpool_impl/queue.rs:41-53 | `up_heap` from the only violating index leaves the storage heap-ordered (parent i / 2). |
| PriorityQueues.PushKeepsHeap | src/threadpool_impl/queue.rs:24-27 | With a strict weak order, such as the event loop's `priority >` (src/threadpool_impl/eventloop.rs:58-60), `push` keeps heap-ordered storage heap-ordered. |
| PriorityQueues.FrontIsMaximal | src/threadpool_impl/queue.rs:34 | In heap-ordered storage, no element compares above index 0, the element `pop` returns. |
| PriorityQueues.PushOneToSix | src/threadpool_impl/queue.rs:24-27 | Pushing 1 to 6 under `>` gives the heap-ordered storage [6, 5, 4, 2, 1, 3]. |
| PriorityQueues.PopLosesPriorityOrder | src/threadpool_impl/queue.rs:34-37 | `pop_front` shifts the indices, which breaks heap order. From [6, 5, 4, 2, 1, 3] the fourth pop returns 2 while 3 is still queued. |
| PriorityQueues.IntendedPopped | src/threadpool_impl/queue.rs:29-39 | The corrected `pop`: `None` on empty storage. Otherwise it returns index 0, leaving one element fewer, with the last element moved to the front before `down_heap(0)`. |
| PriorityQueues.LargestDominates | src/threadpool_impl/queue.rs:58-74 | Under a strict weak order, the index `down_heap` picks dominates both children, and it is above `idx` when it differs from it. |
| PriorityQueues.SiftDownStep | src/threadpool_impl/queue.rs:55-83 | One swap of `down_heap` moves the single heap-order gap down to the chosen child. |
| PriorityQueues.SiftDownRestoresHeap | src/threadpool_impl/queue.rs:55-83 | `down_heap` from the only gap leaves the storage heap-ordered. |
| PriorityQueues.IntendedPopKeepsHeap | src/threadpool_impl/queue.rs:29-39 | The corrected `pop` returns a maximal element and removes only it. What is left is still heap-ordered, so every later pop is maximal too. |
| PriorityQueues.PriorityQueue.constructor | src/threadpool_impl/queue.rs:9-14 | `new` is empty and keeps the comparison. |
| PriorityQueues.PriorityQueue.IsEmpty | src/threadpool_impl/queue.rs:16-18 | The result is true iff the storage is empty. |
| PriorityQueues.PriorityQueue.Clear | src/threadpool_impl/queue.rs:20-22 | `clear` empties the storage. |
| PriorityQueues.PriorityQueue.Push | src/threadpool_impl/queue.rs:24-27 | The new storage is `Pushed` of the old, so `QueueKeepsElements` and `PushKeepsHeap` apply to it. |
| PriorityQueues.PriorityQueue.Pop | src/threadpool_impl/queue.rs:29-39 | The result and the new storage are `Popped` of the old. |
| PriorityQueues.PriorityQueue.UpHeap | src/threadpool_impl/queue.rs:41-53 | The loop leaves `SiftUp` of the old storage. |
| PriorityQueues.PriorityQueue.DownHeap | src/threadpool_impl/queue.rs:55-83 | The loop leaves `SiftDown` of the old storage. |
| ThreadSafeQueues.Take | src/threadpool/queue.rs:40-48 | `dequeue` on an empty buffer is `None` and leaves it empty. `FirstOut` takes the front and `LastOut` takes the back; the rest is kept. |
| ThreadSafeQueues.DrainOrder | src/threadpool/queue.rs:40-48 | Dequeuing until empty gives the enqueue order for `FirstOut` and the reverse order for `LastOut`. |
| ThreadSafeQueues.ThreadSafeQueue.constructor | src/threadpool/queue.rs:31-36 | `new` has a fresh empty buffer and the given order, which is a constant. |
| ThreadSafeQueues.ThreadSafeQueue.Enqueue | src/threadpool/queue.rs:14-18 | `enqueue` appends at the back. |
| ThreadSafeQueues.ThreadSafeQueue.Dequeue | src/threadpool/queue.rs:40-48 | The result and the new buffer are `Take` of the old buffer in the queue's order. |
| ThreadSafeQueues.ThreadSafeQueue.Clone | src/threadpool/queue.rs:21-28 | A clone shares the buffer and the order. |
| ThreadSafeQueues.ThreadSafeQueue.Share | src/threadpool/queue.rs:21-28 | The clone's fields: the same buffer and order. |
| Indexers.Indexer.constructor | src/threadpool_impl/index.rs:9-14 | `new(count)` needs `count >= 1`. It sets `index = 0` and `last_index = count - 1`. |
| Indexers.Indexer.Next | src/threadpool_impl/index.rs:18-26 | `next` keeps `index <= last_index`. The value and the new index are `NextState` of the old index. |
| Indexers.NextState | src/threadpool_impl/index.rs:18-26 | At `last_index`, `next` returns 0 and resets to 0. Otherwise it returns `index` and increments it. Both values stay within `last_index`. |
| Indexers.IndexAfter | src/threadpool_impl/index.rs:19-25 | After any number of calls the counter stays within `last_index`. |
| Indexers.Returned | src/threadpool_impl/index.rs:19-25 | Every value `next` returns is below `count`, so `handles[next()]` is in bounds. |
| Indexers.IndexAfterIsModulo | src/threadpool_impl/index.rs:19-25 | After k calls the counter is k mod count. |
| Indexers.NextNeverReturnsLast | src/threadpool_impl/index.rs:19-25 | Call k returns k mod count, except 0 where that is `last_index`. For count >= 2, `last_index` is never returned; for count = 1 every call returns 0. |
| Indexers.TwoWorkersUseOnlyTheFirst | src/threadpool_impl/index.rs:19-25 | With two workers every call returns 0. |
| Indexers.IntendedNextState | src/threadpool_impl/index.rs:18-26 | The corrected `next` returns the current index and wraps after `last_index`. |
| Indexers.IntendedIndexAfter | src/threadpool_impl/index.rs:18-26 | The corrected counter stays within `last_index`. |
| Indexers.IntendedNextIsModulo | src/threadpool_impl/index.rs:18-26 | The corrected `next` returns k mod count on call k, so it reaches every worker. |
| Yielders.Yielder.constructor | src/yield_now/yielder.rs:7-11 | `Default` has `yield_now = false`. |
| Yielders.Yielder.Poll | src/yield_now/yielder.rs:15-23 | The first poll sets the flag, wakes the task exactly once and is `Pending`. Every later poll is `Ready(())` without a wake. The flag stays set. |
| Yielders.PollTimes | src/yield_now/yielder.rs:15-23 | n polls of a fresh yielder give exactly one `Pending`, first, and then only `Ready(())`. The task is woken exactly once (not at all when n = 0). |
| StreamInner.Inner.constructor | src/async_stream/inner.rs:10-17 | `new` has an empty buffer, `count = 0`, `task_count = 0` and `cancelled = false`. |
| StreamInner.Inner.TaskCount | src/async_stream/inner.rs:19-21 | `task_count` reads the field. |
| StreamInner.Inner.IncrementTaskCount | src/async_stream/inner.rs:23-25 | `task_count` goes up by exactly 1; nothing else changes. |
| StreamInner.Inner.DecrementTaskCount | src/async_stream/inner.rs:27-31 | `task_count` becomes `Decremented` of the old value; nothing else changes, and the `cancelled` flag is kept. |
| StreamInner.Inner.CancelTasks | src/async_stream/inner.rs:33-36 | `task_count = 0` and `cancelled` is set; the buffer and `count` are kept. No other method of `Inner` writes `cancelled`. |
| StreamInner.Decremented | src/async_stream/inner.rs:27-31 | A decrement is a no-op at 0 and lowers the count by one otherwise. |
| StreamInner.DecrementsSaturate | src/async_stream/inner.rs:27-31 | k decrements from n give n - k, or 0 once k >= n, never less. |
| TaskStream.PollNextStep | src/async_stream/stream.rs:99-115 | Results: - `Ready(None)`, unchanged, when the stream is cancelled and empty. - `Pending`, unchanged, iff the stream is not cancelled, the buffer is empty and `count != 0`. - An item iff one is buffered and `count != 0`: the front one, with `count` lowered by exactly 1. - `Ready(None)` whenever `count == 0`, even with items buffered. |
| TaskStream.DrainIsFifo | src/async_stream/stream.rs:99-115 | Repeated polls return items in insertion order, and exactly `count` of them. When `count >= len`, the whole buffer is returned, then `Ready(None)` if the stream is cancelled or `count == len`, and `Pending` otherwise. When `count < len`, the first `count` items are returned, then `Ready(None)`. |
| TaskStream.AsyncStream.constructor | src/async_stream/stream.rs:73-80 | `new` holds a fresh empty `Inner`, and `started` is false. |
| TaskStream.AsyncStream.Share | src/async_stream/stream.rs:64-71 | The clone's fields: the same `Inner` and `started`. |
| TaskStream.AsyncStream.Clone | src/async_stream/stream.rs:64-71 | Clones share one `Inner`. |
| TaskStream.AsyncStream.InsertItem | src/async_stream/stream.rs:19-24 | `insert_item` sets `started` and pushes the value at the back. The counts and the flag are kept. |
| TaskStream.AsyncStream.Increment | src/async_stream/stream.rs:26-34 | `count` and `task_count` each go up by exactly 1. |
| TaskStream.AsyncStream.First | src/async_stream/stream.rs:36-40 | `first` pops the front (None on empty) without touching `count`. |
| TaskStream.AsyncStream.BufferCount | src/async_stream/stream.rs:42-46 | The result is the buffer length. |
| TaskStream.AsyncStream.TaskCount | src/async_stream/stream.rs:48-51 | The result is `task_count`. |
| TaskStream.AsyncStream.DecrementTaskCount | src/async_stream/stream.rs:53-55 | The saturating decrement of `task_count`; nothing else changes. |
| TaskStream.AsyncStream.CancelTasks | src/async_stream/stream.rs:57-61 | `task_count = 0` and `cancelled` is set; the buffer and `count` are kept. |
| TaskStream.AsyncStream.PollNext | src/async_stream/stream.rs:99-115 | The result, buffer and count are `PollNextStep` of the old state. The waker is woken exactly once iff the result is `Pending`. |
| Common.WrappingAdd | src/async_stream/mod.rs:55 | `fetch_add` wraps past `usize::MAX`. |
| Common.WrappingSub | src/async_stream/mod.rs:67 | `fetch_sub` wraps below zero. |
| WakerStream.PollStep | src/async_stream/mod.rs:114-133 | `Empty` iff `item_count == 0` and the buffer is empty. `Wait` iff `item_count != 0` and the buffer is empty; both leave the state unchanged. `Ready` iff the buffer is non-empty, with the front item, the rest of the buffer and `item_count` lowered by one (wrapping). |
| WakerStream.ToPoll | src/async_stream/mod.rs:146-150 | `Wait` becomes `Pending`, `Empty` becomes `Ready(None)` and a value becomes `Ready(Some(v))`. |
| WakerStream.AnnouncedPollNeverWraps | src/async_stream/mod.rs:119-129 | If the buffer holds no more items than `item_count`, the decrement does not wrap and the balance is kept. |
| WakerStream.UnannouncedPollWraps | src/async_stream/mod.rs:128 | One item inserted without `increment` makes the decrement wrap to `usize::MAX`. |
| WakerStream.DrainIsFifo | src/async_stream/mod.rs:114-133 | With every item announced, polling returns the whole buffer in insertion order. It then ends (`Empty`) if nothing more is announced, and waits otherwise. |
| WakerStream.Inner.constructor | src/async_stream/mod.rs:24-31 | `new` has an empty buffer, no waker and `item_count = 0`. |
| WakerStream.AsyncStream.constructor | src/async_stream/mod.rs:86-92 | `new` holds a fresh empty `Inner`. |
| WakerStream.AsyncStream.Share | src/async_stream/mod.rs:78-84 | The clone's field: the same `Inner`. |
| WakerStream.AsyncStream.Clone | src/async_stream/mod.rs:78-84 | Clones share one `Inner`. |
| WakerStream.AsyncStream.InsertItem | src/async_stream/mod.rs:33-45 | `insert_item` pushes at the back, takes the stored waker out of the slot and wakes it exactly once; with no waker it only buffers. `item_count` is kept. |
| WakerStream.AsyncStream.BufferCount | src/async_stream/mod.rs:47-51 | The result is the buffer length. |
| WakerStream.AsyncStream.Increment | src/async_stream/mod.rs:53-57 | `item_count` becomes its wrapping successor; the buffer and the waker are kept. |
| WakerStream.AsyncStream.First | src/async_stream/mod.rs:59-70 | `first` is `None`, with no change, if the buffer is empty or `item_count == 0`. Otherwise it removes the front and lowers `item_count` by 1. |
| WakerStream.AsyncStream.ItemCount | src/async_stream/mod.rs:72-76 | The result is `item_count`. |
| WakerStream.AsyncStream.Poll | src/async_stream/mod.rs:114-133 | The stage and new state are `PollStep` of the old state. `Wait` stores the caller's waker, replacing any earlier one. The other stages leave the slot alone. |
| WakerStream.AsyncStream.PollNext | src/async_stream/mod.rs:135-152 | `poll_next` is `ToPoll` of the stage with `PollStep`'s new state. `Pending` leaves the caller's waker in the slot. |
| WakerStream.AsyncStream.SizeHint | src/async_stream/mod.rs:154-156 | `size_hint` is `(0, Some(item_count))`. |
| WakerStream.WakeOnInsert | src/async_stream/mod.rs:33-45 | A consumer polling an announced but empty stream gets `Pending`. After the next insertion it is woken exactly once and receives the item. |
| RuntimeStream.DecrementedCount | src/async_runtime/stream.rs:43-45 | `fetch_min(1)` gives `min(count, 1)`, not `count - 1`. |
| RuntimeStream.PollNextStep | src/async_runtime/stream.rs:64-78 | It is never `Pending`. An empty buffer gives `Ready(None)` with no change. Otherwise the result is the front item, with the counter set to `min(count, 1)`. |
| RuntimeStream.DrainIsFifo | src/async_runtime/stream.rs:64-78 | Polling until `Ready(None)` returns the whole buffer in insertion order. |
| RuntimeStream.AsyncStream.constructor | src/async_runtime/stream.rs:28-36 | `new` has a zero counter, an empty buffer and `started = false`, and keeps the invariant that a non-empty buffer has `count >= 1`. |
| RuntimeStream.AsyncStream.Share | src/async_runtime/stream.rs:12-17 | The derived clone's fields: the same counter, buffer and flag. |
| RuntimeStream.AsyncStream.Clone | src/async_runtime/stream.rs:12-17 | Clones share the counter and the buffer. |
| RuntimeStream.AsyncStream.InsertItem | src/async_runtime/stream.rs:19-26 | `insert_item` appends at the back and raises `count` by 1, keeping the invariant. |
| RuntimeStream.AsyncStream.Count | src/async_runtime/stream.rs:39-41 | The result is the counter. |
| RuntimeStream.AsyncStream.DecrementCount | src/async_runtime/stream.rs:43-45 | The counter becomes `min(count, 1)`, keeping the invariant. |
| RuntimeStream.AsyncStream.PollNext | src/async_runtime/stream.rs:64-78 | The result is `PollNextStep` of the old state: the front item iff the buffer is non-empty. The `Pending` and trailing `None` branches are unreachable under the invariant. |
| TaskQueues.TaskQueue.constructor | src/async_runtime/task_queue.rs:10-14 | `new` is an empty queue. |
| TaskQueues.TaskQueue.Push | src/async_runtime/task_queue.rs:16-18 | `push` appends the task at the back. |
| TaskQueues.TaskQueue.Pop | src/async_runtime/task_queue.rs:20-22 | `pop` returns and removes the oldest task, or returns `None` on an empty queue. It never suspends. |
| TaskQueues.PushPushPop | src/async_runtime/task_queue.rs:16-22 | Pushing a then b, three pops give a, b and `None`. |
| RuntimeTasks.Bucket | src/shared/runtime.rs:104 | One priority's entries of the list, in list order. |
| RuntimeTasks.SortFrom | src/shared/runtime.rs:104 | The buckets of discriminant d and above, each entry at least d. |
| RuntimeTasks.SortByPriorityIsStableSort | src/shared/runtime.rs:104 | `sort_by` on the priority gives ascending priority, a permutation of the list, and each priority's entries in insertion order. |
| RuntimeTasks.PopOrder | src/shared/runtime.rs:104-107 | Popping the sorted list from the back visits entries in descending priority, with ties in reverse insertion order. |
| RuntimeTasks.SortOfUniformPriority | src/shared/runtime.rs:104 | Tasks spawned with one priority keep their spawn order under the sort. |
| RuntimeTasks.SortKeepsIds | src/shared/runtime.rs:104 | The sort keeps the set of tasks the list names. |
| RuntimeTasks.DrainFromBack | src/shared/runtime.rs:107-115 | The drain keeps the number of handles, and names only existing tasks as run. |
| RuntimeTasks.DrainRunsPending | src/shared/runtime.rs:107-115 | The drain completes exactly the running tasks the list names, skips completed and cancelled ones, and keeps every output. It delivers each pending result exactly once. |
| RuntimeTasks.DrainRunsBackToFront | src/shared/runtime.rs:107-115 | A list of distinct running tasks runs all of them, from the back of the list to the front. |
| RuntimeTasks.CancelIn | src/shared/runtime.rs:49-53 | Every listed task that has not completed becomes cancelled; other handles and all outputs are kept. |
| RuntimeTasks.CancelStep | src/shared/runtime.rs:49-53 | One more popped entry cancels its task unless it has completed. |
| RuntimeTasks.SpawnKeepsListed | src/shared/runtime.rs:88-93 | Listing a new spawn keeps the list naming only spawned tasks and every running one. The new output is the last result to come. |
| RuntimeTasks.FinishOne | src/shared/runtime.rs:84-87 | Ending one running task takes exactly its output out of the results to come. |
| RuntimeTasks.RunningIffOutputs | src/shared/runtime.rs:84-87 | Results are still to come iff some task is running. |
| Runtime.RuntimeEngine.Init | src/shared/runtime.rs:21-37 | `init` has an empty list, no handles, `count = 0`, `wait_for = false`, an empty log and a fresh empty stream. |
| Runtime.RuntimeEngine.Load | src/shared/runtime.rs:62-64 | `load` reads `wait_for`. |
| Runtime.RuntimeEngine.Store | src/shared/runtime.rs:66-69 | `store` sets `wait_for`; nothing else changes. |
| Runtime.RuntimeEngine.Poll | src/shared/runtime.rs:122-124 | `poll` logs one `join` of the pool; nothing else changes. |
| Runtime.RuntimeEngine.WriteTask | src/shared/runtime.rs:73-95 | If `wait_for` was set, `write_task` first logs a restart and clears the flag. It then raises `count` by 1, calls `increment` once on a fresh stream clone (`count` and `task_count` each up by 1, buffer kept), spawns one running task and appends exactly one `(priority, id)` entry. The accounting invariant is kept. |
| Runtime.RuntimeEngine.RunTask | src/shared/runtime.rs:84-87 | A spawned body inserts its result at the back of the buffer, then lowers `task_count` by 1, and the task completes. Nothing else changes. |
| Runtime.RuntimeEngine.Cancel | src/shared/runtime.rs:41-58 | `cancel` sets `wait_for`, empties the list and cancels every listed task that has not completed, so none is left running. It calls `cancel_tasks` (`task_count = 0`, cancelled) and keeps the buffer and `count`. |
| Runtime.RuntimeEngine.PopAndCancel | src/shared/runtime.rs:49-53 | One turn of `cancel`'s loop pops the last entry and cancels its task unless it has completed. |
| Runtime.RuntimeEngine.WaitForAllTasks | src/shared/runtime.rs:99-118 | The list is sorted by priority and drained from the back; completed and cancelled tasks are skipped. The call ends with an empty list, `count = 0`, `wait_for` set and every formerly running task completed. The buffer gains exactly the running tasks' results, in drain order. |
| Runtime.RuntimeEngine.WaitForAllTasksNonAsync | src/shared/runtime.rs:99-118 | The blocking wait: the list is empty, `count = 0`, `wait_for` is set, every running task is completed, and the buffer gains exactly their results. |
| Runtime.RuntimeEngine.SortForDrain | src/shared/runtime.rs:100-106 | The pool is joined, the list becomes `SortByPriority` of itself with the same tasks, the executor is stopped and `wait_for` is set. |
| Runtime.RuntimeEngine.DrainList | src/shared/runtime.rs:107-115 | The `while let` loop empties the list. The handles and the tasks run are `DrainFromBack` of the list, and the buffer gains those tasks' outputs in that order. |
| Runtime.RuntimeEngine.PopAndRun | src/shared/runtime.rs:107-115 | One turn pops the last entry and runs its task iff it is still running. |
| Runtime.RuntimeEngine.End | src/discarding_spawn_group.rs:106 | `end` logs one `Ended`; nothing else changes. |
| Runtime.RuntimeEngine.Drop | src/shared/runtime.rs:127-131 | Dropping the engine joins the pool once. |
| Runtime.DrainEnds | src/shared/runtime.rs:107-115 | The drain of the sorted list leaves no running task: each one that was running is completed, the others are kept, and the tasks run deliver exactly the results that were to come. |
| GroupChunks.PollTurn | src/spawn_group.rs:166-171 | One poll of `stream.next()`, with one of four outcomes. A result is the front item, and only if one was buffered and expected. When the poll delivers nothing (`Pending`, or the `Ready(None)` of a cancelled empty stream), the executor completes one running task if there is one, and its result is appended. Otherwise no task is running, and the turn is `Closed` (the stream ended) or `Stuck` (a `Pending` nobody answers). |
| GroupChunks.CollectTurn | src/spawn_group.rs:166-171 | One turn keeps the account: the results so far plus the buffer are the old buffer plus the outputs of the tasks run, and exactly those tasks are completed. |
| GroupChunks.Collect | src/spawn_group.rs:164-172 | The counting loop returns exactly n results, in delivery order, and never panics. The only exceptions: it suspends for ever, or it spins on a stream that has ended with no task left running. With n results already buffered, it returns the front n and runs nothing. |
| SpawnGroups.SpawnGroup.Init | src/spawn_group.rs:184-193 | A fresh group is not cancelled, has `count = 0` and `wait_at_drop = true`, and holds a fresh engine from `init`. |
| SpawnGroups.SpawnGroup.DontWaitAtDrop | src/spawn_group.rs:48-50 | `dont_wait_at_drop` clears `wait_at_drop` only. |
| SpawnGroups.SpawnGroup.AddTask | src/spawn_group.rs:198-204 | `count` goes up by exactly 1, and exactly one running task and one list entry are handed to the engine. The stream expects one more result. |
| SpawnGroups.SpawnGroup.AddTaskUnlessCancelled | src/spawn_group.rs:212-219 | A cancelled group changes nothing: the group, the engine and the stream state are all unchanged. Otherwise the call is `add_task`. |
| SpawnGroups.SpawnGroup.CancelAllTasks | src/spawn_group.rs:206-210 | `is_cancelled` is set and `count = 0`. The list is empty and the stream is cancelled. The handles are `CancelIn` of the old ones: every listed task that had not completed is cancelled, and every other handle is kept. No task runs, and the buffer is kept. |
| SpawnGroups.SpawnGroup.Wait | src/spawn_group.rs:233-237 | `count = 0`. Every task that was running is completed, and every other handle is kept. The buffer gains exactly the running tasks' results, and the flags are kept. |
| SpawnGroups.SpawnGroup.IsEmpty | src/spawn_group.rs:123-128 | The result is true iff `count == 0` or `task_count == 0`, that is iff `count == 0` or no task is running. |
| SpawnGroups.SpawnGroup.First | src/spawn_group.rs:88-90 | `first` takes the oldest buffered result, or `None`. |
| SpawnGroups.SpawnGroup.PollNext | src/spawn_group.rs:225-229 | `poll_next` is the stream's `PollNextStep`. |
| SpawnGroups.SpawnGroup.GetChunks | src/spawn_group.rs:145-173 | `get_chunks(0)` is `[]`. It panics iff `of_count > count` and the buffer length is not `of_count`. A returned vector has exactly `of_count` items: the front of the buffer when that suffices, and otherwise the buffer followed by the results delivered next, in FIFO order. The results delivered come from distinct tasks that were running, and those tasks are exactly the ones now completed. A panic leaves the buffer alone. A loop that suspends or spins for ever holds fewer than `of_count` items, and does so only once no task is left running. |
| SpawnGroups.SpawnGroup.Drop | src/spawn_group.rs:176-182 | A group with `wait_at_drop` completes every running task before the engine is dropped. Without the flag, the tasks are left as they are. |
| ErrSpawnGroups.ErrSpawnGroup.Init | src/err_spawn_group.rs:172-182 | A fresh group has `count = 0`, is not cancelled, has `wait_at_drop = true` and `polled = false`, and holds a fresh engine. |
| ErrSpawnGroups.ErrSpawnGroup.DontWaitAtDrop | src/err_spawn_group.rs:45-47 | `dont_wait_at_drop` clears `wait_at_drop` only. |
| ErrSpawnGroups.ErrSpawnGroup.AddTask | src/err_spawn_group.rs:189-196 | `polled` is reset and `count` goes up by 1. Exactly one running task and one list entry are handed to the engine. |
| ErrSpawnGroups.ErrSpawnGroup.AddTaskUnlessCancelled | src/err_spawn_group.rs:204-211 | A cancelled group changes nothing: the group, the engine and the stream state are all unchanged, `polled` included. Otherwise the call is `add_task`. |
| ErrSpawnGroups.ErrSpawnGroup.CancelAllTasks | src/err_spawn_group.rs:198-202 | `is_cancelled` is set and `count = 0`. The list is empty and the stream is cancelled. The handles are `CancelIn` of the old ones: every listed task that had not completed is cancelled, and every other handle is kept. |
| ErrSpawnGroups.ErrSpawnGroup.Wait | src/err_spawn_group.rs:237-240 | `count = 0`. Every task that was running is completed, and every other handle is kept. The buffer gains exactly the running tasks' results. |
| ErrSpawnGroups.ErrSpawnGroup.IsEmpty | src/err_spawn_group.rs:111-116 | The result is true iff `count == 0` or `task_count == 0`, that is iff `count == 0` or no task is running. |
| ErrSpawnGroups.ErrSpawnGroup.First | src/err_spawn_group.rs:90-92 | `first` takes the oldest buffered result, or `None`. |
| ErrSpawnGroups.ErrSpawnGroup.PollNext | src/err_spawn_group.rs:223-230 | The engine is joined (`poll_all`) only on the first poll after a spawn; then `polled` is set, and the result is the stream's `PollNextStep`. |
| ErrSpawnGroups.ErrSpawnGroup.GetChunks | src/err_spawn_group.rs:133-161 | The same contract as the plain group's `get_chunks`: zero, panic, exact length and FIFO order. Each delivered result comes from a distinct task that was running and is now completed, and no other task changed. Polling for ever happens only once no task is left running. |
| ErrSpawnGroups.ErrSpawnGroup.Drop | src/err_spawn_group.rs:165-170 | A group with `wait_at_drop` completes every running task before the engine is dropped. Without the flag, the tasks are left as they are. |
| DiscardingSpawnGroups.DiscardingSpawnGroup.Init | src/discarding_spawn_group.rs:136-144 | `init` is not cancelled and has `wait_at_drop = true`. |
| DiscardingSpawnGroups.DiscardingSpawnGroup.New | src/discarding_spawn_group.rs:41-47 | `new(n)` is not cancelled and has `wait_at_drop = false`. |
| DiscardingSpawnGroups.DiscardingSpawnGroup.DontWaitAtDrop | src/discarding_spawn_group.rs:30-32 | `dont_wait_at_drop` clears `wait_at_drop` only. |
| DiscardingSpawnGroups.DiscardingSpawnGroup.AddTask | src/discarding_spawn_group.rs:114-119 | Exactly one running task and one list entry are handed to the engine. |
| DiscardingSpawnGroups.DiscardingSpawnGroup.AddTaskUnlessCancelled | src/discarding_spawn_group.rs:121-128 | A cancelled group changes nothing: the group, the engine and the stream state are all unchanged. Otherwise the call is `add_task`. |
| DiscardingSpawnGroups.DiscardingSpawnGroup.CancelAllTasks | src/discarding_spawn_group.rs:130-133 | `is_cancelled` is set for good, and the engine's list is empty. The handles are `CancelIn` of the old ones: every listed task that had not completed is cancelled, and every other handle is kept. |
| DiscardingSpawnGroups.DiscardingSpawnGroup.IsEmpty | src/discarding_spawn_group.rs:93-98 | The result is true iff `task_count == 0`, that is iff no task is running. |
| DiscardingSpawnGroups.DiscardingSpawnGroup.DropAsWritten | src/discarding_spawn_group.rs:101-109 | As written, the waiting branch drops an unpolled future, so no task is waited for. The other branch calls `end`. Then the engine is joined. |
| DiscardingSpawnGroups.DiscardingSpawnGroup.Drop | src/discarding_spawn_group.rs:101-109 | As intended, `wait_at_drop` completes every running task; otherwise the engine is ended and the tasks are left as they are. |
| Scopes.WithSpawnGroup | src/lib.rs:141-153 | The closure receives a fresh, empty, uncancelled group that waits at drop. |
| Scopes.WithErrSpawnGroup | src/lib.rs:242-256 | The closure receives a fresh, empty `ErrSpawnGroup` with `polled = false`. |
| Scopes.WithDiscardingSpawnGroup | src/lib.rs:289-296 | The closure receives a fresh discarding group that waits at drop. |
| Scopes.FoldTotal | src/lib.rs:138 | 0 + 1 + ... + 10 = 55. |
| Scopes.SpawnEach | src/lib.rs:126-131 | The `for` loop spawns one running task per value, in order, and the stream expects that many more results. |
| Scopes.FoldSum | src/lib.rs:133-135 | In whatever order the tasks complete, folding the group by addition totals every buffered and every running result and leaves nothing behind. |
| Scopes.FoldExample | src/lib.rs:125-138 | The first documented example yields 55. |
| Scopes.Classify | src/lib.rs:207-212 | The task body fails with THREE exactly on multiples of 3, and with FIVE on the other multiples of 5. Otherwise it succeeds with i. |
| Scopes.ErrTallies | src/lib.rs:237-239 | Over 1..=10, the Ok values sum to 22, with 3 THREE errors and 2 FIVE errors. |
| Scopes.SpawnEachErr | src/lib.rs:203-214 | The `for` loop spawns one running task per result, in order. |
| Scopes.DrainTallies | src/lib.rs:222-231 | With every expected result buffered, the `while let` loop never waits and tallies every buffered result. |
| Scopes.WaitThenTally | src/lib.rs:217-231 | `wait_for_all` then the loop tally the results of every task spawned. |
| Scopes.ErrExample | src/lib.rs:202-239 | The second documented example yields (22, 3, 2). |
| Scopes.SpawnEachDiscarding | src/lib.rs:279-284 | The `for` loop spawns n running tasks. |
| Scopes.DiscardingExample | src/lib.rs:278-286 | With the intended drop, the eleven tasks of the third example have all completed when the scope ends. |
| Scopes.DiscardingExampleAsWritten | src/lib.rs:278-286 | With the drop as written, the scope ends with all eleven tasks still running. |

## Left out

- Threads, atomics, memory orderings and mutex poisoning are not modelled. Every locked section is one atomic step, and an early return on a poisoned lock (src/threadpool/queue.rs:15,41) is not modelled.
- Lock contention in src/async_stream/mod.rs: `poll` returning `Pending` because `inner_lock.lock()` did not complete (mod.rs:131,140-145) is not modelled, since it depends on other threads. `poll` is modelled with the lock held.
- Futures, closures and tasks are represented by the value they produce (a `Handle` or a type parameter). The bodies of the callers' closures are not modelled, apart from the three documented examples.
- The thread pool, the executor and their `start`, `cancel`, `spawn`, `join` and `end` are reduced to log events and explicit completion steps. Real scheduling order, parallelism and the executor's own polling are out of scope.
- The `Shared` trait (src/shared/sharedfuncs.rs) is not a Dafny trait, because the model uses no traits. Each group class has the same three methods, `AddTask`, `AddTaskUnlessCancelled` and `CancelAllTasks`.
- The public wrappers `spawn_task`, `spawn_task_unlessed_cancelled`, `cancel_all` and `wait_for_all` only forward. They are covered by the methods they call. Likewise `increment_count`, `count` and `decrement_count_to_zero` of spawn_group.rs are field updates inside those methods, and `poll_all` is inlined into `ErrSpawnGroup.PollNext`.
- `Clone` of the groups and of `RuntimeEngine` (a new thread pool over shared state) is not modelled. `Clone` of the three `AsyncStream`s and of `ThreadSafeQueue` is modelled.
- The `started` flag of src/async_stream/stream.rs and src/async_runtime/stream.rs is set by `insert_item` and copied by `Clone`, but no modelled operation reads it.
- Counts (`count`, `task_count`, the group counters, the runtime stream's counter) are unbounded naturals. usize overflow after 2^64 spawns is not modelled. Only the `item_count` of src/async_stream/mod.rs wraps explicitly, because its `fetch_sub` can wrap in practice.
- Indexers.Indexer.constructor: it requires `count >= 1`. For `count == 0`, the source's `count - 1` panics in debug builds and wraps in release builds; that case is not modelled.
- Runtime.RuntimeEngine.WaitForAllTasksNonAsync: it is not defined in src/shared/runtime.rs. Its contract is the blocking `wait_for_all_tasks` restricted to what a dropped group observes (no list order, no sorted list).
- Runtime.RuntimeEngine.RunTask: it requires the accounting invariant, not the whole `Valid`. It records runs in a ghost sequence rather than as log events.
- GroupChunks.Collect: it is not a liveness result. The loop can keep polling a stream that has ended, with no task running. It can also wait on a `Pending` that no running task can answer. These cases are reported as `Spins` and `Suspended` instead of looping for ever.
- src/shared/runtime.rs `RuntimeEngine::new(num_of_threads)` and `end()` do not exist in that file. They are modelled as `init` (thread count ignored) and as an `Ended` log event.
- PriorityQueues.Popped: its result storage is not claimed heap-ordered, since `pop_front` breaks heap order (see Findings). The `PriorityQueue` class models `pop` as written, and `IntendedPopped` is the corrected version.

## Findings

| source | as written | input that shows it | evidently intended | confidence | as-written member | corrected member |
|---|---|---|---|---|---|---|
| src/threadpool_impl/index.rs:19-25 | `next` returns 0 and resets when `index == last_index`, so `last_index` itself is never returned | `Indexer::new(2)`: every call returns 0, so worker 1 never gets a task | a round robin over all `count` workers, call k returning k mod count | not executed; high (follows from the code) | Indexers.NextNeverReturnsLast, Indexers.TwoWorkersUseOnlyTheFirst | Indexers.IntendedNextIsModulo |
| src/discarding_spawn_group.rs:103-104 | `drop` calls the `async fn wait_for_all_tasks()` without `.await`, so the future is dropped unpolled and nothing is waited for | the third example of src/lib.rs:278-286: eleven tasks spawned, the group dropped, none of them waited for | drop blocks until every spawned task has finished, as the type's documentation (discarding_spawn_group.rs:9-12) says | not executed; high (an unawaited future never runs) | DiscardingSpawnGroups.DiscardingSpawnGroup.DropAsWritten, Scopes.DiscardingExampleAsWritten | DiscardingSpawnGroups.DiscardingSpawnGroup.Drop, Scopes.DiscardingExample |
| src/threadpool_impl/queue.rs:34-37 | `pop` removes index 0 with `pop_front`, which moves every other element one index down, and then runs `down_heap(0)`; the shifted storage is no longer a heap | push 1 to 6 with `lhs > rhs`: the storage is [6, 5, 4, 2, 1, 3], and the fourth pop returns 2 while 3 is still queued | the last element moves to index 0 before `down_heap(0)`, so every pop returns a maximal element | not executed; high (follows from the code) | PriorityQueues.PopLosesPriorityOrder | PriorityQueues.IntendedPopKeepsHeap |
