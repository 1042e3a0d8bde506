# QuickLib verification

A Dafny model of the algorithmic core of QuickLib, a header-only C++ library of low-latency
data structures, with proofs of what its code does on every input, run and interleaving.
`dafny verify dfyconfig.toml` checks the whole project; no proof relies on Dafny's automatic induction,
so `--manual-lemma-induction` may be added.

| files | component | what is proved |
|---|---|---|
| `SpscMachine`, `SpscProofs`, `SpscTheorems`, `SpscSafety`, `SpscFailures`, `SpscCalls`, `SpscQueue` | lock-free single-producer, single-consumer ring | refinement of a bounded FIFO under every interleaving, stale loads and 64-bit wrap-around; exactly which failing calls are a FIFO's; slot ownership; destruction |
| `OrderbookModel`, `OrderbookProofs`, `OrderbookRuns`, `OrderbookPriority`, `Orderbook` | matching engine | refinement of price-time priority over whole runs; book order; conservation; splitting |
| `ThreadSafeQueue` | mutex and condition variable queue | no lost wake-up, FIFO delivery, no deadlock |
| `ThreadPool`, `ThreadPoolShutdown` | semaphore and mutex task pool | token accounting, bounded shutdown, exactly which tasks it drops |
| `SharedPtr`, `SharedPtrProofs`, `SharedPtrResults`, `SharedPtrObjects` | atomic reference counting | exact counts, one deletion, no use after free, no leak; what each operation leaves behind |
| `TomlText`, `TomlParser`, `TomlRoundTrip`, `TomlDocuments`, `TomlLines`, `TomlConfigs` | TOML line parser | what every line means; round trip, and exactly what survives it |
| `VectorModel`, `Vector` | growable array | refinement of a sequence, amortised cost, rollback, element lifetimes |
| `XorBitant` | xorshift generator | permutation, pure periodicity, output bijection |
| `Memory` | `Memmove` and `Memcpy` | meaning on every layout, exact agreement |
| `Words`, `Tally`, `Options` | 64-bit arithmetic, sums over threads, optional values | helpers |

## How the concurrent code is modelled

Each concurrent component is a state machine whose actions are the program's atomic steps, in the
order the source writes them. A run is any list of enabled actions, so a theorem about all runs is
a theorem about all interleavings. Beside what the program stores, the states keep logs and
unbounded counters that no branch reads.

- In the ring a load of the other thread's index returns any value that index has held since the
  last one that thread saw, the guarantee of [intro.races] and [atomics.order] in ISO/IEC 14882 for
  an atomic with a single writer. A relaxed load of the thread's own index is exact. Capacities are
  2^k with k at most 63, which is what a 64-bit template argument admits.
- In the thread pool a worker may read an old `m_stopping` until it has acquired a token after the
  destructor's first release; the parameter `upToDate` switches to reads that are always current.
- In the shared pointer one thread works on one handle at a time, and a handle is not changed while
  another operation copies or moves from it. Any number of handles below 2^64 is allowed.

Each object is also given as a class that updates its fields in place, and each of its methods is
proved to compute the specification function, or to follow the machine actions, that the theorems
are about. The ring's calls are cut at their loads and stores, so that the other thread may act in
between; the queue's and the pool's are given whole and statement by statement.

## Where the code and its comments differ

- `include/quick/structs/Orderbook.hh:89` calls the second id of a trade the aggressor's. Lines
  173-179 fill in the bid id and then the ask id; the model does the same.
- `insert_order` is public and skips matching; `InsertKeepsBookIff` says exactly when that is
  harmless. Statements about runs are about `AddOrder` and `CancelOrder`.
- `shrink_to_fit` on an empty vector leaves capacity 0. From there tripling gives 0 and a push has
  no storage to construct in, so `PushBack` demands a positive capacity.
- Tasks still queued when the pool's destructor starts may never run (`ShutdownCanDropTasks`);
  `DroppedExactly` says how many, and which.
- Under stale loads a failing `emplace` or `pop` may be spurious (`StaleLoadFailsSpuriously`). It
  is a FIFO's answer at the moment of its load exactly when that load is fresh (`Linearizable`),
  and at some moment of the call exactly when the load is no older than the call
  (`FailedEmplaceIff`, `FailedPopIff`).
- `size()` called from a third thread may return 2^64 - 1 (`ObserverSizeWraps`,
  `ObserverSizeIff`).
- The compile-time test of the ring's capacity also accepts 0 (`StaticAssertAccepts`); the model
  takes the capacities with storage, 2^k.
- The parser takes any line with a `[` in it for a section header, even inside a quoted value, and
  `get_string` strips quotes a second time (`KindOfLine`, `SectionName`, `GetStringIs`). The
  round-trip theorems state exactly what is lost.

## Model

| member | source | states |
|---|---|---|
| `SpscTheorems.FifoUnderStaleLoads` | include/quick/structs/SPSCQueue.hh:107-144 | Under every interleaving of producer and consumer steps, with loads of the other index as old as acquire ordering allows: values popped, then values still in the ring, are the values successfully pushed, in order; the ring never holds more than the capacity |
| `SpscCalls.FifoOfCalls` | include/quick/structs/SPSCQueue.hh:89-144 | The same told from the callers alone: the values that pops returned, then the values still in the ring, are the values whose emplace returned true, in call order |
| `SpscTheorems.Linearizable` | include/quick/structs/SPSCQueue.hh:107-144 | The log of call effects matches what the calls return; its successful calls always replay as a bounded FIFO of kCapacity that ends with the ring's contents; the whole log, failing calls included, does so if and only if every load that decides a failure is fresh |
| `SpscFailures.FailedEmplaceIff` | include/quick/structs/SPSCQueue.hh:110-116 | In any run, some moment between a failing emplace's call and its load of the tail found the FIFO full if and only if the load is no older than the tail was at the call, which holds if the producer had then seen that tail |
| `SpscFailures.FailedPopIff` | include/quick/structs/SPSCQueue.hh:130-135 | The same for a failing pop: the FIFO was empty at some moment between its call and its load exactly when the load is no older than the head was at the call |
| `SpscTheorems.RunReplaysIff` | include/quick/structs/SPSCQueue.hh:107-144 | From any state whose log replays: after any run it still does, and to the ring's contents, if and only if every failure decided on the way was decided by a fresh load; a broken replay stays broken |
| `SpscTheorems.StepAccepted` | include/quick/structs/SPSCQueue.hh:112-136 | A bounded FIFO may give the response a step logs, and then holds what the ring holds, if and only if the step's load is fresh; successful calls log theirs at their own store and need no load |
| `SpscTheorems.StepMatchesReturns` | include/quick/structs/SPSCQueue.hh:107-144 | Every step keeps each call's effect between its call and its return, and equal to what the call returns |
| `SpscQueue.StaleLoadFailsSpuriously` | include/quick/structs/SPSCQueue.hh:130-135 | Shows the condition is not idle: after a push has returned, a pop whose load is stale reports empty, which no FIFO would; Linearizable and FailedPopIff give the exact conditions |
| `SpscProofs.StepKeepsInv` | include/quick/structs/SPSCQueue.hh:107-144 | Each load, test, construction, move, destruction and store keeps the machine invariant: faithful indices, slot contents by counter, logs in order, no access to a slot in the wrong state |
| `SpscProofs.RunKeepsInv` | include/quick/structs/SPSCQueue.hh:107-144 | The invariant holds after every legal interleaving |
| `SpscSafety.EveryAccessIsSafe` | include/quick/structs/SPSCQueue.hh:118-142 | In every reachable state the producer constructs only into a dead slot whose reclamation its acquired index proves, the consumer moves from and destroys only the constructed slot of the oldest element, and the two slots differ |
| `SpscSafety.IndicesAreFaithful` | include/quick/structs/SPSCQueue.hh:56-59 | However far the indices have wrapped: head - tail modulo 2^64 is the number of queued elements, idx & kMask is the true counter modulo the capacity, and live counters have different slots |
| `SpscSafety.SizeNeverExceedsCapacity` | include/quick/structs/SPSCQueue.hh:162-167 | In every run, whatever size() answers an endpoint thread is at most the capacity, stale loads included; SizeIsExactIff says what it answers |
| `SpscCalls.SizeIsExactIff` | include/quick/structs/SPSCQueue.hh:162-167 | In any run, size() from an endpoint answers how many elements the ring holds exactly when its load of the other index is fresh; a stale load makes the producer see more and the consumer fewer, never more than the capacity |
| `SpscCalls.SizeAnswers` | include/quick/structs/SPSCQueue.hh:162-167 | The answer is the true distance between the caller's own counter and the one its load returned, however far both have wrapped |
| `SpscQueue.ObserverSizeIff` | include/quick/structs/SPSCQueue.hh:162-167 | size() from a third thread, loading head and later tail: within the capacity exactly when nothing pushed after the first load was popped before the second, for fewer than 2^64 - kCapacity such elements |
| `SpscQueue.ObserverSizeWraps` | include/quick/structs/SPSCQueue.hh:162-167 | One push and one pop between the two loads make a third thread read 2^64 - 1 |
| `SpscSafety.SeenRoomStays` | include/quick/structs/SPSCQueue.hh:155-160 | Once full() has returned false to the producer, its next emplace passes the capacity test whatever the consumer does and whichever value its load returns |
| `SpscSafety.SeenElementStays` | include/quick/structs/SPSCQueue.hh:146-153 | Once empty() has returned false to the consumer, its next pop passes the emptiness test whatever the producer does |
| `SpscSafety.DrainDestroysTheRest` | include/quick/structs/SPSCQueue.hh:66-80 | The destructor's loop over wrapping indices destroys exactly the elements not destroyed before, in order, and leaves every slot dead |
| `SpscSafety.EveryElementDestroyedOnce` | include/quick/structs/SPSCQueue.hh:66-80 | After any run that ends with both threads idle, the destructor has left every element ever constructed destroyed exactly once |
| `SpscQueue.EmplaceRun` | include/quick/structs/SPSCQueue.hh:107-124 | One emplace, wherever the consumer is in its own call, is a legal run of the machine; it succeeds exactly when the loaded tail shows room, and appends the value |
| `SpscQueue.PopRun` | include/quick/structs/SPSCQueue.hh:127-144 | One pop, wherever the producer is in its own call, is a legal run; it succeeds exactly when the loaded head is past the tail, and returns the oldest value |
| `SpscQueue.SPSCQueue.constructor` | include/quick/structs/SPSCQueue.hh:47-53 | A new queue mirrors the machine's initial state |
| `SpscQueue.SPSCQueue.Emplace` | include/quick/structs/SPSCQueue.hh:107-124 | In place, wherever the consumer is in its own call: the object ends in the machine's state after emplace; success exactly when the loaded tail leaves room; contents appended or unchanged |
| `SpscQueue.SPSCQueue.BeginEmplace` | include/quick/structs/SPSCQueue.hh:110-116 | In place: the loads and the test, after which the consumer may go on; room exactly when the loaded tail leaves some |
| `SpscQueue.SPSCQueue.Construct` | include/quick/structs/SPSCQueue.hh:118-119 | In place: the element is constructed in the slot of head, as in the machine's step |
| `SpscQueue.SPSCQueue.PublishHead` | include/quick/structs/SPSCQueue.hh:122 | In place: head is stored, wrapped, as in the machine's step |
| `SpscQueue.SPSCQueue.Pop` | include/quick/structs/SPSCQueue.hh:127-144 | In place, wherever the producer is in its own call: success exactly when an element is visible; the value returned is the oldest and the rest is kept |
| `SpscQueue.SPSCQueue.BeginPop` | include/quick/structs/SPSCQueue.hh:130-135 | In place: the loads and the test, after which the producer may go on; ready exactly when the loaded head is past the tail |
| `SpscQueue.SPSCQueue.MoveOut` | include/quick/structs/SPSCQueue.hh:137-138 | In place: the value leaves the slot of tail, as in the machine's step |
| `SpscQueue.SPSCQueue.DestroyFront` | include/quick/structs/SPSCQueue.hh:139 | In place: the moved-from element is destroyed, as in the machine's step |
| `SpscQueue.SPSCQueue.PublishTail` | include/quick/structs/SPSCQueue.hh:142 | In place: tail is stored, wrapped, as in the machine's step |
| `SpscQueue.SPSCQueue.Destroy` | include/quick/structs/SPSCQueue.hh:66-80 | The drain loop empties every slot and, with what pops destroyed, destroys each constructed element once |
| `Words.StaticAssertIsPowerOfTwo` | include/quick/structs/SPSCQueue.hh:43 | The compile-time test (c & (c - 1)) == 0 holds of a positive capacity exactly when it is a power of two |
| `Words.StaticAssertAccepts` | include/quick/structs/SPSCQueue.hh:43 | On any 64-bit value, c - 1 wrapping: the test accepts 0 and the powers of two, and nothing else |
| `Words.MaskIsMod` | include/quick/structs/SPSCQueue.hh:45-59 | Masking with 2^k - 1 is reduction modulo 2^k |
| `Words.SlotOfCounter` | include/quick/structs/SPSCQueue.hh:56-59 | The masked, wrapped index selects the residue of the unbounded counter modulo the capacity |
| `Words.WrappedDistance` | include/quick/structs/SPSCQueue.hh:115 | The wrapped difference of two wrapped counters less than 2^64 apart is their true difference |
| `OrderbookPriority.EngineRefinesPriceTime` | include/quick/structs/Orderbook.hh:142-214 | Over every run of AddOrder and CancelOrder from the empty book, trades (both ids, aggressor, side, price and size, field by field) and books are those of a reference that always trades with the best-priced, oldest crossing order of an unordered set, and the reference has no other run |
| `OrderbookPriority.MatchRefines` | include/quick/structs/Orderbook.hh:153-188 | The matching loop on a sorted vector is the reference matching on the set of resting orders with their arrival numbers |
| `OrderbookPriority.BackIsChosen` | include/quick/structs/Orderbook.hh:155-158 | When the back of the vector crosses, it is the crossing order with the best price and, at that price, the earliest arrival |
| `OrderbookPriority.BackTradeIsSpec` | include/quick/structs/Orderbook.hh:155-179 | The trade made with the back of the vector is the reference's: bid id, ask id, aggressor and its side, the seller's limit as the price, and the smaller quantity |
| `OrderbookPriority.InsertKeepsTime` | include/quick/structs/Orderbook.hh:124-139 | lower_bound insertion keeps equal prices newest first, so that the oldest is served first |
| `OrderbookPriority.SpecMatchDetermined` | include/quick/structs/Orderbook.hh:153-188 | Price-time priority leaves no choice: it determines trades, book and residual |
| `OrderbookPriority.AddRefines` | include/quick/structs/Orderbook.hh:142-197 | One AddOrder is one step of the reference, duplicates included |
| `OrderbookPriority.CancelRefines` | include/quick/structs/Orderbook.hh:199-214 | One CancelOrder removes exactly the order with that id from the reference book |
| `Orderbook.AddOrderTrades` | include/quick/structs/Orderbook.hh:151-195 | A new id with positive quantity trades exactly min(its quantity, the resting quantity that crosses), with distinct resting orders from the best down, every size positive, at the ask's limit and never above the bid's; the bid id is the buyer's, the ask id the seller's, and the incoming order is the aggressor |
| `OrderbookProofs.MatchTradesAll` | include/quick/structs/Orderbook.hh:151-188 | The matching loop trades min(quantity, crossing quantity) |
| `OrderbookProofs.MatchTradesInOrder` | include/quick/structs/Orderbook.hh:153-188 | Trade k is with the k-th best resting order, names buyer, seller, aggressor and price as the source does, and takes all of that order unless it is the last trade |
| `OrderbookProofs.CrossesIffWilling` | include/quick/structs/Orderbook.hh:112-157 | Two orders match exactly when the buyer's limit is at least the seller's, whichever of them is incoming |
| `OrderbookProofs.MatchShrinks` | include/quick/structs/Orderbook.hh:153-188 | Matching removes a suffix of the opposite side and shortens at most one order, which keeps its place; what remains unfilled does not cross the new best |
| `OrderbookProofs.MatchConserves` | include/quick/structs/Orderbook.hh:161-183 | Traded quantity is what the incoming order lost and what the opposite side lost |
| `OrderbookProofs.SplittingIsInvisible` | include/quick/structs/Orderbook.hh:142-197 | One order of a + b, or two fresh orders of a then b at the same side and level, leave the same opposite book and trade the same total |
| `OrderbookProofs.MatchSplits` | include/quick/structs/Orderbook.hh:153-188 | Matching a + b at once or a and then b leaves the same opposite side and the same unfilled quantity |
| `OrderbookProofs.AddThenCancelRestores` | include/quick/structs/Orderbook.hh:142-214 | Adding a fresh order that does not cross and then cancelling its id restores the book exactly |
| `OrderbookProofs.ResidualNeverDropped` | include/quick/structs/Orderbook.hh:190-195 | The duplicate test inside insert_order never discards a residual: it rests with its remaining quantity |
| `OrderbookProofs.AddKeepsBook` | include/quick/structs/Orderbook.hh:142-197 | AddOrder keeps bids ascending, asks descending, quantities positive, ids unique across both sides and the best bid below the best ask |
| `OrderbookProofs.CancelKeepsBook` | include/quick/structs/Orderbook.hh:199-214 | CancelOrder keeps the same |
| `OrderbookProofs.InsertKeepsBookIff` | include/quick/structs/Orderbook.hh:124-139 | insert_order of a new id, which skips matching, keeps the book in order exactly when the quantity is positive and nothing on the other side crosses |
| `OrderbookRuns.ReachableBookOk` | include/quick/structs/Orderbook.hh:142-214 | Every book reachable from the empty one by AddOrder and CancelOrder is in that order |
| `OrderbookRuns.QuantityIsConserved` | include/quick/structs/Orderbook.hh:142-214 | Over any run, per side: accepted quantity is traded plus resting plus cancelled quantity; duplicates and non-positive orders contribute nothing |
| `OrderbookRuns.AddConserves` | include/quick/structs/Orderbook.hh:151-195 | AddOrder moves quantity only by trading and resting |
| `OrderbookRuns.CancelConserves` | include/quick/structs/Orderbook.hh:199-214 | CancelOrder removes exactly the resting quantity of that id |
| `Orderbook.Orderbook.constructor` | include/quick/structs/Orderbook.hh:98-110 | A new book is empty on both sides |
| `Orderbook.Orderbook.IsDupe` | include/quick/structs/Orderbook.hh:117-122 | True exactly when some resting order on either side has the id |
| `Orderbook.Orderbook.LowerBound` | include/quick/structs/Orderbook.hh:133-137 | Binary search finds the number of leading orders strictly worse than the level |
| `Orderbook.Orderbook.InsertOrder` | include/quick/structs/Orderbook.hh:124-139 | The new book is that of the specification function, and both sides stay sorted |
| `Orderbook.Orderbook.AddOrder` | include/quick/structs/Orderbook.hh:142-197 | The in-place loop leaves the book and returns the trades of the specification function the lemmas above are about |
| `Orderbook.Orderbook.MatchIncoming` | include/quick/structs/Orderbook.hh:151-188 | The loop, in place, leaves the opposite side, the trades and the unfilled quantity of the recursive specification, and the incoming order's own side unchanged |
| `Orderbook.Orderbook.TradeWithBest` | include/quick/structs/Orderbook.hh:155-187 | One turn, in place: the trade with the back of the vector, field by field, and that order reduced or removed |
| `Orderbook.Orderbook.CancelOrder` | include/quick/structs/Orderbook.hh:199-214 | The in-place erase leaves the book of the specification function |
| `ThreadSafeQueue.NoLostWakeup` | include/quick/structs/ThreadSafeQueue.hh:24-45 | For any number of threads and spurious wake-ups: while a consumer sleeps, queued items are at most the notify_one calls still owed plus the woken consumers that have not finished; the items returned, then the one about to be, then those queued, are those the calls of push enqueued, in order; front() never meets an empty queue |
| `ThreadSafeQueue.RunPushes` | include/quick/structs/ThreadSafeQueue.hh:24-29 | What a run enqueues is, in the order in which the mutex was held, what each thread's own call of push brought |
| `ThreadSafeQueue.OwnRunsEnd` | include/quick/structs/ThreadSafeQueue.hh:24-45 | From any reachable state, without new calls and spurious wake-ups, a run takes at most 8 steps a thread |
| `ThreadSafeQueue.StuckIsQuiet` | include/quick/structs/ThreadSafeQueue.hh:24-45 | When no such step is left, every thread is at rest or asleep, the mutex is free, and no item is queued beside a sleeper |
| `ThreadSafeQueue.ProgressDescends` | include/quick/structs/ThreadSafeQueue.hh:24-45 | Every such step lowers the number of steps the threads have left |
| `ThreadSafeQueue.SleeperNeverStranded` | include/quick/structs/ThreadSafeQueue.hh:24-45 | While a consumer sleeps and an item is queued, some thread can take a step without a new call or a spurious wake-up |
| `ThreadSafeQueue.StepKeepsWake` | include/quick/structs/ThreadSafeQueue.hh:27-41 | Each lock, enqueue, unlock, notify_one, predicate test, atomic sleep and wake keeps the wake-up accounting |
| `ThreadSafeQueue.StepKeepsMutex` | include/quick/structs/ThreadSafeQueue.hh:27-44 | Each step keeps mutual exclusion, push order and a tested predicate true until the element is taken |
| `ThreadSafeQueue.StepKeepsDelivered` | include/quick/structs/ThreadSafeQueue.hh:42-44 | Each step keeps the elements taken equal, in order, to those returned followed by the one that the thread holding the mutex is about to return |
| `ThreadSafeQueue.RunKeepsInv` | include/quick/structs/ThreadSafeQueue.hh:24-45 | All of it holds after every interleaving |
| `ThreadSafeQueue.Monitor.Step` | include/quick/structs/ThreadSafeQueue.hh:24-45 | In place, one step of any thread, so that calls may interleave: the fields follow the machine and the run so far grows by that step |
| `ThreadSafeQueue.Monitor.Push` | include/quick/structs/ThreadSafeQueue.hh:24-31 | In place, uninterrupted: the value goes to the end of the queue, the mutex is free again and one sleeper, if any, is woken; the steps taken are a run of the machine |
| `ThreadSafeQueue.Monitor.WaitAndPop` | include/quick/structs/ThreadSafeQueue.hh:38-45 | In place, uninterrupted: the front element is removed and returned, or, on an empty queue, the thread sleeps with the mutex free |
| `ThreadSafeQueue.Monitor.Resume` | include/quick/structs/ThreadSafeQueue.hh:41-44 | In place: a woken consumer tests the predicate again, and returns the front element or sleeps again |
| `ThreadSafeQueue.Monitor.Retest` | include/quick/structs/ThreadSafeQueue.hh:40-41 | In place: with the mutex held the predicate decides between going on and sleeping with the mutex free |
| `ThreadSafeQueue.Monitor.TakeOut` | include/quick/structs/ThreadSafeQueue.hh:42-44 | In place: the front element is moved out and popped, and the mutex released |
| `ThreadPool.TokenAccounting` | include/quick/thread/ThreadPool.hpp:60-81 | The tasks that workers ran, then those queued, are those enqueued, in order, read off the run's actions; releases still owed are enqueues less releases, and tokens are releases by enqueue and destructor less acquires. Until shutdown starts, queue length = semaphore tokens + workers past acquire that have not popped + enqueuers that pushed and have not released, and the empty-queue branch is unreachable |
| `ThreadPool.RunOrders` | include/quick/thread/ThreadPool.hpp:60-111 | From any state: tasks run, then tasks queued, are the tasks queued before and then those enqueued |
| `ThreadPool.NoTaskStranded` | include/quick/thread/ThreadPool.hpp:60-114 | Before shutdown, while a task is queued some worker or some enqueuer can take a step |
| `ThreadPool.NoWorkerLeftWaiting` | include/quick/thread/ThreadPool.hpp:60-123 | From the moment m_stopping is set, tokens plus the destructor's remaining releases cover the workers waiting at acquire, even with stale reads of the flag; after the destructor's loop every worker that has not exited can step |
| `ThreadPool.AtMostOneFurtherTask` | include/quick/thread/ThreadPool.hpp:60-81 | Each worker is handed at most one task after m_stopping is set when reads are up to date, and in any case after the first acquire that follows a destructor release |
| `ThreadPool.AtMostOneMoreRun` | include/quick/thread/ThreadPool.hpp:60-81 | However a run goes on, a worker that can no longer read m_stopping as false starts at most one more task; with current reads that is every worker once m_stopping is set |
| `ThreadPool.StepDescends` | include/quick/thread/ThreadPool.hpp:60-81 | Once shutdown is visible every worker step lowers a rank summed over the workers, and no other step raises it |
| `ThreadPool.ShutdownIsBounded` | include/quick/thread/ThreadPool.hpp:60-123 | However a run goes on from there, the workers take at most 6 further steps each (11 with stale reads) |
| `ThreadPool.ShutdownCanDropTasks` | include/quick/thread/ThreadPool.hpp:60-123 | A run in which the destructor finishes and the only worker exits with a task still queued; DroppedExactly says exactly when that happens |
| `ThreadPoolShutdown.DroppedExactly` | include/quick/thread/ThreadPool.hpp:60-123 | From any reachable state, once nothing more is enqueued and every worker has exited: the tasks left are the last of the queue, as many as exceed the workers then past the flag tests plus the later reads of m_stopping that return false; with current reads after m_stopping is set there are no such reads, so every queued task runs if and only if the tasks are no more than those workers |
| `ThreadPoolShutdown.RunKeepsExcess` | include/quick/thread/ThreadPool.hpp:60-123 | Over any run without an enqueue, the tasks in excess of the workers that can still take one never change, stale reads counted |
| `ThreadPool.StepKeepsInv` | include/quick/thread/ThreadPool.hpp:59-123 | Every step of workers, enqueuers and destructor keeps order, token accounting, worker positions and shutdown credit |
| `ThreadPool.RunKeepsInv` | include/quick/thread/ThreadPool.hpp:59-123 | The invariant holds after every interleaving |
| `ThreadPool.Pool.Push` | include/quick/thread/ThreadPool.hpp:108-111 | In place: the task goes to the end of the queue, one more release is owed, and nothing else changes |
| `ThreadPool.Pool.Release` | include/quick/thread/ThreadPool.hpp:112 | In place: one token more, one release fewer owed, and nothing else changes |
| `ThreadPool.Pool.WorkerStatement` | include/quick/thread/ThreadPool.hpp:60-81 | In place, one statement of any worker, so that workers may interleave: the fields follow the machine |
| `ThreadPool.Pool.WorkerTurn` | include/quick/thread/ThreadPool.hpp:60-76 | In place, one turn of the loop: exits, finds the queue empty, or takes the front task, with one token spent on the way; before shutdown it always finds a task |
| `ThreadPool.Pool.TestFlags` | include/quick/thread/ThreadPool.hpp:60 | In place: the loop condition lets the worker on exactly when neither read returns true |
| `ThreadPool.Pool.Acquire` | include/quick/thread/ThreadPool.hpp:63-68 | In place: one token less, and out exactly when the stop flag is seen and the queue is empty |
| `ThreadPool.Pool.Dequeue` | include/quick/thread/ThreadPool.hpp:71-77 | In place: the front task is dispatched, or the worker goes round when there is none |
| `ThreadPool.Pool.StopWorker` | include/quick/thread/ThreadPool.hpp:119-122 | In place: one release and one stop request for worker k, nothing else |
| `ThreadPool.Pool.Shutdown` | include/quick/thread/ThreadPool.hpp:116-123 | In place: the destructor's body sets the flag, adds one token per worker and requests every worker to stop, keeping the invariant |
| `SharedPtrProofs.CountsAreExact` | include/quick/handle/SharedPtr.hh:52-190 | Under every interleaving of copies, moves, assignments, resets and destructions: the stored count is the number of handles holding a reference, one inside its release included; a block is freed exactly when nobody owns or finishes it; the deleter has run once if freed and never while owned; no step touches a freed block; no object is managed by two blocks |
| `SharedPtrResults.OperationResult` | include/quick/handle/SharedPtr.hh:89-190 | From any reachable state and with any steps of other handles in between, when an operation is over its handle holds what the operation says: the source's object and block after a copy or move, nothing after a reset, a block of its own after adopting a pointer; a source left alone is unchanged by a copy and empty after a move; self-assignment changes nothing |
| `SharedPtrResults.OperationProceeds` | include/quick/handle/SharedPtr.hh:57-190 | No operation waits for another: its next step is always possible, and at most five remain after its first |
| `SharedPtrProofs.DereferenceIsSafe` | include/quick/handle/SharedPtr.hh:192-208 | A handle at rest that is not null points at an object whose deleter has not run, in a block that is not freed |
| `SharedPtrProofs.NothingLeaks` | include/quick/handle/SharedPtr.hh:57-70 | When every handle is gone every block is freed and every non-null object deleted exactly once |
| `SharedPtrProofs.OnlyTheLastOwnerDeletes` | include/quick/handle/SharedPtr.hh:59 | A handle comes to run the deleter only by its own fetch_sub that returned 1 |
| `SharedPtrProofs.DeleterRunsAfterFetchSub` | include/quick/handle/SharedPtr.hh:57-70 | Only a handle in that position, on that very block, ever makes a deleter run |
| `SharedPtrProofs.StepKeepsPointers` | include/quick/handle/SharedPtr.hh:89-190 | Every statement keeps handle fields consistent, sources at rest while they are read, and each object adopted once |
| `SharedPtrProofs.StepKeepsBlocks` | include/quick/handle/SharedPtr.hh:52-70 | Every statement keeps each block's count, deleter runs and freed flag exact, and faults nowhere |
| `SharedPtrProofs.RunKeepsInv` | include/quick/handle/SharedPtr.hh:52-190 | The invariant holds after every interleaving |
| `SharedPtrObjects.ControlBlock.AddRef` | include/quick/handle/SharedPtr.hh:52-55 | The count goes up by one |
| `SharedPtrObjects.ControlBlock.Release` | include/quick/handle/SharedPtr.hh:57-70 | The count goes down by one; exactly the release that finds 1 deletes a non-null object once and frees the block |
| `SharedPtrObjects.SharedHandle.FromPointer` | include/quick/handle/SharedPtr.hh:95-107 | A new handle owns one reference in a new block, null pointer included |
| `SharedPtrObjects.SharedHandle.Copy` | include/quick/handle/SharedPtr.hh:109-115 | Both handles share the block, whose count is one more |
| `SharedPtrObjects.SharedHandle.Move` | include/quick/handle/SharedPtr.hh:135-139 | The new handle takes the fields, the source is left empty, the count is unchanged |
| `SharedPtrObjects.SharedHandle.Reset` | include/quick/handle/SharedPtr.hh:158-171 | The handle gives up its reference and is empty; the block is freed exactly when it was the last |
| `SharedPtrObjects.SharedHandle.ResetPtr` | include/quick/handle/SharedPtr.hh:173-190 | The old reference is given up; a non-null pointer gets a fresh block with count 1, a null one gets none |
| `SharedPtrObjects.SharedHandle.CopyAssign` | include/quick/handle/SharedPtr.hh:117-133 | Self-assignment changes nothing; sharing handles keep the count; otherwise one count falls and the other rises by one |
| `SharedPtrObjects.SharedHandle.MoveAssign` | include/quick/handle/SharedPtr.hh:141-156 | Self-assignment changes nothing; otherwise the source is left empty and only the old block's count falls |
| `SharedPtrObjects.SharedHandle.UseCount` | include/quick/handle/SharedPtr.hh:192-195 | The block's count, and 0 exactly for a handle without a block |
| `TomlConfigs.RoundTripIff` | include/quick/utils/TomlParser.hh:102-214 | Writing a section/key/value map as [section] and key = "value" lines, in any order of sections and keys, and parsing the text gives every entry back and no other, exactly for the maps whose section names are non-empty, trimmed and free of ']', whose keys are trimmed, free of '=' and '[' and not led by '#', and whose values are free of '[' and '#', all on one line |
| `TomlConfigs.WrittenThenRead` | include/quick/utils/TomlParser.hh:102-214 | For those maps, in whatever order they are written, parsing succeeds and every lookup is answered as written |
| `TomlConfigs.SomeOrder` | include/quick/utils/TomlParser.hh:102-214 | Every map can be written in some such order |
| `TomlConfigs.ReparseIsStable` | include/quick/utils/TomlParser.hh:146-214 | Parsing any text whatever, writing the tables out in any order and parsing again changes no entry |
| `TomlConfigs.ReadKeepsStorable` | include/quick/utils/TomlParser.hh:146-214 | Whatever lines are read, even up to a refused one, only such entries are ever stored |
| `TomlConfigs.LoadWritten` | include/quick/utils/TomlParser.hh:93-214 | The same round trip on a parser object |
| `TomlConfigs.GetStringIff` | include/quick/utils/TomlParser.hh:221-245 | get_string returns the stored value exactly when that value is not itself in quotes, which it would strip a second time |
| `TomlLines.GetStringIs` | include/quick/utils/TomlParser.hh:221-245 | get_string answers an empty string when the section or key is missing, else the stored value without one more pair of equal quote marks |
| `TomlConfigs.DottedSectionUnreachable` | include/quick/utils/TomlParser.hh:223-237 | A path is cut at its first dot, so a section name with a dot cannot be reached that way |
| `TomlDocuments.ReadDocument` | include/quick/utils/TomlParser.hh:146-214 | A written document, in any layout, is accepted exactly when each binding follows a header with a non-empty name; the tables then hold what they held before and otherwise the first binding of each key, and the section list is the headers in order |
| `TomlDocuments.PlainLineIff` | include/quick/utils/TomlParser.hh:174-211 | Exactly the keys and values named above survive being written on a line and read back |
| `TomlDocuments.PlainHeaderIff` | include/quick/utils/TomlParser.hh:162-172 | Exactly the trimmed names without ']' survive as section headers |
| `TomlDocuments.NoiseIsInvisible` | include/quick/utils/TomlParser.hh:152-158 | A blank or comment line can be put anywhere in any input without changing the result or the error |
| `TomlDocuments.RefusedIff` | include/quick/utils/TomlParser.hh:152-183 | A line is refused exactly when it is not blank or a comment, has no '[', and has no '=' or no current section; a refusal changes no table |
| `TomlLines.KindOfLine` | include/quick/utils/TomlParser.hh:152-178 | By its raw characters, a line is ignored when blank or a comment, else a section header when it has a '[' anywhere, else an assignment when it has a '=', else refused; each if and only if |
| `TomlLines.BlankEnds` | include/quick/utils/TomlParser.hh:152-155 | A space, tab, carriage return or newline at either end of a line makes no difference |
| `TomlLines.SingleCharacter` | include/quick/utils/TomlParser.hh:152-158 | Of the one-character lines exactly those four and '#' are ignored |
| `TomlLines.SectionName` | include/quick/utils/TomlParser.hh:162-172 | The section is the trimmed text between the first '[' of the line and the next ']', whatever stands before and after |
| `TomlLines.OpenSectionName` | include/quick/utils/TomlParser.hh:162-172 | Without a ']' the section name goes on to the end of the line |
| `TomlLines.AssignedText` | include/quick/utils/TomlParser.hh:174-207 | The key is the trimmed text before the first '=', the value the trimmed text after it up to the first '#', without its quotes |
| `TomlLines.UnquoteIs` | include/quick/utils/TomlParser.hh:203-207 | Exactly one pair of equal quote marks is taken off, and otherwise nothing |
| `TomlDocuments.StopsAtFirstRefusal` | include/quick/utils/TomlParser.hh:174-183 | Reading stops at the first refused line with the error, keeping what the lines before it left |
| `TomlDocuments.AssignIsGood` | include/quick/utils/TomlParser.hh:174-207 | Whatever the line, a key read from it is trimmed, free of '=' and '[' and not led by '#', and its value is free of '[' and '#' |
| `TomlDocuments.SectionIsGood` | include/quick/utils/TomlParser.hh:162-172 | Whatever the line, a section name read from it is trimmed and free of ']' |
| `TomlRoundTrip.ShownLineReads` | include/quick/utils/TomlParser.hh:152-211 | However a line is laid out (blanks, single, double or no quotes, trailing comment, text after ']'), it reads as what it says |
| `TomlRoundTrip.RemarkedValue` | include/quick/utils/TomlParser.hh:190-201 | Cutting at '#' and trimming again gives back the value in front of a comment |
| `TomlText.LinesRoundTrip` | include/quick/utils/TomlParser.hh:150 | Reading a text line by line gives back the lines it was joined from |
| `TomlParser.Emplace` | include/quick/utils/TomlParser.hh:211 | A key already in the section keeps its first value; every other entry is unchanged |
| `TomlParser.TomlParser.ExtractKeys` | include/quick/utils/TomlParser.hh:146-214 | The in-place loop leaves the tables and the verdict of the specification function; entries before a refused line stay |
| `TomlParser.TomlParser.Classified` | include/quick/utils/TomlParser.hh:152-207 | The in-place string erasures compute the meaning of a line |
| `TomlParser.TomlParser.GetValue` | include/quick/utils/TomlParser.hh:102-120 | The stored value, or nothing when section or key is missing |
| `VectorModel.RunRefines` | include/quick/structs/Vector.hh:85-153 | Over every legal run of pushes, pops, writes and shrinks the vector holds, element for element, the plain sequence that ignores calls that threw, except for elements moved from; exactly that sequence if no regrowth throws half-way through moving |
| `VectorModel.MovesAreAmortised` | include/quick/structs/Vector.hh:27-47 | Without shrinking, twice the elements carried over by completed regrowths is at most 3 * (pushes + initial size) |
| `VectorModel.RunKeepsPaid` | include/quick/structs/Vector.hh:85-117 | The potential argument behind it holds over every run, throws included |
| `VectorModel.NothingWasted` | include/quick/structs/Vector.hh:36-41 | No element is constructed in vain unless a regrowth throws |
| `VectorModel.RollbackIff` | include/quick/structs/Vector.hh:31-41 | A regrowth that throws leaves capacity as it was, and contents exactly when it copies or throws at the first element |
| `VectorModel.PushEffect` | include/quick/structs/Vector.hh:85-117 | A push fails exactly when it regrows and the regrowth throws, and then keeps the capacity; otherwise the element comes last, and capacity 1 or a full vector has been tripled with every element carried over |
| `VectorModel.ShrinkEffect` | include/quick/structs/Vector.hh:136-140 | An ok shrink leaves capacity = size, one that throws leaves the capacity |
| `VectorModel.InitialEffect` | include/quick/structs/Vector.hh:60-72 | n default elements, capacity n or 1 when n is 0 |
| `VectorModel.PopEffect` | include/quick/structs/Vector.hh:147-153 | The last element goes, the capacity stays; an empty vector stays empty |
| `VectorModel.RoomUnlessNoCapacity` | include/quick/structs/Vector.hh:87-91 | After the two growth tests there is room to construct exactly when the capacity is not 0 |
| `VectorModel.NoCapacityIsForever` | include/quick/structs/Vector.hh:87-90 | At capacity 0 the growth tests change nothing, since tripling gives 0 |
| `VectorModel.CapacityZero` | include/quick/structs/Vector.hh:136-140 | Capacity 0 comes about exactly by shrinking an empty vector |
| `VectorModel.PushPopAlwaysLegal` | include/quick/structs/Vector.hh:85-153 | Runs of pushes and pops never run out of room, however their regrowths end |
| `Vector.Vector.constructor` | include/quick/structs/Vector.hh:60-72 | n default elements, capacity max(1, n) |
| `Vector.Vector.GrowCapacity` | include/quick/structs/Vector.hh:27-47 | In place: the carry-over loop, the rollback and the swap of buffers give the state of the specification function, with every element's birth and destruction accounted for |
| `Vector.Vector.CarryOver` | include/quick/structs/Vector.hh:31-34 | The loop constructs in order and stops at the element whose constructor throws |
| `Vector.Vector.DestroyN` | include/quick/structs/Vector.hh:38-43 | Destroys each of the first n elements once, and never raw storage or an element destroyed before |
| `Vector.Vector.PushBack` | include/quick/structs/Vector.hh:85-117 | In place: push_back and emplace_back give the state of the specification function |
| `Vector.Vector.PopBack` | include/quick/structs/Vector.hh:147-153 | In place: the last element is destroyed; an empty vector is left alone |
| `Vector.Vector.At` | include/quick/structs/Vector.hh:119-124 | An index at or past the size is reported, any other returns that element |
| `Vector.Vector.Write` | include/quick/structs/Vector.hh:80-83 | Assignment through operator[] changes that element only |
| `Vector.Vector.ShrinkToFit` | include/quick/structs/Vector.hh:136-140 | In place: capacity becomes the size, or stays if the regrowth throws |
| `Vector.Vector.Destroy` | include/quick/structs/Vector.hh:74-78 | Every element ever constructed, in any buffer, has then been destroyed exactly once |
| `Vector.Lifetime` | include/quick/structs/Vector.hh:60-153 | Any legal program on a fresh vector is the run of the specification functions, and its destructor leaves exactly one destroyed element for each initial element, each push and each element a regrowth constructed |
| `XorBitant.StepIsPermutation` | include/quick/utils/XorBitant.hh:33-37 | The state step has an explicit two-sided inverse on words of any width |
| `XorBitant.NextBit` | include/quick/utils/XorBitant.hh:33-37 | Every bit of the next state as a sum of at most eight bits of the state, at the distances the shifts 13, 7 and 5 give |
| `XorBitant.FoldIsPermutation` | include/quick/utils/XorBitant.hh:34-36 | Each x ^= x << k and x ^= x >> k with k > 0 is undone by folding again with doubled shifts |
| `XorBitant.StepIsLinear` | include/quick/utils/XorBitant.hh:33-37 | The step is linear over GF(2) |
| `XorBitant.OnlyZeroReachesZero` | include/quick/utils/XorBitant.hh:31-39 | A run reaches state 0 exactly when its seed is 0 |
| `XorBitant.SeedsStayDistinct` | include/quick/utils/XorBitant.hh:31-39 | Distinct seeds have distinct states after every number of calls |
| `XorBitant.OrbitIsCycle` | include/quick/utils/XorBitant.hh:31-39 | Every orbit is purely periodic, with a period of at most 2^64 |
| `XorBitant.OutputIsBijection` | include/quick/utils/XorBitant.hh:38 | The 32-bit output and the low half of the new state determine each other, by the multiplier and its inverse modulo 2^32 |
| `XorBitant.EveryOutputOccurs` | include/quick/utils/XorBitant.hh:38 | Every 32-bit value is the output of some low half |
| `XorBitant.LeftIsProduct` | include/quick/utils/XorBitant.hh:34-36 | The left shift on bits is the wrapping product with 2^k |
| `XorBitant.RightIsQuotient` | include/quick/utils/XorBitant.hh:35 | The right shift on bits is the unsigned quotient by 2^k |
| `XorBitant.Generator.Call` | include/quick/utils/XorBitant.hh:31-39 | In place: the state moves by the step function and the output is that of the new state |
| `Memory.Memmove` | include/quick/memory/Memmove.cc:1-24 | For every layout, overlapping or not, the destination ends as the old source and the rest is unchanged, as section 7.24.2.2 of ISO C11 asks; null pointers change nothing; dst is returned |
| `Memory.MoveUp` | include/quick/memory/Memmove.cc:7-13 | The forward loop does so when the destination is below the source |
| `Memory.MoveDown` | include/quick/memory/Memmove.cc:14-22 | The backward loop does so when the destination is above the source |
| `Memory.Memcpy` | include/quick/memory/Memcpy.cc:3-26 | The unrolled loop and the tail leave the memory of a byte-by-byte forward copy, on every layout; with n = 0 either pointer may be null and nothing changes |
| `Memory.CopyEight` | include/quick/memory/Memcpy.cc:9-20 | Eight unrolled assignments are the first eight steps of the forward copy |
| `Memory.ForwardCopyAt` | include/quick/memory/Memcpy.cc:7-25 | Every byte of a forward copy: where the source reaches into the destination, it repeats with period dst - src |
| `Memory.SafeCopyIsBlit` | include/quick/memory/Memcpy.cc:7-25 | On disjoint regions, or when dst does not start after src, Memcpy leaves what Memmove leaves |
| `Memory.CopiesAgreeIff` | include/quick/memory/Memcpy.cc:7-25 | It does so for all memories of a size exactly on those layouts |

## Left out

- Sockets, TCP, Cassandra, Config, JSONReader, Logger, SimpleLogger, Timer: I/O, clocks and printing around foreign calls.
- TomlParser file handling: `load`, `is_valid` and opening files; the model starts from the text. `get_int` and `get_double`: library number parsing. No conformance to TOML v1.0.0 is claimed.
- SpinMutex, UniquePtr, Any, Strcpy: one atomic bit, single ownership, a wrapper and a one-line loop; they would add only easy members.
- SPSCQueue called from a third thread, apart from the two loads of `size()`.
- SPSCQueue element constructors, moves and destructors that throw; cache-line alignment and raw byte layout.
- SpscQueue.SPSCQueue.Emplace: the other thread's steps come before and after it; for steps in between its parts are methods of their own, BeginEmplace, Construct and PublishHead.
- SpscQueue.SPSCQueue.Pop: the same, with BeginPop, MoveOut, DestroyFront and PublishTail.
- Orderbook integer widths: the engine compares prices and subtracts smaller positive quantities from larger ones, so nothing can overflow; capacity reservation is not modelled.
- ThreadSafeQueue `empty()`: an unlocked read. Fairness of the mutex and of `notify_one` among waiting threads.
- ThreadSafeQueue.Monitor.Push: uninterrupted; calls that interleave are runs of ThreadSafeQueue.Monitor.Step.
- ThreadSafeQueue.Monitor.WaitAndPop: uninterrupted, in the same way; sleeping ends the method, and Resume continues the call.
- ThreadPool.Pool.WorkerTurn: uninterrupted; workers that interleave are runs of ThreadPool.Pool.WorkerStatement.
- ThreadPool futures, exceptions, thread ids, task counters and the destruction of members after the destructor's body; the unlocked emptiness test is one atomic step.
- SharedPtr handles stored inside the objects they manage, raw pointers adopted twice, one handle changed by two threads at once, weak ordering of the count, the demonstration `main`.
- SharedPtrObjects.SharedHandle.CopyAssign: another handle that shares the block must already be counted, which the caller's own two handles guarantee.
- Vector `resize`, which only overwrites the capacity field, and implicit copies; pushing a reference to the vector's own element; throwing constructors outside regrowth; allocation failure and capacities beyond 64 bits. The element whose move throws is taken to be unchanged.
- XorBitant maximal period: not claimed; words are sequences of bits.
- Memory.Memcpy: pointers into different allocations are outside the one-memory model.
