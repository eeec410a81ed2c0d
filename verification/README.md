# Verified models of the systems programs

The repository is a collection of small systems programs in C and C++. This project models twelve of them in
Dafny, one or two modules per program, and proves what each is for: linearizability, refinement and absence of
deadlock for the concurrent ones, heap and layout invariants for the allocator, termination and exact schedules for
the timer, round trips for the stream code.

| file | program | in short |
|---|---|---|
| `LockFreeStack.dfy` | `第五章/atomic_no_lock_demo09.cpp` | every interleaving of the CAS-retry stack is linearizable and lock-free, and a thread left alone returns within six steps |
| `ThreadPool.dfy` | `ThreadPool_C_C++/ThreadPoll.hpp` | no lost wake-up, never stuck, every call before the stop is accepted and its task runs once, every schedule ends, the destructor drains and can return |
| `CThreadPool.dfy` | `ThreadPool_C_C++/C/threadPool.c` | counters, slots and FIFO order survive stale snapshots under two mutexes; no task brought is lost |
| `CThreadPoolSignals.dfy` | `ThreadPool_C_C++/C/threadPool.c` | how many tasks can be left behind sleeping workers, and exactly which configurations can lose a wake-up |
| `LookupTable.dfy` | `第六章/threadsafe_look_up.cpp` | per-bucket locking refines one map; one effect per call, in real-time order; `get_map` is atomic; no deadlock |
| `ConnectPool.dfy` | `mysql_connect_pool/src/connectPool.cpp` | ownership, age order, exactly what the recycler deletes |
| `Reactor.dfy` | `epoll/main.c` | slot table and kernel agree; one callback per event, and what each answers; the sweep's deadline |
| `MemoryPool.dfy`, `StackAlloc.dfy` | `MemoryPool/C++98` | address arithmetic, overlaid free list, LIFO over shared slot memory |
| `Timers.dfy` | `Timer/version02` | when `update` terminates, who fires when, independence of polling |
| `GetLine.dfy` | `tinyHttp/httpd.c` (`get_line`) | line-ending normalization across buffer boundaries |
| `DataStream.dfy` | `cpp-serialize/DataStream.h` | round trips, and exactly when a stream with containers reads back |
| `Vector.dfy` | `vector/version03/vector.cpp` | construct/destroy discipline over raw storage, amortized growth |

`Arith.dfy` holds division, counting and power-of-two facts. `dafny verify dfyconfig.toml` checks everything.

## How the programs are modelled

* The four lock-based or lock-free protocols with arbitrarily many threads (`LockFreeStack`, `ThreadPool`,
  `CThreadPool` with its signals, `LookupTable`) are step relations: `Enabled` and `Next` describe one atomic step of one thread, a
  `Run` is any sequence of enabled steps, and the main results hold in every state of every run. Each shared access
  of the stack is a step of its own; code under a mutex is one step where nothing outside the mutex can see inside,
  and several where it can (the creation loop of the C pool, the list walk, work and release phases of the table, the
  one-by-one locking and copying of `get_map`).
* Everything else is a class with the program's own fields, whose methods are the program's functions. What comes
  from outside (clocks, kernel answers, addresses returned by `operator new`) is a parameter or an arbitrary value
  restricted to what the environment guarantees.

Assumptions:

* Lock-free stack: sequential consistency (the default of its atomics), `head` starts null, and an address that
  some `pop` still keeps in `old_head` is not handed out again by `new`. The program does not ensure the last
  point; `ReuseBreaksTheStack` shows that it is needed.
* C pool: from the return of `threadPoolCreate` up to shutdown, `1 <= minNum <= maxNum <= 100`, a positive
  capacity, and `pthread_create` succeeds and stores the thread id before anyone looks at it. `CThreadPool` lets a
  signal wake any waiter or none; `CThreadPoolSignals` has it wake one whenever one waits.
* Connection pool: `minSize` is not negative, since with a negative one the recycler pops an empty queue.
* Memory pool: slot size and block addresses are multiples of 8, a block and the address just past it lie below
  2^64, `BlockSize` is at least two slots, clients give back only slots they hold and write only words inside them.
  The stack's element is one word.
* Timers: callbacks are set and do not call into the manager.
* Reactor: `epoll_ctl` succeeds on acceptable arguments, `epoll_wait` reports each registered descriptor at most
  once and only for the event it was armed for, and the clock does not go back.
* Stream code: integers are stored little-endian, and a set of strings iterates from the empty string on.

Where comments or names and code disagree, the model follows the code: `Timer::now` counts microseconds although
the interface speaks of milliseconds (time is abstract ticks here); `padPointer` aligns only to powers of two unless
its subtraction happens not to wrap; container reads of `DataStream` move the cursor past their data by the
container's length once more, and lists are written under the vector's tag.

## Model

| member | source | states |
|---|---|---|
| `LockFreeStack.Linearizable` | 第五章/atomic_no_lock_demo09.cpp:17-35 | in every state of every run, replaying the successful CASes and null reads in order on a sequential stack is legal and ends in the values reachable from `head`, and each thread's history is call, one effect, return of that effect's result; so `pop` returns false only if the stack was empty at its last read of `head` |
| `LockFreeStack.EffectWithinCall` | 第五章/atomic_no_lock_demo09.cpp:17-35 | each returned push or pop took effect exactly once, between its call and its return, with the result it returned |
| `LockFreeStack.RealTimeOrder` | 第五章/atomic_no_lock_demo09.cpp:17-35 | an operation that returned before another was called took effect first |
| `LockFreeStack.Conservation` | 第五章/atomic_no_lock_demo09.cpp:17-35 | as multisets, values pushed are values popped plus values still reachable |
| `LockFreeStack.OwnedNodeIsSafe` | 第五章/atomic_no_lock_demo09.cpp:24-35 | a node being pushed, read after a won CAS or deleted is allocated, off the stack and owned by one thread only: no use after free by the winner and no double delete |
| `LockFreeStack.FailedCasMeansProgress` | 第五章/atomic_no_lock_demo09.cpp:19-28 | a failed CAS means progress: between a load of `head` and a CAS that fails because of it, some push or pop took effect |
| `LockFreeStack.ReturnsAlone` | 第五章/atomic_no_lock_demo09.cpp:17-35 | in every reachable state any thread inside a call, running alone, returns within six enabled steps, whatever it reads from freed memory |
| `LockFreeStack.PopAlone` | 第五章/atomic_no_lock_demo09.cpp:25-35 | a whole `pop` alone: at a null head its history is call, empty, return of false, and nothing else changes; otherwise it returns the top value, unlinks its node and deletes it |
| `LockFreeStack.PushAlone` | 第五章/atomic_no_lock_demo09.cpp:17-22 | a whole `push` alone puts its value on top and returns |
| `LockFreeStack.EveryCallRecorded` | 第五章/atomic_no_lock_demo09.cpp:17-35 | a thread's calls, from the steps it took, are in order those of its history, each with one effect and one return except the last, which may still be under way |
| `LockFreeStack.LoadsSeeHead` | 第五章/atomic_no_lock_demo09.cpp:18-28 | after a load or a failed CAS the thread expects the present head |
| `LockFreeStack.HeadMoved` | 第五章/atomic_no_lock_demo09.cpp:17-35 | over any stretch of a run, `head` differs only if an operation took effect in it |
| `LockFreeStack.ReuseBreaksTheStack` | 第五章/atomic_no_lock_demo09.cpp:26-33 | without the no-reuse condition there is a schedule in which `head` becomes null while the sequential stack still holds a value |
| `LockFreeStack.StepKeepsInv` | 第五章/atomic_no_lock_demo09.cpp:17-35 | every shared access by any thread keeps the chain acyclic and allocated, owned nodes apart, the successor held by a popper right while its node is on the stack (no ABA), and the replayed history equal to the contents |
| `ThreadPool.NoLostWakeup` | ThreadPool_C_C++/ThreadPoll.hpp:35-45 | while any worker sleeps, the waiting tasks are no more than the workers about to look at the queue plus the notifications on their way, workers busy with a task not counted; a non-empty queue always has a worker awake or a notification pending; once the destructor has broadcast no worker sleeps |
| `ThreadPool.NeverStuck` | ThreadPool_C_C++/ThreadPoll.hpp:31-48 | in every reachable state the pool is idle, destroyed, or can take a step of its own, without help from spurious wake-ups or new calls |
| `ThreadPool.ExactlyOnce` | ThreadPool_C_C++/ThreadPoll.hpp:40-47 | tasks are taken in the order accepted, none finishes twice, none that was not taken runs, and when the destructor has returned every accepted task has run |
| `ThreadPool.CallsAccounted` | ThreadPool_C_C++/ThreadPoll.hpp:61-82 | over any run the calls of `enqueue` that got the mutex are the accepted ones, those still inside, and those that finished after the stop; the pool is stopped only by the destructor |
| `ThreadPool.RunningPoolAccepts` | ThreadPool_C_C++/ThreadPoll.hpp:72-78 | as long as the destructor has not stopped the pool, every finished call of `enqueue` has had its task accepted |
| `ThreadPool.CallsBeforeStopRun` | ThreadPool_C_C++/ThreadPoll.hpp:61-94 | when the destructor has returned, the task of every call that got the mutex before the stop has run, and no others were accepted |
| `ThreadPool.EnqueueAlone` | ThreadPool_C_C++/ThreadPoll.hpp:61-82 | a call of `enqueue` not mixed with other steps appends one new task and wakes one sleeping worker if there is one; on a stopped pool it throws and changes nothing |
| `ThreadPool.WorkerAlone` | ThreadPool_C_C++/ThreadPoll.hpp:31-48 | a worker that gets the lock, not mixed with other steps, runs the oldest task and comes back; with none it sleeps, or leaves if the pool is stopped |
| `ThreadPool.StepBurns` | ThreadPool_C_C++/ThreadPoll.hpp:31-94 | every step that a worker, a client inside `enqueue` or the destructor takes uses up a bounded amount of work, before and after the stop |
| `ThreadPool.EveryScheduleEnds` | ThreadPool_C_C++/ThreadPoll.hpp:31-94 | so without new calls and spurious wake-ups every schedule comes to an end, after no more steps than that amount |
| `ThreadPool.SettledHasRunAll` | ThreadPool_C_C++/ThreadPoll.hpp:31-94 | and where it ends, every accepted task has run |
| `ThreadPool.StepDrains` | ThreadPool_C_C++/ThreadPoll.hpp:83-94 | while the destructor joins, each worker or join step uses up a bounded amount of remaining work and no other step adds to it |
| `ThreadPool.CanDrain` | ThreadPool_C_C++/ThreadPoll.hpp:83-94 | while the destructor joins, a worker or join step that uses up remaining work is possible unless a client is inside `enqueue` |
| `ThreadPool.DestructorDrains` | ThreadPool_C_C++/ThreadPoll.hpp:83-94 | from the moment joining starts, any schedule contains at most the remaining number of worker and join steps, and in each state one is possible unless a client is inside `enqueue` |
| `ThreadPool.DestructorReturns` | ThreadPool_C_C++/ThreadPoll.hpp:83-94 | from every state reached while it joins, the destructor can return within that number of steps plus one, without any new call and without a spurious wake-up |
| `ThreadPool.StepKeepsInv` | ThreadPool_C_C++/ThreadPoll.hpp:31-94 | lock, check, wait, take, run, enqueue, notify, stop, broadcast and join each keep mutual exclusion, ticket order, task ownership, the stop protocol and the wake-up condition |
| `CThreadPool.CountersHold` | ThreadPool_C_C++/C/threadPool.c:95-158 | in every run minNum <= liveNum <= maxNum and 0 <= busyNum <= liveNum, both count the workers they name, and occupied id slots are liveNum plus the workers that gave up their place but have not cleared their slot |
| `CThreadPool.DestroyFindsSlot` | ThreadPool_C_C++/C/threadPool.c:228-238 | a worker on its way out always finds its id ahead of its search, so no slot is left behind |
| `CThreadPool.FifoHolds` | ThreadPool_C_C++/C/threadPool.c:166-176 | submitted tasks are the tasks taken, in order, followed by the ring's contents; rear = (front + size) mod capacity; each task taken is finished or in the hands of exactly the worker that took it, so shrinking loses none |
| `CThreadPool.NoTaskLost` | ThreadPool_C_C++/C/threadPool.c:195-213 | over any run the tasks with which `threadPoolAdd` was called are, as multisets, the submitted ones and those of callers that have not returned; with `FifoHolds`, every task a returned call brought is queued, in the hands of a worker or done |
| `CThreadPool.AddAlone` | ThreadPool_C_C++/C/threadPool.c:195-213 | a caller that gets the mutex returns exactly if the ring has room, with its task at the end of the queue, and otherwise waits with nothing changed |
| `CThreadPool.WorkerAlone` | ThreadPool_C_C++/C/threadPool.c:144-192 | a worker at the loop head sleeps over an empty queue; otherwise, alone, it takes the oldest task, runs it and is back three steps later, counters as before |
| `CThreadPool.ExitTaken` | ThreadPool_C_C++/C/threadPool.c:149-157 | a worker woken while exits are asked for uses one up, and leaves exactly if more than minNum live |
| `CThreadPool.LeavesAlone` | ThreadPool_C_C++/C/threadPool.c:228-238 | a leaving worker's search, alone, clears its own slot, no other, and the worker is gone |
| `CThreadPool.RoundAlone` | ThreadPool_C_C++/C/threadPool.c:95-137 | a whole round of the manager alone: with more tasks waiting than workers alive and room for more it creates one worker for each free slot, up to two; it asks for two exits exactly if fewer than half the workers are busy and more than minNum live; queue, callers, tasks and busyNum stay |
| `CThreadPool.CreateAlone` | ThreadPool_C_C++/C/threadPool.c:112-125 | the creation loop alone creates one worker for each empty slot from where it stands, until two are made |
| `CThreadPool.ShrinkAlone` | ThreadPool_C_C++/C/threadPool.c:127-136 | exits are asked for exactly if, by the manager's copies, fewer than half the workers were busy and more than minNum alive, and liveNum and slots stay |
| `CThreadPool.PopIsTail` | ThreadPool_C_C++/C/threadPool.c:166-172 | taking at `queueFront` removes the oldest task and keeps the ring well formed |
| `CThreadPool.PushIsAppend` | ThreadPool_C_C++/C/threadPool.c:205-209 | storing at `queueRear` appends to the queue and keeps the ring well formed |
| `CThreadPool.LiveEffect` | ThreadPool_C_C++/C/threadPool.c:112-158 | liveNum changes only together with the set of live workers, never above maxNum when growing nor below minNum when shrinking, whatever the manager's snapshot said |
| `CThreadPool.StepChangesSlots` | ThreadPool_C_C++/C/threadPool.c:116-123 | id slots change only by the manager filling an empty one or a worker clearing its own |
| `CThreadPool.ChurnIsBounded` | ThreadPool_C_C++/C/threadPool.c:112-158 | over any run liveNum is minNum plus workers created minus workers let go, each decision to grow creates at most two, and each decision to shrink lets at most two go, however many wake up on its signals |
| `CThreadPool.StepKeepsInv` | ThreadPool_C_C++/C/threadPool.c:95-238 | every step of manager, workers and callers keeps FIFO order, counters, slots and task ownership |
| `CThreadPoolSignals.SleepersCovered` | ThreadPool_C_C++/C/threadPool.c:146-158 | in every run, while a worker sleeps, the queued tasks are no more than the workers on their way to the queue plus the workers let go so far: each exit can lose at most one wake-up |
| `CThreadPoolSignals.StepKeepsCovered` | ThreadPool_C_C++/C/threadPool.c:141-213 | every step keeps that, for the count of workers let go including itself |
| `CThreadPoolSignals.NoneForgotten` | ThreadPool_C_C++/C/threadPool.c:146-158 | in a pool that cannot grow no task is ever queued with every worker asleep |
| `CThreadPoolSignals.WakeUpLost` | ThreadPool_C_C++/C/threadPool.c:127-158 | in every other pool there is a run, from creation, that ends with a task queued, a worker asleep, none awake but one on its way out, and the manager idle: the signal of `threadPoolAdd` woke a worker that had to exit |
| `CThreadPoolSignals.ForgetsExactlyWhen` | ThreadPool_C_C++/C/threadPool.c:112-158 | a wake-up can be lost if and only if minNum < maxNum and minNum < queueCapacity |
| `Buckets.Find` | 第六章/threadsafe_look_up.cpp:23-28 | the first entry with the key, or the end if there is none |
| `Buckets.AddOrUpdateMeans` | 第六章/threadsafe_look_up.cpp:39-51 | adding keeps keys distinct, sets the answer for its key and changes no other |
| `Buckets.RemoveMeans` | 第六章/threadsafe_look_up.cpp:53-61 | removing keeps keys distinct, forgets its key and changes no other answer |
| `Buckets.BucketType.FindEntryFor` | 第六章/threadsafe_look_up.cpp:23-28 | the list walk finds the first entry with the key, or the end |
| `Buckets.BucketType.ValueFor` | 第六章/threadsafe_look_up.cpp:31-37 | the value stored under the key, or the default when there is none |
| `Buckets.BucketType.AddOrUpdateMapping` | 第六章/threadsafe_look_up.cpp:39-51 | the list becomes the one whose meaning `AddOrUpdateMeans` gives |
| `Buckets.BucketType.RemoveMapping` | 第六章/threadsafe_look_up.cpp:53-61 | the list becomes the one whose meaning `RemoveMeans` gives |
| `LookupTable.Index` | 第六章/threadsafe_look_up.cpp:67-71 | a key always goes to one existing bucket |
| `LookupTable.RefinesMap` | 第六章/threadsafe_look_up.cpp:23-122 | under every interleaving, with the list walk taken one element at a time, the buckets hold exactly the map obtained by applying the operations in their order of effect, every answer is the one that map gives then, and each key occurs at most once and only in the bucket of its hash |
| `LookupTable.EffectWithinCall` | 第六章/threadsafe_look_up.cpp:89-103 | a single-key call returns what the map answered at one moment within the call |
| `LookupTable.OneEffectPerCall` | 第六章/threadsafe_look_up.cpp:89-122 | for each thread, the calls it made are, in order, its logged effects followed by at most one call in progress; and those effects are, result for result, what its calls have returned, followed by what the call in progress will return |
| `LookupTable.RealTimeOrder` | 第六章/threadsafe_look_up.cpp:89-122 | a call that was about to return before another was made took effect before it |
| `LookupTable.ReturnsAlone` | 第六章/threadsafe_look_up.cpp:89-122 | a thread past its locking phase, or one that finds the others outside, returns within a bounded number of its own steps |
| `LookupTable.CallAlone` | 第六章/threadsafe_look_up.cpp:89-122 | any operation called while the others are outside can start, returns, and has changed the represented map exactly as it should, with the map's answer |
| `LookupTable.SnapshotIsAtomic` | 第六章/threadsafe_look_up.cpp:105-122 | `get_map` returns the whole map as it stood at one moment within the call, when it got its last lock |
| `LookupTable.NoDeadlock` | 第六章/threadsafe_look_up.cpp:105-112 | whenever some thread is inside a call, some thread can step, although `get_map` holds several locks |
| `LookupTable.BucketStaysPut` | 第六章/threadsafe_look_up.cpp:33-55 | while a thread is inside a bucket, reading or writing, no other thread's step changes that bucket |
| `LookupTable.StepKeepsWalks` | 第六章/threadsafe_look_up.cpp:23-28 | so a walk never passes an entry with its key, whatever other threads do meanwhile |
| `LookupTable.AloneWhileCopying` | 第六章/threadsafe_look_up.cpp:113-121 | while one thread copies, no other thread's step changes a bucket or takes effect |
| `LookupTable.WorkRepresents` | 第六章/threadsafe_look_up.cpp:31-61 | what an operation does at the place its walk has found changes the represented map exactly as the map operation would and gives its answer |
| `LookupTable.MapOfAll` | 第六章/threadsafe_look_up.cpp:113-121 | inserting every entry of every bucket rebuilds the represented map |
| `LookupTable.StepKeepsInv` | 第六章/threadsafe_look_up.cpp:23-122 | every step keeps the lock words accurate, the walks right, the buckets one map, and each pending result what the history recorded |
| `ConnectPool.ExpiredArePrefix` | mysql_connect_pool/src/connectPool.cpp:48-55 | in a queue ordered by refresh time the expired connections are exactly a prefix, so stopping at the first that is not expired misses none |
| `ConnectPool.ExpiresExactlyAt` | mysql_connect_pool/src/connectPool.cpp:50 | a connection is expired exactly from maxIdTime milliseconds, that many million nanoseconds, after its last refresh |
| `ConnectPool.ExpiredCountGrows` | mysql_connect_pool/src/connectPool.cpp:50 | a later look at the clock finds at least as many expired |
| `ConnectPool.Pool.constructor` | mysql_connect_pool/src/connectPool.cpp:83-89 | the pool starts with minSize new idle connections, none borrowed or deleted |
| `ConnectPool.Pool.AddConnection` | mysql_connect_pool/src/connectPool.cpp:59-64 | one new connection, refreshed now, joins at the young end of the queue |
| `ConnectPool.Pool.Produce` | mysql_connect_pool/src/connectPool.cpp:33-42 | with fewer than minSize idle one is added, otherwise the producer sleeps; it never sleeps while fewer than minSize are idle |
| `ConnectPool.Pool.GetConnection` | mysql_connect_pool/src/connectPool.cpp:66-81 | the oldest idle connection becomes borrowed and the producer is woken; with none idle nothing changes |
| `ConnectPool.Pool.GiveBack` | mysql_connect_pool/src/connectPool.cpp:73-77 | a borrowed connection becomes idle again as the most recently refreshed |
| `ConnectPool.Pool.DeleteIfExpired` | mysql_connect_pool/src/connectPool.cpp:49-54 | the oldest connection goes if it has expired by this look at the clock; otherwise nothing in the queue has |
| `ConnectPool.Pool.Recycle` | mysql_connect_pool/src/connectPool.cpp:44-57 | one pass deletes a prefix of the queue: at least what had expired when it began and at most what has when it ends, both up to the surplus over minSize; if more than minSize remain, precisely the expired ones went |
| `ConnectPool.Pool.Destroy` | mysql_connect_pool/src/connectPool.cpp:96-102 | exactly the idle connections are deleted |
| `Reactor.OneSlotPerFd` | epoll/main.c:17-33 | a slot is active exactly when its descriptor is registered to it, and active slots have different descriptors |
| `Reactor.AfterDel` | epoll/main.c:76-88 | unregistering an active client slot keeps table and kernel in agreement |
| `Reactor.AfterAdd` | epoll/main.c:52-74 | arming a free slot with an open unregistered descriptor and the callback for its event keeps them in agreement |
| `Reactor.FirstFree` | epoll/main.c:107-112 | the lowest client slot that is not active, or the end of the table |
| `Reactor.HandledApart` | epoll/main.c:91-194 | a callback changes no active slot but its own, never the listener's, and leaves what it changes freed or just active |
| `Reactor.HandledAnswers` | epoll/main.c:91-194 | a client's callback with data keeps its slot's descriptor, turns event and callback to the other direction and sets its time to the present; without data the slot is free and the descriptor closed; an accepted descriptor stands, reading, in the lowest free slot, or only open if there is none or it stays blocking; nothing else changes |
| `Reactor.EchoComesRound` | epoll/main.c:139-194 | data received and sent back: after two callbacks with data the slot waits for the same event with the same callback as before, and after one for the other |
| `Reactor.PlacedOnce` | epoll/main.c:91-137 | a descriptor just accepted is in exactly one active slot |
| `Reactor.BatchAnswers` | epoll/main.c:266-278 | a batch of events turns round every connection it reports on which data was moved and leaves every connection it does not report as it was, whatever it closes or accepts on the way |
| `Reactor.SweptOneMore` | epoll/main.c:245-259 | checking the next slot in turn, across the wrap of `checkpos`, extends the swept stretch by one and closes that slot's descriptor exactly if it timed out |
| `Reactor.PassExtends` | epoll/main.c:245-259 | a pass takes up where the last one stopped, although slots were reused in between |
| `Reactor.SweptAll` | epoll/main.c:245-247 | 1024 checks cover the table from any starting position |
| `Reactor.StillSwept` | epoll/main.c:35-47 | reusing or refreshing slots between passes does not spoil what has been swept |
| `Reactor.Server.constructor` | epoll/main.c:196-204 | the listener is registered in the last slot and all client slots are free |
| `Reactor.Server.EventSet` | epoll/main.c:35-47 | the slot is refilled, inactive, with the present time; no other slot changes |
| `Reactor.Server.EventAdd` | epoll/main.c:52-74 | the slot becomes active for the event; a slot that was active is modified and any other is added in the kernel |
| `Reactor.Server.EventDel` | epoll/main.c:76-88 | an active slot is unregistered; an inactive one is left alone |
| `Reactor.Server.Arm` | epoll/main.c:155-156 | a free client slot is filled for an open, unregistered descriptor and registered with the present time; table and kernel agree and MOD is not used |
| `Reactor.Server.Transfer` | epoll/main.c:139-194 | after data has moved the slot is armed for the other direction with the other callback and the present time; on end or error the connection is closed and the slot freed; table and kernel agree and MOD is not used |
| `Reactor.Server.FindFree` | epoll/main.c:107-112 | the search ends at the lowest free client slot |
| `Reactor.Server.OnAccept` | epoll/main.c:91-137 | the new descriptor is armed for reading in the lowest free client slot; if accept fails nothing changes, and if the table is full or fcntl fails only the descriptor stays open |
| `Reactor.Server.CallBack` | epoll/main.c:270-277 | called on an active slot, it runs that slot's callback with its descriptor, to the effect described by `HandledAnswers`, keeping table and kernel in agreement |
| `Reactor.Server.CheckSlot` | epoll/main.c:248-258 | a slot idle for 60 seconds or more is closed, unregistered and freed; any other is left alone |
| `Reactor.Server.Sweep` | epoll/main.c:243-259 | of the next 100 client slots in turn exactly those idle for 60 seconds are freed and their descriptors closed, and no other slot or descriptor changes |
| `Reactor.Server.Dispatch` | epoll/main.c:266-278 | one batch makes exactly one callback per reported event, in order, each with the descriptor and callback registered when `epoll_wait` returned, although earlier callbacks close and refill slots; the table ends as those callbacks leave it, every connection reported with data turned round and every one not reported as it was |
| `Reactor.Server.Turn` | epoll/main.c:242-279 | one turn: the next 100 client slots are swept, then the reported events are dispatched, by the table as the sweep left it |
| `Reactor.Server.Serve` | epoll/main.c:242-279 | any number of turns keeps table and kernel in agreement without ever using MOD; each is the sweep of the next 100 slots followed by the callbacks of what was reported; and after 11 turns no client connection idle for 60 seconds at their start is left |
| `Padding.PadPointer` | MemoryPool/C++98/MemoryPool.cc:30-35 | the padding is less than the alignment |
| `Padding.AlignsExactlyWhen` | MemoryPool/C++98/MemoryPool.cc:30-35 | with 64-bit wrap-around the padded address is a multiple of the alignment if and only if the subtraction does not wrap or the alignment divides 2^64 |
| `Padding.AlignsToPowersOfTwo` | MemoryPool/C++98/MemoryPool.cc:30-35 | it is a multiple of every power of two dividing the alignment, for every alignment |
| `Padding.MissesNonPowerOfTwo` | MemoryPool/C++98/MemoryPool.cc:30-35 | address 32 is not aligned to 24 by the computed padding |
| `MemoryPool.FirstSlotFits` | MemoryPool/C++98/MemoryPool.cc:113-118 | two slots' worth of block is enough for the first slot, which is never checked, to lie inside the block past its header |
| `MemoryPool.FirstSlotAligned` | MemoryPool/C++98/MemoryPool.cc:113-116 | the first slot is aligned to every power of two dividing the slot size |
| `MemoryPool.NewBlockKeepsInv` | MemoryPool/C++98/MemoryPool.cc:106-119 | putting a new block in front keeps all slots, the free list and the chain of blocks intact |
| `MemoryPool.CarveKeepsInv` | MemoryPool/C++98/MemoryPool.cc:133-135 | the slot at `currentSlot_` overlaps nothing carved before and lies inside the newest block |
| `MemoryPool.ReuseKeepsInv` | MemoryPool/C++98/MemoryPool.cc:127-131 | the head of the free list is a carved slot held by nobody, and following `next` stays on the list |
| `MemoryPool.GiveBackKeepsInv` | MemoryPool/C++98/MemoryPool.cc:143-149 | writing the link into a slot given back disturbs neither the rest of the free list nor the chain of blocks |
| `MemoryPool.SlotWordIsPrivate` | MemoryPool/C++98/MemoryPool.cc:141-149 | a word inside a carved slot shares no byte with a block's header or with the first word of another slot |
| `MemoryPool.ClientWriteKeepsInv` | MemoryPool/C++98/MemoryPool.cc:141-149 | a write to a word of a held slot never changes the free list or the chain of blocks, though all live in the same memory: it shares no byte with any of their links |
| `MemoryPool.HeldSlotIsSound` | MemoryPool/C++98/MemoryPool.cc:123-137 | in every reachable state a held slot is aligned, lies in a block past its header, and overlaps no other held or free slot |
| `MemoryPool.CarvedIsPeak` | MemoryPool/C++98/MemoryPool.cc:125-137 | slots ever carved (held plus free) are as many as were ever held at once |
| `MemoryPool.LiveWithinMaxSize` | MemoryPool/C++98/MemoryPool.cc:155-160 | clients never hold more slots than `max_size()` |
| `MemoryPool.MaxSizeDoesNotWrap` | MemoryPool/C++98/MemoryPool.cc:155-160 | the product in `max_size()` fits in 64 bits |
| `MemoryPool.CapacityIs` | MemoryPool/C++98/MemoryPool.cc:104-119 | the k-th place of a block is a slot if and only if k is below the block's capacity, which is at most what `max_size()` counts for a block and is exactly that where no padding is needed |
| `MemoryPool.AllocateFilled` | MemoryPool/C++98/MemoryPool.cc:123-137 | in each of its three cases `allocate` keeps every block but the newest full, and the newest carved without gaps |
| `MemoryPool.BlocksAreFilled` | MemoryPool/C++98/MemoryPool.cc:104-137 | so the largest number of slots ever held at once is the capacity of all blocks but the newest plus what has been carved of that: no block is taken early and none is left with room |
| `MemoryPool.Packing` | MemoryPool/C++98/MemoryPool.cc:155-160 | disjoint intervals of one size inside a range take no more than the range |
| `MemoryPool.BlockCount` | MemoryPool/C++98/MemoryPool.cc:155-160 | disjoint non-null blocks are at most (2^64 - 1) / BlockSize many |
| `MemoryPool.SlotsInBlocks` | MemoryPool/C++98/MemoryPool.cc:155-160 | disjoint slots past the headers are at most (BlockSize - 8) / slot for each block |
| `MemoryPool.MemoryPool.constructor` | MemoryPool/C++98/MemoryPool.cc:39-47 | a new pool holds no block and no slot |
| `MemoryPool.MemoryPool.AllocateBlock` | MemoryPool/C++98/MemoryPool.cc:104-119 | the new block heads the chain and its first slot is inside it and aligned |
| `MemoryPool.MemoryPool.Allocate` | MemoryPool/C++98/MemoryPool.cc:123-137 | the result was held by nobody; it is the head of the free list if there is one, else the next slot of the newest block if one fits, else the first slot of a new block; new slots are carved only while every slot carved before is in use |
| `MemoryPool.MemoryPool.Deallocate` | MemoryPool/C++98/MemoryPool.cc:141-149 | the slot becomes the head of the free list and is held no longer; null is ignored |
| `MemoryPool.MemoryPool.Store` | MemoryPool/C++98/MemoryPool.cc:141-149 | a client's write to a word of its slot changes that word only and keeps the pool valid |
| `MemoryPool.MemoryPool.Destroy` | MemoryPool/C++98/MemoryPool.cc:70-80 | every block is released, newest first, and none twice |
| `MemoryPool.MemoryPool.ReleaseChain` | MemoryPool/C++98/MemoryPool.cc:74-79 | the walk along `next` visits exactly the chain of blocks and ends |
| `StackAlloc.StackFrame` | MemoryPool/C++98/StackAlloc.h:43-48 | a write that misses every node's two words changes neither the links nor the contents |
| `StackAlloc.PushNode` | MemoryPool/C++98/StackAlloc.h:87-96 | writing data and link of a fresh node puts its value on top |
| `StackAlloc.AfterAllocate` | MemoryPool/C++98/StackAlloc.h:87-91 | allocating, with or without a new block, leaves the contents alone and yields a node apart from all others |
| `StackAlloc.AfterDeallocate` | MemoryPool/C++98/StackAlloc.h:104-107 | giving the top node back overwrites its data with the free list's link and leaves the rest of the stack alone |
| `StackAlloc.StackAlloc.Push` | MemoryPool/C++98/StackAlloc.h:87-96 | the contents gain the element on top |
| `StackAlloc.StackAlloc.Pop` | MemoryPool/C++98/StackAlloc.h:99-109 | the top element is returned and removed, and its node heads the pool's free list |
| `StackAlloc.StackAlloc.Top` | MemoryPool/C++98/StackAlloc.h:112-113 | the top element |
| `StackAlloc.StackAlloc.Clear` | MemoryPool/C++98/StackAlloc.h:72-84 | terminates with an empty stack, every node it held on the pool's free list, and no slot held |
| `Timers.UpperBound` | Timer/version02/timerManager.cpp:19 | where a multimap inserts: after all entries whose key is not greater |
| `Timers.TerminatesExactlyWhen` | Timer/version02/timerManager.cpp:10-24 | `update` terminates if and only if every due timer has a positive period or a finite repeat count |
| `Timers.StepUsesWork` | Timer/version02/timerManager.cpp:10-24 | each iteration uses up exactly one unit of a finite amount of work, though it reinserts entries |
| `Timers.NeverStops` | Timer/version02/timerManager.cpp:10-24 | a due timer repeating forever with no positive period keeps the loop going past any number of iterations |
| `Timers.OnlyFutureLeft` | Timer/version02/timerManager.cpp:10-13 | afterwards the table is in order and every entry is due later than now |
| `Timers.FiresInOrder` | Timer/version02/timerManager.cpp:10-24 | nothing fires before its time, and callbacks run in order of scheduled time if and only if no due timer with a negative period has more than one repeat left |
| `Timers.FiresExactly` | Timer/version02/timer.cpp:23-33 | a timer due at t0 fires (now - t0) / period + 1 times, capped by a positive repeat count, at t0, t0 + period and so on, and ends in the table at its next due time or is gone |
| `Timers.PollingDoesNotMatter` | Timer/version02/timerManager.cpp:5-25 | updating at n1 and then at n2 gives the same firings in the same order and the same table, order of equal times included, as updating once at n2 |
| `Timers.TimerManager.constructor` | Timer/version02/timerManager.cpp:5-8 | no timers |
| `Timers.TimerManager.Multiinsert` | Timer/version02/timerManager.cpp:19 | the entry goes after all entries whose key is not greater |
| `Timers.TimerManager.Reinsert` | Timer/version02/timerManager.cpp:19-22 | after the insertion the iterator is at the first entry, the new one or the one it followed |
| `Timers.TimerManager.FireFirst` | Timer/version02/timerManager.cpp:14-23 | one iteration on the first entry leaves the iterator at the new first, least entry |
| `Timers.TimerManager.Update` | Timer/version02/timerManager.cpp:5-25 | with every due timer able to finish, the loop terminates with the iterator always at the least entry, and its firings and table are those the lemmas above describe |
| `GetLine.NormalizedHasNoReturn` | tinyHttp/httpd.c:391-400 | no carriage return survives, and only the empty stream gives nothing |
| `GetLine.NormalizeTwice` | tinyHttp/httpd.c:391-400 | normalizing again changes nothing |
| `GetLine.NormalizeInPieces` | tinyHttp/httpd.c:391-400 | a stream may be normalized in pieces if and only if no boundary falls inside a CR LF pair, which is why the code peeks |
| `GetLine.LineEndings` | tinyHttp/httpd.c:391-400 | anywhere in a stream, a CR LF pair becomes one LF, a CR without LF behind it becomes LF, and any other character, an LF after no CR included, stays |
| `GetLine.FirstLineIs` | tinyHttp/httpd.c:364-375 | a line has its LF last or not at all, and ends without one only at the end of the stream or of the buffer |
| `GetLine.LinesJoin` | tinyHttp/httpd.c:364-375 | concatenating the lines until the first empty one gives the normalized stream if and only if there is room for a character or the stream is empty |
| `GetLine.LineEnds` | tinyHttp/httpd.c:383 | every line but the last ends in LF or fills the buffer |
| `GetLine.RecvChar` | tinyHttp/httpd.c:386-405 | one read, with peek and second read after a CR, yields the next character of the normalized stream and consumes exactly its bytes |
| `GetLine.GetLine` | tinyHttp/httpd.c:377-410 | the buffer holds the first line of the normalized stream that fits, NUL-terminated and nothing beyond it touched, and the socket still has the rest |
| `GetLine.Drain` | tinyHttp/httpd.c:377-410 | successive results until 0 are the lines of the normalized stream, and together they are that stream if and only if size >= 2 or the stream is empty |
| `DataStream.NumberRoundTrip` | cpp-serialize/DataStream.h:173-216 | a number survives being written as little-endian bytes |
| `DataStream.BytesRoundTrip` | cpp-serialize/DataStream.h:173-216 | bytes survive being read as a number |
| `DataStream.WrittenScalar` | cpp-serialize/DataStream.h:142-216 | the bytes written for each kind of scalar: its number in the type enumeration, then the base-256 digits of the value or its two's complement, least first, 1, 2, 4 or 8 of them |
| `DataStream.WrittenText` | cpp-serialize/DataStream.h:226-232 | the bytes written for a string: 7, the length as an int32 with its own type byte, the characters |
| `DataStream.ScalarReadsBack` | cpp-serialize/DataStream.h:142-216 | a written bool, char, integer, float or double reads back, negative numbers included, wherever it stands |
| `DataStream.ValueReadsBack` | cpp-serialize/DataStream.h:142-275 | a written scalar or string reads back with the cursor just after it |
| `DataStream.OtherTypesRefused` | cpp-serialize/DataStream.h:148-275 | reading it as any other type returns false and leaves the cursor |
| `DataStream.ElementsReadBack` | cpp-serialize/DataStream.h:330-334 | the element loop reads back all elements in order |
| `DataStream.ContainerReadsBack` | cpp-serialize/DataStream.h:321-337 | a written vector or set reads back equal, with the cursor as many bytes past its encoding as it has elements |
| `DataStream.ListReadsAsVector` | cpp-serialize/DataStream.h:310-319 | a written list reads back as a vector and is always refused as a list |
| `DataStream.ItemsReadBack` | cpp-serialize/DataStream.h:120-371 | any sequence of scalars and strings reads back with the cursor at its end, and so does one with containers if only the last item is a container with elements, the cursor then its length too far |
| `DataStream.ContainerMustBeLast` | cpp-serialize/DataStream.h:330-336 | a stream of scalars, strings and containers of either reads back if and only if nothing follows a container with elements, provided no empty container does |
| `DataStream.ElementsTake` | cpp-serialize/DataStream.h:330-334 | on any bytes, the element loop takes each element's own bytes until a refused string stops it for good, and from there on yields empty strings for nothing |
| `DataStream.ItemEndsBeyond` | cpp-serialize/DataStream.h:321-371 | a scalar, string or container with elements that is read from anywhere behind its own start, and yet comes back equal, ends beyond its own end |
| `DataStream.ShiftStays` | cpp-serialize/DataStream.h:321-371 | once the cursor is too far on, what is left at the end of the buffer never reads back |
| `DataStream.EmptyContainerCanRecover` | cpp-serialize/DataStream.h:330-336 | with an empty container behind a full one there are contents for which the stream still reads back, a string's bytes being taken for a negative length |
| `DataStream.ItemTakesRoom` | cpp-serialize/DataStream.h:148-371 | from any buffer and position, an item that comes back took at least its header and its elements' bytes, empty strings excepted, and a container with elements moves the cursor further still |
| `DataStream.DataStream.constructor` | cpp-serialize/DataStream.h:36 | an empty buffer with the cursor at 0 |
| `DataStream.DataStream.Reserve` | cpp-serialize/DataStream.h:120-133 | terminates with room for the new bytes, leaving sufficient capacity alone and otherwise doubling it no further than needed |
| `DataStream.DataStream.WriteBytes` | cpp-serialize/DataStream.h:134-140 | the bytes are appended |
| `DataStream.DataStream.WriteScalar` | cpp-serialize/DataStream.h:142-216 | the scalar's encoding is appended |
| `DataStream.DataStream.WriteText` | cpp-serialize/DataStream.h:226-232 | the string's encoding is appended |
| `DataStream.DataStream.WriteContainer` | cpp-serialize/DataStream.h:277-319 | the container's encoding is appended, elements in iteration order |
| `DataStream.DataStream.WriteItems` | cpp-serialize/DataStream.h:455-510 | chained writes append their encodings in order |
| `DataStream.DataStream.ReadScalar` | cpp-serialize/DataStream.h:148-275 | the value at the cursor with the cursor after it, or false with value and cursor as they were |
| `DataStream.DataStream.ReadText` | cpp-serialize/DataStream.h:233-246 | the string at the cursor; false leaves the variable alone, with the cursor moved only when the length was negative |
| `DataStream.DataStream.ReadElements` | cpp-serialize/DataStream.h:330-334 | the loop reads the elements that the buffer defines at the cursor |
| `DataStream.DataStream.ReadContainer` | cpp-serialize/DataStream.h:321-371 | the elements of the container at the cursor, which ends the length past them, or false and an empty container |
| `Vector.Destroy` | vector/version03/vector.cpp:175-180 | destroys each constructed cell of a range once and touches no other |
| `Vector.UninitializedMove` | vector/version03/vector.cpp:312 | moves elements into raw memory in order, leaving moved-from ones that still need destruction |
| `Vector.MoveDown` | vector/version03/vector.cpp:190-209 | assigns onto constructed cells only and keeps order when elements shift down |
| `Vector.MoveUp` | vector/version03/vector.cpp:250-251 | assigns onto constructed cells only and keeps order when elements shift up, last first |
| `Vector.OpenGap` | vector/version03/vector.cpp:246-254 | shifts the tail up by one and leaves raw memory at the position |
| `Vector.Vector.Reallocate` | vector/version03/vector.cpp:308-319 | contents survive the move to new memory, and the old memory is raw when it is released |
| `Vector.Vector.Reserve` | vector/version03/vector.cpp:162-166 | contents kept, capacity raised to at least what was asked and never lowered |
| `Vector.Vector.ShrinkToFit` | vector/version03/vector.cpp:168-172 | contents kept and no capacity left over |
| `Vector.Vector.Clear` | vector/version03/vector.cpp:175-180 | empty, capacity kept |
| `Vector.Vector.Delete` | vector/version03/vector.cpp:49-52 | every cell is raw when the memory is released |
| `Vector.Vector.EmplaceBack` | vector/version03/vector.cpp:220-228 | the contents gain the element at the end; full storage doubles first |
| `Vector.Vector.Emplace` | vector/version03/vector.cpp:231-260 | the element stands at the position and everything from there on has moved up by one |
| `Vector.Vector.Erase` | vector/version03/vector.cpp:190-197 | the element at the position is gone and the rest is in order |
| `Vector.Vector.EraseRange` | vector/version03/vector.cpp:199-209 | the range is gone and the rest is in order; an empty range changes nothing |
| `Vector.Vector.PopBack` | vector/version03/vector.cpp:262-267 | the last element is gone; on an empty vector nothing happens |
| `Vector.Vector.Resize` | vector/version03/vector.cpp:269-279 | a prefix of the contents, or the contents followed by copies of the value |
| `Vector.Vector.PushAll` | vector/version03/vector.cpp:211-228 | n pushes onto an empty vector move fewer than 2n elements to new memory |

## Left out

- The four step-relation models work on values: an update in place of a shared field is the new value in the next state, and aliasing between C++ objects is not represented.
- LockFreeStack.Linearizable: holds under the no-reuse condition above; copying, exceptions and weaker memory orderings are not modelled.
- LockFreeStack.ReturnsAlone: next to other threads only the whole system progresses, since one thread's CAS may fail for ever.
- LockFreeStack: the contents of freed memory; a read of a deleted node gives an arbitrary node.
- ThreadPool.DestructorReturns: that a fair scheduler takes the steps shown possible, and lets clients out of `enqueue`, is not formalized. Futures, task exceptions and calls to the pool from inside a task are not modelled.
- CThreadPool.CountersHold: only up to shutdown, because after it `threadPoolAdd` unlocks and goes on, and destruction frees memory without joining the workers.
- CThreadPool.FifoHolds: that a queued task is taken in the end is not claimed for pools that can grow (`CThreadPoolSignals.WakeUpLost`), nor is fairness of the scheduler formalized.
- LookupTable.NoDeadlock: some thread can always step; fairness to each waiting thread depends on the lock. `get_map` gathers its locks in index order, as written; the update at the place found is one step, since readers are kept out.
- ConnectPool: SQL, configuration parsing and the waiting time of `getConnection`; `m_maxSize` is read and never used, so there is no upper bound to state. Returning a connection notifies nobody, so a waiting thread may notice it only at its timeout.
- Reactor: payload, partial sends and the contents of `buf`; a connection accepted while the table is full, or whose `fcntl` fails, stays open and unregistered, as in the program.
- MemoryPool: clients' accesses smaller than a word or across two words; element constructors and destructors, the copy constructors (which leave fields unset), and failure of `operator new`.
- StackAlloc: one pool serves one stack, and elements of more than one word.
- Timers: integer overflow of times, and callbacks that schedule timers or have not been set.
- GetLine: a failing `recv` is the end of the stream for good; `size` below 1, for which the program writes outside its buffer.
- DataStream: a read outside the buffer, or use of a value a refused read left unset, is undefined and excluded by the readers' preconditions; overflow of `int` sizes, maps, nested containers, `display`, and the `char *` overload. Floats are their bit patterns.
- DataStream.ContainerMustBeLast: for streams in which an empty container follows one with elements the condition is sufficient (`ItemsReadBack`) but not necessary (`EmptyContainerCanRecover`).
- DataStream.DataStream.ReadContainer: a set is given as the sequence of elements inserted, and compared as a set in `Reread`.
- Vector: allocators, iterators other than as indices, copy and move of whole vectors, `swap`, `at`, exceptions, and arguments that alias the vector's own elements.
- The remaining programs (list, json, xml, ini-parse, logger, array, earlier vector and timer versions, the other thread pools, sockets and CGI): near-duplicates, easy members, or glue around system calls.
