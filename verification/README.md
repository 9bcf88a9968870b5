# Verified models of the concurrent and stateful components

This project models eight small components of a collection of Linux programs and proves what each
of them promises. `dafny verify dfyconfig.toml` checks everything.

Where threads or processes interleave, the component is a machine: a state holding the shared
fields and one control state per thread (the source line it is about to execute), and moves, one
line or system call each, in any order. `Run` gives the state after a list of moves; the theorems
are about every list of moves the machine allows, for any number of threads. Next to each machine
stands the component itself as a class with its fields. Where the source's operations interleave line
by line, the class has a method that executes one line and is proved to do exactly what the machine's
line function does, so the machine's theorems are about the class's code; its whole operations are
proved against what they mean for the contents. Lemmas that require `Inv` of a state are about every
reachable state, because `RunInv` (for the thread pool `InitInv` and `RunKeepsInv`) proves `Inv` of
each of them.

- **Ring queue** (`RingMachine`, `RingProofs`, `RingQueue`). Producers and consumers in a ring
  guarded by two semaphores and two separate mutexes. Every interleaving is a run of a bounded FIFO.
- **Thread pool** (`PoolMachine`, `PoolProofs`, `PoolTheorems`, `PoolCalls`, `ThreadPool`). Workers,
  `Equeue` and `Stop` over one mutex and one condition variable, with spurious wakeups. No wakeup is lost,
  every run with finitely many calls and spurious wakeups is finite and rests only with every
  accepted task executed once, tasks are taken in order, and `Stop` drains the pool and ends it.
- **Singleton** (`Singleton`). The double-checked `GetInstance`.
- **Process pool** (`ProcessMachine`, `ProcessProofs`, `ProcessTheorems`, `ProcessPool`). Pipes, fork,
  inherited descriptors, dispatch in turn, and close-then-wait cleanup in index order.
- **Select and poll servers** (`Kernel`, `SelectModel`, `PollModel`, `SelectServer`, `PollServer`). Two
  event loops over a descriptor table that changes while it is scanned. A world fixes the outcome of
  every system call as a function of the calls before it; given the same world the two servers make
  the same calls for ever.
- **Blocking queue** (`BlockMachine`, `BlockProofs`, `BlockQueue`). One producer, one consumer,
  `if`-guarded waits and a high-water mark. It is free of deadlock exactly from capacity 4 on.
- **Route** (`RouteModel`, `RouteMachine`, `Route`). The chat server's online list and the forwarding
  tasks running beside it: whom each message is sent to, in every interleaving.
- **Dictionary** (`DictModel`, `Dict`). The line parser and first-wins loading.

`Tally` holds the counting arguments over threads, `Modular` the facts about remainders.

Three promises of the code turn out not to hold everywhere; for each the project gives the input and
the exact condition.

- The blocking queue deadlocks for capacities below 4 (`BlockProofs.DeadlockFreeExactlyWhen`).
- `GetInstance` may return a pool whose threads have not been started
  (`Singleton.FastPathMayReturnUnstarted`). All calls of all runs return a started pool if and only if
  there is at most one caller (`Singleton.EveryResultReadyExactlyWhen`); from any reachable state, the
  next call of a caller can return an unstarted pool if and only if there is a second caller and no
  started pool yet (`Singleton.NextCallUnstartedExactlyWhen`). After one call that went through the lock
  has returned every call is safe (`Singleton.ReadyAfterLockedReturn`).
- A message may be forwarded to a user who is not online, while `Forward` handles that user's farewell
  and is between `CheckOnlineUser` and `Offline` (`RouteMachine.StrangerIsSentTo`,
  `RouteMachine.DeviatesExactlyWhen`). A list of messages allows it if and only if one after the first
  is the farewell of a user not online by the ones before it
  (`RouteMachine.StrangerGetsAMessageExactlyWhen`).

Assumptions. Memory is sequentially consistent. Tasks return. `Equeue` and `Stop` are called on a
pool whose running flag has been set. In `10.blockqueue/BlockQueue.hpp` the misspelled unlock and
destroy calls are read as the pthread ones and the stray comma in the constructor is ignored.
`accept` returns an error or a descriptor that is not open. An ip is one `inet_ntoa` writes, so it has
no colon. Pipes carry whole commands. The process pool has at least one child and dispatches a positive number of tasks: with none `NextChannel`
divides by zero, and a count of zero or less makes `ctrlProcess` loop for ever.

## Model

| member | source | states |
|---|---|---|
| RingQueueClass.RingQueue.constructor | 11.sem_cp/RingQueue.hpp:31-38 | an empty ring of the given capacity, all its slots free |
| RingQueueClass.RingQueue.Default | 11.sem_cp/RingQueue.hpp:7-38 | the default ring has five slots and is empty |
| RingQueueClass.RingQueue.PushLine | 11.sem_cp/RingQueue.hpp:40-56 | each line of Push, executed in place, is the machine's step on the ring's value |
| RingQueueClass.RingQueue.PopLine | 11.sem_cp/RingQueue.hpp:58-70 | each line of Pop, executed in place, is the machine's step on the ring's value |
| RingQueueClass.RingQueue.Push | 11.sem_cp/RingQueue.hpp:40-56 | with a free slot and nobody inside, Push appends its argument to the queue, wherever the indices stand |
| RingQueueClass.RingQueue.Pop | 11.sem_cp/RingQueue.hpp:58-70 | with a value present and nobody inside, Pop removes and returns the oldest |
| RingProofs.RunInv | 11.sem_cp/RingQueue.hpp:31-70 | every state any interleaving of any number of threads reaches satisfies the lock, token, index, content and history invariants |
| RingProofs.RefinesFifo | 11.sem_cp/RingQueue.hpp:40-70 | the writes and reads of every interleaving, in order, are a run of a FIFO of capacity cap, each read with the value that Pop will return |
| RingProofs.ReadsFollowWrites | 11.sem_cp/RingQueue.hpp:40-70 | values read are a prefix of values written, at most cap behind; every pushed value is written or carried, every read one returned or about to be |
| RingProofs.NeverTheSameSlot | 11.sem_cp/RingQueue.hpp:45-69 | although Push and Pop hold different mutexes, the slot about to be written differs from the slot about to be read and holds no unread value |
| RingProofs.AlwaysDefined | 11.sem_cp/RingQueue.hpp:47-68 | in every run no line a thread comes to indexes outside the ring or divides by a zero capacity |
| RingProofs.MutualExclusion | 11.sem_cp/RingQueue.hpp:46-67 | in every run no two threads are in Push's critical section, and no two in Pop's |
| RingProofs.TokenConservation | 11.sem_cp/RingQueue.hpp:31-70 | free slots, announced values and tokens held by threads add up to cap in every reachable state |
| RingProofs.StuckExactlyWhen | 11.sem_cp/RingQueue.hpp:45-69 | no call in progress can move if and only if all of them are Pushes waiting for space or all are Pops waiting for data |
| RingProofs.NoDeadlock | 11.sem_cp/RingQueue.hpp:40-70 | with a Push and a Pop in progress some thread can take its next line |
| RingProofs.NothingLostOrDuplicated | 11.sem_cp/RingQueue.hpp:40-70 | when no call is in progress the arguments of all Pushes are the results of all Pops and the values still in the ring, with multiplicity |
| RingProofs.CallsCounted | 11.sem_cp/RingQueue.hpp:40-70 | in every run the pushed values are the arguments of the calls of Push, and each call of Pop has returned a value or is in progress |
| RingProofs.EveryCallAnswered | 11.sem_cp/RingQueue.hpp:40-70 | when all calls of a run have returned, the arguments of its Pushes are the results of its Pops, one for each, and the values still in the ring |
| RingProofs.ValuesPassThrough | 11.sem_cp/RingQueue.hpp:40-70 | for any values and any capacity there is a run that pushes and pops each of them, in order |
| RingProofs.IdleMeansQuiescent | 11.sem_cp/RingQueue.hpp:40-70 | whenever all threads are outside, the ring is in the state the sequential operations start from, holding the values written and not read |
| ThreadPoolClass.ThreadPool.constructor | Socket/3. chat_server/ThreadPool.hpp:107-112 | not running, nobody asleep, nothing queued |
| ThreadPoolClass.ThreadPool.WorkerStep | Socket/3. chat_server/ThreadPool.hpp:55-87 | each line of HandlerTask, executed in place, is the machine's step on the pool's value |
| ThreadPoolClass.ThreadPool.ClientStep | Socket/3. chat_server/ThreadPool.hpp:117-158 | each line of Equeue and Stop, executed in place, is the machine's step on the pool's value, and wakes whom the machine wakes |
| ThreadPoolClass.ThreadPool.HandlerTask | Socket/3. chat_server/ThreadPool.hpp:55-87 | a worker alone with the pool executes the whole queue in order, then sleeps if the pool runs and quits if not |
| ThreadPoolClass.ThreadPool.Equeue | Socket/3. chat_server/ThreadPool.hpp:148-158 | a running pool appends the task and signals if the counter is positive; a stopped one drops it |
| ThreadPoolClass.ThreadPool.Stop | Socket/3. chat_server/ThreadPool.hpp:117-124 | clears the running flag, changes nothing else, and wakes everyone |
| PoolTheorems.InitInv | Socket/3. chat_server/ThreadPool.hpp:98-112 | the started pool with any number of workers satisfies the invariant |
| PoolTheorems.RunKeepsInv | Socket/3. chat_server/ThreadPool.hpp:55-158 | every interleaving of workers, Equeue, Stop, signals and spurious wakeups keeps it |
| PoolTheorems.CounterIsExact | Socket/3. chat_server/ThreadPool.hpp:60-68 | with the mutex free the sleeper counter is the number of workers blocked or woken and not yet back in the lock |
| PoolTheorems.NoLostWakeup | Socket/3. chat_server/ThreadPool.hpp:148-158 | with the mutex free and the pool running, if a worker is blocked there are no more queued tasks than woken workers |
| PoolTheorems.TaskNeverStranded | Socket/3. chat_server/ThreadPool.hpp:60-68 | while the pool runs and a task is queued, some worker or the holder of the mutex can take its next line |
| PoolTheorems.EveryRunIsFinite | Socket/3. chat_server/ThreadPool.hpp:55-158 | the length of any run of n workers is bounded by 6n, 7n + 14 for each call and 8 for each spurious wakeup, whether Stop is called or not |
| PoolTheorems.RestsOnlyWhenDone | Socket/3. chat_server/ThreadPool.hpp:55-158 | a state in which only new calls or spurious wakeups can happen has an empty queue, every accepted task executed exactly once, and all workers asleep if the pool runs, gone if not |
| PoolTheorems.TakenInOrder | Socket/3. chat_server/ThreadPool.hpp:77-83 | in every run the accepted tasks are the taken ones followed by the queued ones, and each taken task is in one worker's hands or executed |
| PoolTheorems.QuitIsFinal | Socket/3. chat_server/ThreadPool.hpp:70-75 | once a worker has quit, whatever happens afterwards the queue is and stays empty, all accepted tasks are taken and none is accepted |
| PoolTheorems.NothingAcceptedAfterStop | Socket/3. chat_server/ThreadPool.hpp:117-124 | once clear, the flag stays clear and no later call has a task accepted |
| PoolTheorems.AllQuitAllExecuted | Socket/3. chat_server/ThreadPool.hpp:57-86 | when all workers have quit, every accepted task has been executed exactly once |
| PoolTheorems.BroadcastStops | Socket/3. chat_server/ThreadPool.hpp:117-124 | executing Stop's broadcast leaves the flag clear and no worker blocked |
| PoolTheorems.StoppedFromBroadcastOn | Socket/3. chat_server/ThreadPool.hpp:117-124 | in every run, from the move that executes a Stop call's broadcast on, the flag is clear and no worker blocks again, and what follows is bounded by the work left then and the later calls |
| PoolTheorems.StopTerminates | Socket/3. chat_server/ThreadPool.hpp:57-124 | from then on no worker blocks again and the length of any run is bounded by the work left and the number of further calls |
| PoolTheorems.StoppedNeverStuck | Socket/3. chat_server/ThreadPool.hpp:57-124 | while a worker has not quit, a worker or the holder of the mutex can take its next line |
| PoolTheorems.StopDrainsEverything | Socket/3. chat_server/ThreadPool.hpp:57-124 | a run after Stop can come to rest only with all workers gone and every accepted task executed once |
| PoolCalls.EveryCallAccounted | Socket/3. chat_server/ThreadPool.hpp:148-158 | in every run the tasks Equeue was called with are those accepted, those whose test found the flag clear and those of calls not yet at the queue, with multiplicity |
| PoolCalls.FlagFollowsCalls | Socket/3. chat_server/ThreadPool.hpp:98-124 | in every run the flag is set until Stop is called, and afterwards clear or about to be cleared |
| PoolCalls.EveryCallAnsweredAtRest | Socket/3. chat_server/ThreadPool.hpp:55-158 | a run at rest has executed every task Equeue was called with exactly once but for those refused after Stop; without Stop all of them; its workers are asleep if Stop was not called and gone if it was |
| PoolCalls.ReachRest | Socket/3. chat_server/ThreadPool.hpp:55-158 | from every reachable state the pool can come to rest without a further call |
| PoolCalls.TasksGetExecuted | Socket/3. chat_server/ThreadPool.hpp:55-158 | for any tasks there is a run that enqueues and executes them all, and one that then calls Stop and ends with all workers gone |
| Singleton.Registry.CallerStep | Socket/3. chat_server/ThreadPool.hpp:88-146 | each line of GetInstance, Init and Start, executed in place, is the machine's step on the static fields and pools |
| Singleton.Registry.GetInstance | Socket/3. chat_server/ThreadPool.hpp:127-146 | the first call constructs one pool with all its threads started; later calls return it and construct nothing |
| Singleton.Registry.InitPool | Socket/3. chat_server/ThreadPool.hpp:88-97 | creates the pool's threads, starting none |
| Singleton.Registry.StartPool | Socket/3. chat_server/ThreadPool.hpp:98-106 | sets the flag and starts every thread created |
| Singleton.RunInv | Socket/3. chat_server/ThreadPool.hpp:127-146 | every interleaving of any number of callers keeps the lock and construction invariants |
| Singleton.OnePoolForAll | Socket/3. chat_server/ThreadPool.hpp:127-146 | at most one pool is ever constructed, all calls return it, and a call that went through the lock returns it completely started |
| Singleton.EveryCallReturns | Socket/3. chat_server/ThreadPool.hpp:127-146 | in every run each call has returned one result or is in progress |
| Singleton.NeverStuck | Socket/3. chat_server/ThreadPool.hpp:127-146 | while a call is in progress it or the caller in the lock can take its next line |
| Singleton.EveryResultReadyExactlyWhen | Socket/3. chat_server/ThreadPool.hpp:127-146 | every call of every run of n callers returns a completely started pool if and only if n is at most 1 |
| Singleton.NextCallUnstartedExactlyWhen | Socket/3. chat_server/ThreadPool.hpp:127-146 | in every reachable state, the next call of a caller can return a pool not yet started if and only if there is a second caller and no started pool |
| Singleton.ReadyAfterLockedReturn | Socket/3. chat_server/ThreadPool.hpp:127-146 | once a call that went through the lock has returned, the pool is started and all calls returning from then on return it started |
| Singleton.FastPathMayReturnUnstarted | Socket/3. chat_server/ThreadPool.hpp:129-145 | for any two or more callers, a run in which the first test lets caller 1 return a pool whose threads have not been started |
| Singleton.PublishedPoolReadyExactlyWhen | Socket/3. chat_server/ThreadPool.hpp:129-138 | in every run the published pool is unready exactly while a caller in the lock has still a line of Init or Start to go through |
| ProcessPoolClass.ProcessPool.CreateChannelAndSub | 2.ProcessPool/ProcessPool.cc:76-122 | after any number of rounds the parent holds exactly the write ends, and each child reads its own pipe and holds no write end |
| ProcessPoolClass.ProcessPool.AddChannel | 2.ProcessPool/ProcessPool.cc:83-119 | one round adds one channel and one child and keeps that ownership |
| ProcessPoolClass.ProcessPool.SetUpChild | 2.ProcessPool/ProcessPool.cc:89-107 | the child closes all it inherited but its read end, which becomes its standard input |
| ProcessPoolClass.ProcessPool.NextChannel | 2.ProcessPool/ProcessPool.cc:124-131 | returns the next channel in turn and advances modulo the number of channels |
| ProcessPoolClass.ProcessPool.CtrlProcess | 2.ProcessPool/ProcessPool.cc:132-164 | the k-th task goes to channel (start + k) mod n, and each pipe gets its channel's tasks in order |
| ProcessPoolClass.ProcessPool.Work | 2.ProcessPool/ProcessPool.cc:187-204 | with no write end left the child executes everything in its pipe in order and exits |
| ProcessPoolClass.ProcessPool.CleanUpChannel | 2.ProcessPool/ProcessPool.cc:165-185 | closing and waiting in index order ends, with no pipe end left in the parent and each child having executed what was in its pipe |
| ProcessProofs.RunInv | 2.ProcessPool/ProcessPool.cc:76-204 | every interleaving of parent and children keeps ownership and deliveries, whatever free descriptors pipe returns |
| ProcessTheorems.PipeOwnership | 2.ProcessPool/ProcessPool.cc:81-120 | once the children have closed their inheritance, pipe p's write end is open in the parent alone until channel p is closed, its read end in child p alone |
| ProcessTheorems.AwaitProgress | 2.ProcessPool/ProcessPool.cc:175-179 | while the parent waits for child j, some child can take its next step |
| ProcessTheorems.NeverStuck | 2.ProcessPool/ProcessPool.cc:76-204 | until the parent is done some process can take its next step |
| ProcessTheorems.EveryRunIsFinite | 2.ProcessPool/ProcessPool.cc:76-204 | the number of steps of any interleaving is bounded from the start |
| ProcessTheorems.EveryRunCompletes | 2.ProcessPool/ProcessPool.cc:124-204 | a run that cannot go on has all children exited and waited for, and child k has executed exactly the commands number k, k + num, k + 2 num and so on of those selected, in order |
| ProcessTheorems.RunInTurn | 2.ProcessPool/ProcessPool.cc:124-164 | in every interleaving the commands dispatched are those selected, in order, dispatch k goes to channel k mod num, and each pipe is sent its share |
| ProcessTheorems.SentAsSelected | 2.ProcessPool/ProcessPool.cc:136-146 | in every run the commands dispatched, and the one being sent, are what SelectTask chose, in that order |
| ProcessTheorems.ByChannelIsShare | 2.ProcessPool/ProcessPool.cc:124-146 | channels taking turns, channel k gets every n-th command from number k on, and no other |
| ProcessTheorems.CommandsGetExecuted | 2.ProcessPool/ProcessPool.cc:76-204 | for any commands there is a run that selects them, ends, and has each child execute its share |
| ProcessTheorems.LoadIs | 2.ProcessPool/ProcessPool.cc:124-131 | after N dispatches a channel has had N / n, one more for the first N mod n channels |
| ProcessTheorems.RoundRobinIsFair | 2.ProcessPool/ProcessPool.cc:124-131 | the loads of any two channels differ by at most one |
| ProcessTheorems.LoadsAddUp | 2.ProcessPool/ProcessPool.cc:124-131 | the loads of all channels add up to the number of dispatches |
| SelectServerClass.SelectServer.InitServer | IO/SelectServer/SelectServer.hpp:21-28 | the listener in slot 0, every other slot free |
| SelectServerClass.SelectServer.Accepter | IO/SelectServer/SelectServer.hpp:30-61 | the search loop puts the connection into the first free slot, or closes it if there is none |
| SelectServerClass.SelectServer.HandlerIO | IO/SelectServer/SelectServer.hpp:63-97 | one recv, then one send, or one close and the slot freed |
| SelectServerClass.SelectServer.HandlerEvent | IO/SelectServer/SelectServer.hpp:99-122 | the scan over the table it changes does what the model's pass does |
| SelectServerClass.SelectServer.BuildSet | IO/SelectServer/SelectServer.hpp:129-144 | the set is exactly the occupied slots' descriptors and max_fd is its largest |
| SelectServerClass.SelectServer.Round | IO/SelectServer/SelectServer.hpp:125-167 | one iteration is the model's round: nfds cuts off no watched descriptor |
| SelectServerClass.SelectServer.Loop | IO/SelectServer/SelectServer.hpp:123-168 | any number of iterations from InitServer on leave the table and the calls of the model's loop |
| SelectModel.FirstFree | IO/SelectServer/SelectServer.hpp:45-54 | the least free position from pos on, or the table's size |
| SelectModel.RoundReads | IO/SelectServer/SelectServer.hpp:99-168 | one iteration keeps the table, accepts once if the listener is ready and calls recv on the ready clients in slot order, and on nothing else |
| SelectModel.ReadyClients | IO/SelectServer/SelectServer.hpp:102-121 | those are the ready descriptors other than the listener, each once |
| SelectModel.AcceptedIsNotReady | IO/SelectServer/SelectServer.hpp:108-120 | a connection accepted in a pass is not among those the pass reads |
| SelectModel.LoopKeepsTable | IO/SelectServer/SelectServer.hpp:21-97 | after any run slot 0 is the listener, entries are distinct and exactly the open descriptors, and every recv, send and close was on an open client |
| SelectModel.ServerIsNeverFull | IO/SelectServer/SelectServer.hpp:44-97 | if descriptors are numbered below gnum, every run finds a free slot for a new connection, and each close in it comes straight after a recv on the same descriptor without data, never after an accept |
| SelectModel.EveryRequestAnswered | IO/SelectServer/SelectServer.hpp:63-97 | in every run a recv with data is followed at once by a send on the same descriptor, any other recv by its close, and there is no other send |
| SelectModel.EveryWaitWatchesOpen | IO/SelectServer/SelectServer.hpp:129-150 | in every run each select is given exactly the descriptors open at that moment |
| PollServerClass.PollServer.InitServer | IO/Pollserver/PollServer.hpp:21-32 | the listener in slot 0 asking for POLLIN, every other slot empty |
| PollServerClass.PollServer.Accepter | IO/Pollserver/PollServer.hpp:34-68 | the search loop fills the first free slot's fd and events, or closes the connection if there is none |
| PollServerClass.PollServer.HandlerIO | IO/Pollserver/PollServer.hpp:70-108 | one recv, then one send, or one close and the slot emptied |
| PollServerClass.PollServer.HandlerEvent | IO/Pollserver/PollServer.hpp:110-133 | the scan over the table it changes does what the model's pass does |
| PollServerClass.PollServer.Round | IO/Pollserver/PollServer.hpp:137-157 | one iteration is the model's round |
| PollServerClass.PollServer.Loop | IO/Pollserver/PollServer.hpp:134-158 | any number of iterations from InitServer on leave the table and the calls of the model's loop |
| PollModel.RoundMatches | IO/Pollserver/PollServer.hpp:34-158 | from matching tables one iteration of each server makes the same calls and leaves matching tables |
| PollModel.Lockstep | IO/Pollserver/PollServer.hpp:21-158 | in the same world both servers have the same descriptors in the same slots and have made the same calls after any number of iterations; an empty poll slot has no event bits |
| PollModel.ServerIsNeverFull | IO/Pollserver/PollServer.hpp:51-108 | if descriptors are numbered below gnum, every run finds a free slot, and each close in it comes straight after a recv on the same descriptor without data |
| PollModel.EveryRequestAnswered | IO/Pollserver/PollServer.hpp:70-158 | in every run each recv is answered in the same way, and each poll watches exactly the open descriptors |
| BlockQueueClass.BlockQueue.constructor | 10.blockqueue/BlockQueue.hpp:10-17 | an empty queue with water marks at one and two thirds of the capacity |
| BlockQueueClass.BlockQueue.Default | 10.blockqueue/BlockQueue.hpp:8-17 | the default queue has capacity five and high-water mark three |
| BlockQueueClass.BlockQueue.PushLine | 10.blockqueue/BlockQueue.hpp:33-44 | each line of push, executed in place, is the machine's step, and signals the other side exactly on its signal line |
| BlockQueueClass.BlockQueue.PopLine | 10.blockqueue/BlockQueue.hpp:19-32 | each line of pop, executed in place, is the machine's step, and signals the other side exactly on its signal line |
| BlockQueueClass.BlockQueue.Push | 10.blockqueue/BlockQueue.hpp:33-44 | a full queue blocks the caller and stays as it is, otherwise the value goes to the end and the consumer is signalled |
| BlockQueueClass.BlockQueue.Pop | 10.blockqueue/BlockQueue.hpp:19-32 | an empty queue blocks the caller, otherwise the oldest value comes out and more than high-water values left signal the producer |
| BlockProofs.RunInv | 10.blockqueue/BlockQueue.hpp:19-44 | every interleaving without spurious wakeups keeps the lock, size, wakeup and history invariants |
| BlockProofs.SafeFifo | 10.blockqueue/BlockQueue.hpp:19-44 | for every capacity: never more than maxcap values, never a pop of an empty queue, values out are the first ones in, in order |
| BlockProofs.CallsCounted | 10.blockqueue/BlockQueue.hpp:19-44 | in every run, spurious wakeups included, the arguments of push in call order are the values put in and the one still held, and each pop has taken a value or still waits for one |
| BlockProofs.PopsReturnPushes | 10.blockqueue/BlockQueue.hpp:19-44 | without spurious wakeups the arguments of push, in call order, are the results of pop, the values queued and the one still held |
| BlockProofs.DeadlockFreeExactlyWhen | 10.blockqueue/BlockQueue.hpp:15-43 | some interleaving deadlocks if and only if the capacity is below 4 |
| BlockProofs.DeadlockBelowFour | 10.blockqueue/BlockQueue.hpp:19-44 | the run that deadlocks a smaller queue: fill, block the producer, drain unsignalled, block the consumer |
| BlockProofs.SpuriousWakeupOverflows | 10.blockqueue/BlockQueue.hpp:36-41 | with a spurious wakeup the producer pushes into a full queue, whatever the capacity |
| BlockProofs.SpuriousWakeupUnderflows | 10.blockqueue/BlockQueue.hpp:22-26 | with a spurious wakeup the consumer reads the front of an empty queue |
| RouteClass.Route.CheckOnlineUser | Socket/3. chat_server/Route.hpp:25-38 | the scan appends the user exactly if no entry is equal |
| RouteClass.Route.Offline | Socket/3. chat_server/Route.hpp:41-54 | the scan erases the first equal entry and nothing else |
| RouteClass.Route.ForwardHelper | Socket/3. chat_server/Route.hpp:56-66 | sends one datagram to each user online, in list order, reading "[ip:port]# text" with the message's sender and text |
| RouteClass.Route.Forward | Socket/3. chat_server/Route.hpp:68-83 | the sender is online afterwards exactly if the text is neither "QUIT" nor "Q", nobody else comes or goes, and one task with the message is handed to the pool |
| RouteModel.OnlineInJoinOrder | Socket/3. chat_server/Route.hpp:25-77 | after any history the list has no duplicate, holds exactly the users whose latest text is neither "QUIT" nor "Q", in the order of their last joining |
| RouteModel.FarewellLeaves | Socket/3. chat_server/Route.hpp:71-77 | "QUIT" and "Q" take their sender off the list, every other text leaves him on it, and nobody else is touched |
| RouteModel.PayloadSays | Socket/3. chat_server/Route.hpp:59 | the payload is the bracketed ip and port, then "]# ", then the text |
| RouteModel.DecimalReads | Socket/3. chat_server/InetAddr.hpp:39-42 | the port's digits read as a decimal number give the port, without leading zero |
| RouteModel.PayloadReads | Socket/3. chat_server/Route.hpp:59 | a separate reader recovers the sender's ip and port and the text from any payload |
| RouteModel.SentExactlyOnce | Socket/3. chat_server/Route.hpp:59-65 | a run of the task sends one datagram to each user on a list without duplicates and none to anyone else, each with sender and full text |
| RouteMachine.EveryRun | Socket/3. chat_server/Route.hpp:25-83 | with workers running tasks between any two critical sections, the list is the history's, messages are enqueued in order, and each is queued or forwarded exactly once |
| RouteMachine.EveryDelivery | Socket/3. chat_server/Route.hpp:25-83 | in every run each task was sent to exactly the users online after some number of messages, its own among them, and to a stranger if one was saying farewell next; those numbers never decrease |
| RouteMachine.WhoGetsIt | Socket/3. chat_server/Route.hpp:56-66 | of each delivery in every run a user gets its payload exactly once if his latest message by then was no farewell or he is that stranger, otherwise nothing |
| RouteMachine.DeviatesExactlyWhen | Socket/3. chat_server/Route.hpp:71-77 | in every run the list a task would be sent to differs from the users online by the messages exactly while a user who was not online is between CheckOnlineUser and Offline |
| RouteMachine.StrangerGetsAMessageExactlyWhen | Socket/3. chat_server/Route.hpp:68-83 | messages allow such a task if and only if one after the first is the farewell of a user not online by the ones before it |
| RouteMachine.StrangerIsSentTo | Socket/3. chat_server/Route.hpp:68-83 | a run in which a message goes to a user online by no prefix of the messages |
| RouteMachine.WhenQuiet | Socket/3. chat_server/Route.hpp:68-83 | with nothing in progress every message received has been forwarded exactly once |
| DictClass.Dict.constructor | Socket/2. dict_server/Dict.hpp:51-54 | the dictionary is the one the file's lines define |
| DictClass.Dict.LoadDict | Socket/2. dict_server/Dict.hpp:18-48 | the loop over the lines builds the model's dictionary |
| DictClass.Dict.Translate | Socket/2. dict_server/Dict.hpp:55-61 | the entry for the word, or "None" if it is empty or unknown |
| DictModel.LinesAre | Socket/2. dict_server/Dict.hpp:27-29 | the lines contain no newline, and joined with a newline after each they are the file, or the file with its missing last newline |
| DictModel.LinesOfUnlines | Socket/2. dict_server/Dict.hpp:27-29 | any lines written with a newline after each are read back |
| DictModel.ParseLineIs | Socket/2. dict_server/Dict.hpp:31-43 | a line is an entry if and only if it is a nonempty key, ": " and a nonempty value, with no earlier ": " |
| DictModel.FindSep | Socket/2. dict_server/Dict.hpp:33-35 | the first position of the separator, or the line's length if there is none |
| DictModel.FirstValidLineWins | Socket/2. dict_server/Dict.hpp:27-45 | for any lines a word is in the dictionary exactly if some line defines it, with the value on the first such line |
| DictModel.RoundTrip | Socket/2. dict_server/Dict.hpp:18-61 | printing distinct entries as lines and loading them makes Translate return each value and "None" for every other word |

## Left out

- Weak memory, timing, fairness of the scheduler, logging and printing. Progress is stated as enabled steps and decreasing measures.
- Errors of the thread and semaphore calls (an interrupted sem_wait, a failing pthread_create) and the destructors.
- RingQueueClass.RingQueue.Push: the whole operation is proved for a caller that need not wait; waiting and other threads are in the machine.
- RingQueueClass.RingQueue.Pop: as for Push.
- BlockQueueClass.BlockQueue.Push: up to the point where the caller blocks; being woken is in the machine.
- BlockQueueClass.BlockQueue.Pop: as for Push.
- ThreadPoolClass.ThreadPool.Stop: in the class, waking is an out-parameter; which workers wake, and that they have to take the mutex again, is in the machine.
- ThreadPoolClass.ThreadPool.HandlerTask: stands for a worker no other thread interrupts, up to its first wait; WorkerStep has every other case.
- ThreadPoolClass.ThreadPool.Equeue: stands for a call that finds the mutex free; ClientStep has every other case.
- Singleton.Registry.GetInstance: stands for a call that finds the mutex free; CallerStep has every other case.
- Integer widths: indices, counters and semaphore values are bounded by the capacity or the number of threads, so int does not overflow; the numbers of commands and tasks are not bounded.
- Failure of pipe (the parent exits) and of fork (the source records a channel with process id -1), running out of descriptors.
- ProcessPoolClass.ProcessPool.CtrlProcess: pipes have no capacity here; the machine has one and lets the parent block on a full pipe. A count of zero or less, for which the source loops for ever, is excluded.
- ProcessPoolClass.ProcessPool.Work: a child that is waited for runs to its end at once; the machine has every other order.
- The random choice of a task and what the tasks print: the command is a parameter.
- SelectServerClass.SelectServer.Loop: a given number of iterations stands for the endless loop, and descriptors are below FD_SETSIZE, outside which FD_SET is undefined. PollServer.Loop likewise, without that bound.
- The contents of what is received and the HTTP reply that is sent; a partial send.
- BlockQueue with several producers or consumers: the source's if-guarded waits are meant for one of each.
- Several threads calling Forward at once: the server has one receiving thread. Opening the dictionary file and exiting if it cannot be opened.
- Socket, bind and listen wrappers, UDP and TCP clients, address conversion, Log, LockGuard, Daemon, Shm, named pipes, the command server, the epoll servers (unfinished), the simpler thread pools, and the signal and thread demos: system-call plumbing without a deep invariant.
