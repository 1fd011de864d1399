# Verification model of inference-router

This project models the concurrent core of the router in Dafny and proves what its drain protocol, its
connection pools, its load balancing and its framing promise, over every run and every interleaving.

## How it is built

Each concurrent component is a state machine: `Enabled(s, e)` says when a step may happen, `Apply(s, e)` what it
does, and `Valid`/`Final` extend that to whole runs. One critical section, one atomic counter access or one
system call is one step. Condition variables are sets of sleeping and notified waiters: `notify_one` must
pick a sleeper if there is one (`wake` says which), and sleepers may stir without being notified. Every
invariant is proved for the initial state, for every step, and so for every run.

The code that works by changing fields and looping is also there in that form, as classes and methods with loops,
proved against the functions the machines use.

| file | models |
|---|---|
| `Counting.dfy` | counting and summing over sequences of threads, connections and tasks |
| `ThreadPool.dfy` | the bounded task queue and its workers |
| `BackendPool.dfy`, `BackendPoolInvariants.dfy`, `BackendPoolTheorems.dfy` | one backend's connection pool and its reaper |
| `Selection.dfy`, `BackendSet.dfy` | weighted least-connections selection and the multi-backend front |
| `Wire.dfy`, `Stream.dfy` | length-prefixed framing, byte order, the blocking read and write loops, plain and TLS |
| `Handler.dfy` | one request from the queue to the counters |
| `Router.dfy`, `RouterInvariants.dfy`, `RouterTheorems.dfy`, `RouterDrain.dfy` | acceptor, queue, workers, counters and main's shutdown |
| `Threads.dfy` | main's and the acceptor's own loops, and that they are paths of the router machine |
| `Conversation.dfy`, `Traffic.dfy`, `TrafficInvariants.dfy` | the bytes on every backend connection, with the pools, the reapers' pings and the backends |
| `Milestones.dfy` | points every client passes at most once: its request is read, it is answered |
| `System.dfy`, `SystemInvariants.dfy`, `SystemTheorems.dfy`, `SystemProgress.dfy` | the router and the traffic as one machine, end to end |

## Main results

- End to end: in every run of the whole router each reply delivered to a client is the backend's own answer to the
  request read from that client, no client is answered twice, no answer goes to two clients, and at the end the
  requests counted completed are exactly the replies delivered (`SystemTheorems.EveryClientGetsItsOwnAnswer`,
  `SystemTheorems.ClientsAtExit`). The only assumption on a backend is that it answers complete request
  frames in order with one frame each; it may be slow, silent or close at any point.
- Drain: no accepted request is lost however the poll loop ends (`RouterTheorems.NothingLostAtExit`), because
  `ThreadPool::stop` drains the queue; `in_flight == 0` alone would not do. From the stop flag on every run is finite and
  can only end with main (`RouterDrain.DrainEnds`).
- Progress: whatever the backends and the other threads have done, a worker can bring its request to the end by steps of its
  own, if need be by giving up on what it waits for (`SystemProgress.NoRequestIsStuck`), and the drain bound carries over to
  the whole router (`SystemProgress.DrainEnds`).
- Connections: each is in exactly one place at every moment and closed at most once; the sweep is an exact prefix cut; shutdown
  is final exactly under a stated condition.
- Load: the scan is a leftmost rational minimum, and its picks meet the proportional-share bounds in concurrent runs.
- Framing: what one end writes, in any fragments, plain or TLS, the other end reads back.

## Where the code and its documentation differ

The model follows the code.

- docs/shutdown.md:38 says the pool stops without draining; src/main.cpp:282 calls `stop`, which drains.
- docs/pool.md:86-90 says selection is unlocked; src/backend_set.cpp:64-66 picks and bumps under a mutex.
- docs/pool.md:13 calls `max_size` a hard upper bound. It is one exactly when no connection is ever pinged (`CapacityIff`): the health
  check is off, or a limit is negative so that nothing survives a sweep. Otherwise the reaper takes the idle list away from
  the count, and after n sweeps there can be n + 1 times `max_size` connections, for every size (`CapacityBoundAttained`).
- docs/shutdown.md:34, src/main.cpp:274 and src/metrics.h:14-16 say that only the grace deadline leads to a drop.
  `DropWithoutDeadline` gives a run in which a queued task is counted as dropped without it (and is answered all the same), and
  `DropPossibleIff` the exact condition.
- docs/pool.md:84-85 calls the cross-multiplication safe for weights up to 2^32. For given limits on loads and weights it is
  safe exactly when the product of the limits fits 64 bits (`AlwaysLeftmostIff`); for weights up to 2^32 that means
  loads below 2^32 (`SafeBelowHalfWord`).
- `created` is reset on every release (src/backend_pool.cpp:77), so `max_lifetime` measures idle time as well; the sweep
  uses the smaller of the two limits.
- `min_idle` is clamped (src/backend_pool.cpp:14) and never consulted.
- The health check is on by default (src/backend_pool.h:37) and main keeps the default, so main's own configuration is one
  that pings. The results that need it not to ping say so, and each of them comes as an if-and-only-if over configurations:
  `CapacityIff`, `NoneStrandedIff`, `NoLeakIff`.

## Model

| member | source | states |
|---|---|---|
| `SystemTheorems.EveryClientGetsItsOwnAnswer` | src/handler.cpp:174-310 | in every reachable state of the whole router: no client is read from twice; completed plus replied-but-untallied equals replies delivered; the request of every reply was read from that very client, the exchange was made on its behalf, and the response is the backend's answer to it; clients and answers are each used once |
| `SystemTheorems.ClientsAtExit` | src/main.cpp:256-288 | at the end of main completed equals replies delivered, completed + errored equals accepted, and every client was closed exactly once |
| `SystemTheorems.NobodyMeetsShutdown` | src/main.cpp:281-285 | in main's order no worker is in a pool, or holds a connection of it, once that pool is shut |
| `SystemTheorems.BackendsAtExit` | src/backend_set.cpp:91-95 | once main is done and a pool's reaper has exited, nothing is in use and every connection dialled was closed exactly once or is left in the idle list; always closed where nothing is pinged |
| `SystemInvariants.StepInv` | src/handler.cpp:174-310 | every step of the joint machine keeps router and traffic invariants, the fit of stage, phase and job, the account of replies, and the order of shutdown |
| `SystemProgress.NoRequestIsStuck` | src/handler.cpp:174-310 | from every reachable state every worker can bring its request to the end by steps of its own alone, if need be by giving up on what it waits for |
| `SystemProgress.OwnStepLowers` | src/handler.cpp:174-310 | every step of its own, inside the pool, on the connection or towards the client, brings a request nearer to its end |
| `SystemProgress.RunProjects` | src/handler.cpp:174-310 | seen from the router, every run of the whole is a run of the router machine |
| `SystemProgress.DrainEnds` | src/main.cpp:281-288 | from the stop flag on the steps of workers and main in any run of the whole are bounded by the work left, and until main has finished some worker or main can go on |
| `Milestones.OnceEachGrows` | src/handler.cpp:174-239 | a worker that takes its client past a point such as the reply takes a client past it that has not been there before |
| `TrafficInvariants.ResponsePairing` | src/handler.cpp:189-238 | over every run with timeouts, partial writes and reads and health sweeps: idle and newly borrowed connections are at a frame boundary with nothing outstanding, every reply read is paired with its request, none is read twice |
| `TrafficInvariants.StepInv` | src/backend_pool.cpp:119-175 | every step of borrowers, reapers, pings and backends keeps idle and checked connections clean and each job's view of its connection |
| `TrafficInvariants.HeldAlone` | src/backend_pool.cpp:33-55 | a connection in a borrower's hand is in no idle list, no list of the reaper and no other hand, and has not been closed |
| `Conversation.SendWhole` | src/handler.cpp:200-210 | writing one whole frame on a clean connection leaves exactly that request pending |
| `Conversation.HearAnswer` | src/handler.cpp:212-223 | a frame decoded from a connection with one pending request is the answer to that request, and the connection is clean again |
| `Conversation.UnreadPending` | src/connection.cpp:122-137 | on a pending connection the unread bytes are none or exactly the one answer |
| `RouterTheorems.Conservation` | src/main.cpp:228-285 | in every reachable state accepted = completed + errored + in the acceptor's hand + queued + popped and untallied; in_flight counts the requests between increment and decrement; each client descriptor is in one place |
| `RouterTheorems.NothingLostAtExit` | src/main.cpp:262-285 | once the workers are joined, by zero or by deadline: all accepted requests tallied, all clients closed once, queue empty, every client through the handler exactly once and taken to it in order of arrival |
| `RouterTheorems.HandOffNeverFails` | src/main.cpp:228-240 | the failed-submit branch is unreachable, the pool is stopped only after the acceptor has exited, and the clients submitted are all that arrived but one in hand, in order, each taken by a worker in that order and once |
| `RouterTheorems.DropsBoundedAndExplained` | src/main.cpp:266-279 | dropped is at most the configured number of workers, and zero unless the deadline passed or a task was queued or popped and uncounted when main read zero |
| `RouterTheorems.DropsExactlyWhatWasRead` | src/main.cpp:275-278 | after any run that has brought main from its last reading of in_flight to stopping the pool, dropped is exactly what it read |
| `RouterTheorems.AsConfigured` | src/main.cpp:197-201 | in every reachable state there are as many workers and as deep a queue as configured, zero counting as one |
| `RouterTheorems.DropPossibleIff` | src/main.cpp:268-279 | after main reads zero a drop is still possible if and only if some task was queued, or popped and not yet counted |
| `RouterTheorems.DropWithoutDeadline` | src/main.cpp:271-278 | a run with one worker that counts a drop although the deadline never passed |
| `RouterInvariants.StepInv` | src/main.cpp:228-285 | every step of acceptor, workers, handler and main keeps conservation, ownership of descriptors and the order of shutdown |
| `RouterInvariants.OfferOutcome` | src/thread_pool.cpp:20-34 | before the stop flag the acceptor's submit pushes or blocks, and is never refused |
| `RouterDrain.DrainEnds` | src/thread_pool.cpp:36-48 | from the stop flag on every run of the router machine is at most as long as the work left, and one that only spurious wake-ups could continue has finished main with every accepted request tallied |
| `RouterDrain.EveryStepLowers` | src/thread_pool.cpp:70-93 | every step of workers, handlers and main after the stop flag lowers the work left, spurious wake-ups included |
| `RouterDrain.HandOffNeverStuck` | src/thread_pool.cpp:25-30 | an acceptor blocked on a full queue has been notified of room, or some worker can go on |
| `Threads.OnlyMainMovesMain` | src/main.cpp:256-285 | main moves along its own control flow, on the in_flight it reads; no other thread moves it or counts a drop |
| `Threads.MachineFollowsAcceptor` | src/acceptor.cpp:107-140 | the acceptor moves through accept, count and callback as the pool's own verdict on submit decides, and no other thread moves it |
| `Threads.MainThread.Poll` | src/main.cpp:266-270 | the poll loop ends with a zero reading or past the deadline, and all its sleeps of twenty milliseconds but the last fit into the grace period |
| `Threads.MainThread.CountDropped` | src/main.cpp:275-278 | dropped rises by exactly the requests read as remaining |
| `Threads.MainThread.Shutdown` | src/main.cpp:256-288 | main's whole shutdown is a path of its automaton, within that bound; dropped is the third reading if the second was positive, else zero |
| `Threads.AcceptorThread.TakeClient` | src/main.cpp:228-240 | one client is counted; if submit succeeds it is handed over and nothing is closed or counted as errored, if not it is closed and counted as errored and not handed over |
| `Threads.AcceptorThread.Drain` | src/acceptor.cpp:126-136 | the accept loop takes exactly the clients before the first would-block or error, retrying on interruption |
| `Threads.AcceptorThread.Loop` | src/acceptor.cpp:107-140 | the thread takes exactly the clients its waits report until it stops; handed over are exactly those whose submit succeeded, closed exactly the others, both in order of arrival |
| `Threads.EachHandedOrClosed` | src/main.cpp:228-240 | every accepted client is handed over or closed, exactly one of the two, once |
| `Threads.WhereIs` | src/main.cpp:228-240 | the clients recorded for an outcome of submit are exactly those with that outcome, in order of arrival |
| `Threads.TakenExactly` | src/acceptor.cpp:126-136 | the accept loop takes exactly the clients before the first result that ends it, in order, passing over interruptions |
| `Threads.TakenUntilFailure` | src/acceptor.cpp:110-116 | waits follow each other, and nothing is taken after one that fails |
| `Handler.Request.HandleOne` | src/handler.cpp:174-310 | every path runs from popped to done in the allowed order, reports every call as it turned out, restores in_flight and tallies once, completed exactly when every call succeeded; what the client is sent and how the connection is handed back is what the outcomes demand |
| `Handler.ConductOf` | src/handler.cpp:174-310 | of any finished request that reports its calls truthfully: a connection is handed back exactly if one was borrowed, as healthy exactly if write and read on it succeeded; the client gets an error exactly if its request was read and no answer was, and the reply exactly if one was |
| `Handler.HandledExactlyOnce` | src/handler.cpp:30-169 | a finished request has tallied once, closed its client once, released each borrowed connection once, as healthy exactly when its answer was read, and sent one error for each failed borrow, write or read and one reply for each answer |
| `Handler.OneStep` | src/handler.cpp:174-239 | what one action changes in in_flight, the tally and the client descriptor |
| `ThreadPool.FifoExactlyOnce` | src/thread_pool.cpp:7-93 | workers and depth are as configured, zero counting as one; the queue never exceeds that depth, tasks leave in submission order, and each accepted task is in exactly one of queue, worker, finished or discarded |
| `ThreadPool.NoLostWakeUp` | src/thread_pool.cpp:20-34 | a sleeping worker implies notified workers at least the queue length, a sleeping submitter notified submitters at least the room; queued work means a worker can move |
| `ThreadPool.DrainTerminates` | src/thread_pool.cpp:36-48 | after the stop flag the worker steps in a run are bounded by a measure that each of them lowers |
| `ThreadPool.StopRunsEverything` | src/thread_pool.cpp:36-93 | after stop, a pool with no worker move left has popped every accepted task in order, finished each once, and all workers have exited |
| `ThreadPool.NoDrainStartsNothing` | src/thread_pool.cpp:50-63 | after stop_no_drain no further task is taken on or started |
| `ThreadPool.SubmitDecides` | src/thread_pool.cpp:20-34 | submit takes the task exactly when the pool runs and has room, and makes the caller wait exactly when it runs, is full and does not reject |
| `ThreadPool.FetchDecides` | src/thread_pool.cpp:74-85 | a worker gets the oldest task exactly if there is one, and quits exactly on an empty stopped queue |
| `ThreadPool.StopDecides` | src/thread_pool.cpp:36-63 | the first stop decides whether the backlog is kept, later ones change nothing, and afterwards submit refuses |
| `ThreadPool.StepInv` | src/thread_pool.cpp:20-93 | every step keeps the accounts, the wake-up counts and the phases |
| `ThreadPool.Monitor.Submit` | src/thread_pool.cpp:20-34 | refuses when stopped or, if rejecting, full; waits when full; else appends: the section the machine steps by |
| `ThreadPool.Monitor.Next` | src/thread_pool.cpp:74-85 | sleeps on an empty queue, quits on an empty stopped one, else takes the head: the section the machine steps by |
| `ThreadPool.Monitor.Stop` | src/thread_pool.cpp:36-63 | the first call sets the flag and, without draining, empties the queue; later calls change nothing |
| `ThreadPool.Monitor.WorkerMain` | src/thread_pool.cpp:70-93 | a worker alone with a stopped pool runs exactly the backlog, in order, and returns |
| `BackendPoolTheorems.ExclusiveOwnership` | src/backend_pool.cpp:23-98 | every connection dialled is in exactly one of idle, a borrower, the reaper or closed; closed at most once; in_use is exact, so no decrement underflows |
| `BackendPoolTheorems.CapacityBound` | src/backend_pool.cpp:33-57 | where nothing is pinged: idle + in use at most max_size; always: idle + in use + held by the reaper at most max_size times one plus the sweeps |
| `BackendPoolTheorems.CapacityBoundAttained` | src/backend_pool.cpp:151-175 | for every size and every n a run with n sweeps reaches that bound where connections are pinged |
| `BackendPoolTheorems.CapacityIff` | src/backend_pool.cpp:151-175 | idle + in use stays within max_size in every run, for every number of threads, if and only if no connection is ever pinged |
| `BackendPoolTheorems.NoLostWakeUp` | src/backend_pool.cpp:40-63 | before shutdown, with a waiter asleep, notified waiters plus notifications lost to late timeouts cover every slot not in use |
| `BackendPoolTheorems.StrandedByHealthCheck` | src/backend_pool.cpp:173-174 | for every size: where connections are pinged a borrower can sleep beside a free connection, since survivors are given back without a notify |
| `BackendPoolTheorems.StrandedByLateTimeOut` | src/backend_pool.cpp:58-61 | for every configuration: a notified waiter that reports a timeout can leave another one asleep beside a free connection |
| `BackendPoolTheorems.NoneStrandedIff` | src/backend_pool.cpp:40-63 | late timeouts aside, no borrower is ever left asleep beside a free slot with nobody coming for it if and only if no connection is ever pinged |
| `BackendPoolTheorems.SweepCutsPrefix` | src/backend_pool.cpp:138-150 | where nothing is pinged: a sweep removes exactly the prefix of the idle list idle longer than the smaller limit and keeps the order of the rest |
| `BackendPoolTheorems.SweepSparesTheYoung` | src/backend_pool.cpp:138-157 | in every state, pinging or not: kept or set aside are exactly the connections within both limits, the last use against idle_timeout and the creation stamp against max_lifetime, closed exactly the others, each in order |
| `BackendPoolInvariants.SweepIsPrefixCut` | src/backend_pool.cpp:140-150 | on any list ordered by age the sweep is that prefix cut |
| `BackendPoolTheorems.ReusesOldest` | src/backend_pool.cpp:33-39 | where nothing is pinged: a borrow takes a connection that has been idle longest and leaves the others in order |
| `BackendPoolTheorems.IdleIsQueue` | src/backend_pool.cpp:33-39 | in every step, pinging or not: connections join the idle list at its tail only, by a release or from the reaper, those in it keep their order, and a borrow takes the head |
| `BackendPoolTheorems.BorrowDecides` | src/backend_pool.cpp:29-57 | a pass aborts exactly if the pool is shut, reuses exactly if something is idle, dials exactly if nothing is and fewer than max_size are in use, and waits otherwise |
| `BackendPoolTheorems.ReleaseDecides` | src/backend_pool.cpp:65-83 | a released connection goes to the tail, stamped with the time, exactly if it is healthy and the pool was not shut; otherwise it is closed |
| `BackendPoolTheorems.NothingLentAfterShutdown` | src/backend_pool.cpp:29-32 | once the pool is shut no borrow succeeds any more, but for dials already under way |
| `BackendPoolTheorems.NobodyWaitsAfterShutdown` | src/backend_pool.cpp:96-97 | once everybody has been woken after shutdown nobody ever sleeps in the pool again |
| `BackendPoolTheorems.ClientCanStep` | src/backend_pool.cpp:23-83 | a thread inside borrow or release always has a step: it can try, time out, fail to dial, or let go |
| `BackendPoolTheorems.CheckIsPings` | src/backend_pool.cpp:161-172 | the reaper's loop is a run of the machine whose k-th ping answers what connection k answers, with the clock moving in between, and it ends with the survivors and the dead the loop computes |
| `BackendPool.PingsSplit` | src/backend_pool.cpp:164-171 | survivors are exactly the connections that answered, in order, each stamped after its own ping; dead exactly the others |
| `BackendPoolTheorems.ShutdownIsFinalIff` | src/backend_pool.cpp:85-98 | no connection can come back to the idle list after shutdown if and only if no release is past its check and the reaper has nothing to give back |
| `BackendPoolTheorems.NoLeak` | src/backend_pool.cpp:85-98 | with shutdown settled, borrowers gone and the reaper gone, every connection was closed exactly once |
| `BackendPoolTheorems.LeakWithHealthCheck` | src/backend_pool.cpp:161-175 | for every size: where connections are pinged, shutting down after the last borrower left can leave open connections in the idle list for good |
| `BackendPoolTheorems.NoLeakIff` | src/backend_pool.cpp:85-98 | shutting a pool with no borrower in it leaves its idle list empty for good, in every run, if and only if no connection is ever pinged |
| `BackendPoolInvariants.StepInv` | src/backend_pool.cpp:23-184 | every step keeps ownership, capacity, wake-up counts and ages |
| `BackendPool.Pool.TryBorrow` | src/backend_pool.cpp:29-57 | aborts when shut, reuses the head of the idle list, dials below max_size, else finds the pool full: the section the machine steps by |
| `BackendPool.Pool.Borrow` | src/backend_pool.cpp:23-63 | the wait loop returns what the first pass that does not find the pool full gives, or times out having found it full every time |
| `BackendPool.Pool.Release` | src/backend_pool.cpp:69-81 | gives the slot back, and puts a healthy connection at the tail stamped with the time as used and as created |
| `BackendPool.Pool.Shutdown` | src/backend_pool.cpp:85-95 | the flag is set once and the idle connections are closed, each once, from the head on |
| `BackendPool.Pool.Sweep` | src/backend_pool.cpp:138-157 | erasing in place leaves exactly the slots within both limits and takes out exactly those beyond one, each in order, and swaps the rest out when checking |
| `BackendPool.Pool.Check` | src/backend_pool.cpp:161-172 | survivors are exactly the connections that answered, in order, each stamped anew after its own ping and otherwise unchanged; dead are exactly the others, unchanged |
| `BackendPool.Pool.GiveBack` | src/backend_pool.cpp:173-174 | survivors join the tail of whatever the idle list has become, in order, by the section the machine steps by |
| `BackendSet.LoadLeadsPool` | src/backend_set.cpp:54-89 | in every interleaving a load counter equals borrows in progress + handles out + releases in progress, is at least the pool's in_use, and is positive before every decrement |
| `BackendSet.QuiescentCounters` | src/backend_set.cpp:54-89 | with every thread out, loads are zero and handled counts the successful borrows |
| `BackendSet.ChoosesLeast` | src/backend_set.cpp:59-67 | as long as threads times weight fits 64 bits, every pick in every interleaving goes to a backend of least load per weight |
| `BackendSet.RunShare` | src/backend_set.cpp:13-66 | in every concurrent run without failure or return the share bounds hold in the configured weights, zero counting as one |
| `BackendSet.RunExactShare` | src/backend_set.cpp:13-66 | after m times the total weight choices in such a run every load is exactly m times the configured weight, zero counting as one |
| `BackendSet.Front.constructor` | src/backend_set.cpp:13-25 | each weight is the configured one, or one if that is zero, and all counters start at zero |
| `BackendSet.Front.PickAndBump` | src/backend_set.cpp:54-67 | nothing without backends, else the leftmost rational minimum is picked and bumped by the section the machine steps by |
| `BackendSet.Front.FinishBorrow` | src/backend_set.cpp:68-75 | a won borrow counts as handled and keeps its load, a lost one gives the load back: the sections the machine steps by |
| `BackendSet.Front.FinishRelease` | src/backend_set.cpp:78-89 | a release gives its load back once, by the section the machine steps by; a handle without descriptor or of no pool changes nothing |
| `Selection.PickLowestLoad` | src/backend_set.cpp:31-52 | as long as no product leaves 64 bits the loop returns the leftmost backend of least load per weight, as rationals |
| `Selection.ScanIsLeftmost` | src/backend_set.cpp:31-52 | the same of the scan after any number of candidates, with products modulo 2^64 |
| `Selection.AlwaysLeftmostIff` | src/backend_set.cpp:44-45 | for all loads and weights within given limits the pick is the leftmost rational minimum if and only if the product of the limits fits 64 bits |
| `Selection.WrapPicksWrongly` | src/backend_set.cpp:44-45 | for every load an input with the least weight that overflows, on which the scan overlooks the smaller share |
| `Selection.SafeBelowHalfWord` | src/backend_set.cpp:44-45 | weights up to 2^32 are safe while loads stay below 2^32, and no longer |
| `Selection.ProportionalShare` | src/backend_set.cpp:31-66 | after N picks each backend has w(N-k+1) <= f W and (f-1) W <= w(N-1) |
| `Selection.ExactShare` | src/backend_set.cpp:31-66 | after m times the total weight picks every backend has exactly m times its weight |
| `Wire.PlainHeader` | src/connection.cpp:164-166 | htonl and memcpy give the big-endian header on either kind of host |
| `Wire.TlsHeaderIff` | src/tls.cpp:281-285 | the hand-written swap gives the big-endian header on a little-endian host for every length, and on a big-endian one exactly for the lengths whose bytes read the same both ways |
| `Wire.TlsLengthIff` | src/tls.cpp:265-269 | the hand-written swap reads the announced length on a little-endian host always, and on a big-endian one exactly for headers that read the same both ways |
| `Wire.ParseEncoded` | src/connection.cpp:139-160 | decoding an encoded message followed by anything gives that message and its length |
| `Wire.EncodeParsed` | src/connection.cpp:139-160 | what the decoder accepts is the encoding of what it returns |
| `Wire.ParseDecides` | src/connection.cpp:139-160 | of every buffer: too big exactly if the announced length is over the limit, cut short exactly if header or payload is incomplete, else the payload and its end |
| `Wire.StreamRoundTrip` | src/connection.cpp:122-171 | splitting the encoding of a sequence of messages gives that sequence |
| `Wire.FramesOfPartial` | src/connection.cpp:143-156 | a frame cut short anywhere is no frame, so a broken write is no request |
| `Wire.EncodeAllInjective` | src/connection.cpp:162-171 | equal bytes carry equal messages, whatever follows them |
| `Wire.FramesGrow` | src/connection.cpp:139-160 | more bytes never change the frames already seen |
| `Streams.Stream.ReadExact` | src/connection.cpp:71-97 | how much was read, that it is a prefix of the stream, and exactly why it stopped: the first expired poll, failed call or closed peer decides the status, for every chunking |
| `Streams.Stream.WriteExact` | src/connection.cpp:99-118 | a prefix of the data is sent, all of it exactly on success, and otherwise the first turn in the way decides the status |
| `Streams.Stream.TlsReadExact` | src/tls.cpp:221-239 | the contract of the plain loop |
| `Streams.Stream.TlsWriteExact` | src/tls.cpp:241-253 | the contract of the plain loop |
| `Streams.Stream.PumpRead` | src/tls.cpp:43-86 | retries until bytes arrive, the peer closes, the deadline passes or the call fails |
| `Streams.Stream.PumpWrite` | src/tls.cpp:43-86 | retries until bytes are taken, the peer closes, the deadline passes or the call fails |
| `Streams.Stream.ReadMessage` | src/connection.cpp:122-137 | success consumes exactly one frame and agrees with the in-memory decoder; once the header is read an oversized frame is a protocol error and nothing else is; on a stream that ends, with no timeout or error, status and payload always agree |
| `Streams.Stream.WriteMessage` | src/connection.cpp:162-171 | an oversized message is refused untouched, otherwise a prefix of the frame goes out, the whole exactly on success |
| `Streams.Stream.HealthPing` | src/backend_pool.cpp:119-127 | alive means that one empty frame went out and one came back and nothing else moved |
| `Streams.Relay` | src/tls.cpp:257-290 | messages written and read in any fragments, each end plain or TLS, are read back in order, and later bytes are left alone |

## Left out

- Sockets, epoll, eventfd, poll, getaddrinfo and OpenSSL: their calls are scripted or nondeterministic steps on byte streams; the certificate and context setup is not modelled.
- Signals and `Shutdown`'s condition variable: one nondeterministic step requests shutdown.
- Closing a descriptor is one step that always succeeds.
- Memory exhaustion and throwing tasks: the catch-all in `worker_main` is never entered.
- Weak memory ordering: every atomic access is sequentially consistent.
- Wrap-around of the 64-bit counters of src/metrics.h: they are integers; in_flight is proved to be a number of requests, so its decrement never goes below zero.
- Real time: clocks are integers read by steps; nothing is said about latency or fairness. The lower limit on the reaper's wait only delays sweeps, which may happen at any time in the model.
- Logging, the metrics text, command-line parsing, the benchmark, the tools and the tests: no hard property.
- The null-buffer check of `parse_frame`: a Dafny sequence is never null.
- `Streams.Stream.ReadExact`: a script that runs out counts as a timeout, so an endless sequence of interruptions is not modelled.
- `Streams.Stream.PumpWrite`: the length passed to OpenSSL is not cut to an int.
- `SystemProgress.DrainEnds`: the steps a borrower takes inside a pool are not in the bound, since a sleeper may be woken without cause any number of times before its deadline.
- `BackendPool.Pool.Borrow`: other threads appear as the state each wait returns with; the interleaving itself is in the machine.
- `Threads.AcceptorThread.Loop`: what the system calls return is a finite script.
- `Handler.Request.HandleOne`: both overloads and both transport paths are one method; the content of the messages is in `Traffic.dfy` and `System.dfy`.
- The single-pool overload of `handle_one` is covered by `Handler.dfy` and `BackendPool.dfy`; the traffic machine always has a backend set.
- A connection left in the idle list at exit, where connections are pinged, is closed by the operating system; the model ends before that.
