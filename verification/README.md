# Verified models of net-study

`net-study` is a collection of socket and thread studies in C and C++. Six of its programs hold
real state machines; this project models those six in Dafny and proves what they keep, where they
stop, and where they do not do what they are meant to. `dafny verify dfyconfig.toml` checks it.

| program | files here |
|---|---|
| thread pool, `threadpool/main.c` | `PoolMachine`, `PoolLocks`, `PoolRing`, `PoolWakeups`, `PoolSize`, `PoolTheorems`, `PoolPeak`, `PoolRuns`, `PoolLoss`, `PoolDeath`, `PoolShrink`, `PoolShutdown`, `PoolManager`, `PoolCode` |
| echo pair, `ttcp/` | `EchoMachine`, `EchoTheorems`, `EchoCode` |
| epoll reactor, `epoll_et/server3.c` | `ReactorMachine`, `ReactorTheorems`, `ReactorOpen`, `ReactorCode` |
| select servers, `seclect/server.c` and `server2.c` | `SelectServers`, `SelectTheorems`, `SelectStreams`, `SelectCode` |
| HTTP reader, `http/myhttpd.c` | `HttpLines`, `HttpRequest`, `HttpCode` |
| task counter, `blockio/test.cc` | `TaskCounter` |

`Counting`, `Modular` and `Basics` hold what several of them share.

## How the programs are modelled

Programs whose difficulty is in their interleavings (pool, echo pair, task counter) are step machines
on values: one program counter a thread, one step a statement, an arbitrary schedule. The code that
runs sequentially is there a second time in its own form, as classes and methods that change fields
and arrays in place, each proved equal to the function the theorems are about. Every capacity, buffer
size and number of threads is a parameter. The kernel is an arbitrary answer to each call, under these
assumptions:

- a blocking `send` moves any positive number of bytes that fit, a blocking `recv` any positive number
  that are there; the echo pair's channels do not fail (`EchoCode` allows failures);
- `pthread_cond_signal` wakes one sleeper if there is one, any sleeper may wake spuriously, and a woken
  thread takes the mutex again before it goes on;
- `epoll_wait` reports a registered descriptor at most once and only requested events, errors and
  hang-ups; `EPOLL_CTL_ADD` succeeds on an open, unregistered descriptor; `accept` returns a descriptor
  that was not open;
- in the select servers `accept` returns the lowest free descriptor above the listener's, every number
  up to the listener's stays open, nothing else opens or closes descriptors, and what accept returns is
  below FD_SETSIZE, which is the parameter `limit`;
- a socket of the HTTP server holds a sequence of bytes, then EOF or would-block;
- the unlocked read of `_x` in `blockio/test.cc` is atomic.

Repairs to `threadpool/main.c`, whose worker waits on a mutex it does not hold: the worker takes `lock`
before line 95; lines 109 and 118 release it; line 193 looks for an empty slot; `threads` has
`max_thr_num` slots, as lines 189 and 253 take it to have, while line 247 sizes it by `queue_max_size`
tasks, so that line 253 clears past its end when `max_thr_num` thread ids take more room than that (more
than twice `queue_max_size` of them where a task is twice as large as an id). The initial value of
`live_thr_num` (line 238 stores 0, line 272 starts `min_thr_num` workers) is the parameter `live0`.

## What the code turns out to do

- A worker that leaves through the shrink exit takes the wake-up it was sent with it
  (`ShrinkExitSwallowsWakeup`), and that is the only way a wake-up is lost (`WakeupsAccounted`). Which
  pools this leaves a task behind in is exact. `live_thr_num` rises to at most, and does reach, a `Peak`
  that depends on the arguments of `threadpool_create` and the constants of lines 9, 10 and 238. A task
  can be queued with every worker asleep or gone and nobody owing a signal if and only if `vary` is at
  least 1, the peak is above `min_thr_num`, and the pool can have a worker (`TasksStrandedExactly`); with
  a sleeper among them, if and only if it can have two (`SleepersForgottenExactly`). The pool that `main`
  creates is such a pool (`MainCanStrandTask`).
- Every worker can leave, with tasks queued and none ever to be taken again, if and only if `vary` is at
  least 1, the pool can have a worker, and `live0` is at least twice `min_thr_num`: with line 238 as it
  is, when `min_thr_num` is 0 (`PoolDiesExactly`).
- Slots of `threads` are never emptied, so once `max_thr_num` workers have been started none is started
  again (`GrowthIsUsedUp`).
- The echo pair cannot deadlock up to a message of `C1 + C2 + 1` bytes, may deadlock beyond that, and
  must deadlock beyond `C1 + C2 + min(B, C1)` (`DeadlockThreshold`, `CompletionThreshold`).
- `get_line` ends a line at a bare CR, which section 2.2 of RFC 9112 does not provide for; the model
  follows the code. The header loop takes a header whose length is a multiple of 1023 for the blank
  line; at EOF without such a header and without a blank line it never ends (`DrainStopsExactly`).
- `senddata` always closes the connection without having sent a byte, because `eventset` clears `len`
  (`SendAlwaysCloses`). A connection that `acceptconn` turns away is never closed (`OpenDescriptors`).
- `server2` does what `server` does on every run if and only if FD_SETSIZE is at most `fd + 1` plus the
  number of slots (`AgreeExactly`). With 1024 of both the table cannot fill, and lines 68 to 71 are never
  reached (`NeverFullAsShipped`); a smaller table can fill, and the next client takes `server2` down
  (`OneTooMany`).
- With two threads or more `blockio/test.cc` can print lines for tasks that are not there, and with one it
  cannot (`StaleLineIffTwoThreads`); finished runs of T threads on N tasks print N to N + T - 1 lines, and
  each of these numbers occurs (`LinesExactly`).

## Model

| member | source | states |
|---|---|---|
| PoolLocks.LockStep | threadpool/main.c:95-137 | every step of every thread keeps `lock` and `thread_counter` owned by exactly the thread inside a section of theirs |
| PoolRing.RingStep | threadpool/main.c:292-326 | every statement keeps ring, front, rear and size in agreement with the enqueued and dequeued logs, whatever part of an add or take the holder has done |
| PoolRing.TaskStep | threadpool/main.c:124-148 | every step keeps each dequeued, not yet run task with exactly the worker that took it |
| PoolWakeups.WakeStep | threadpool/main.c:95-137 | every step, spurious wake-ups and manager signals included, keeps the queue covered by workers woken, on their way, or gone with a wake-up |
| PoolWakeups.RoomStep | threadpool/main.c:292-298 | every step keeps: a producer sleeps only while the ring is full or the holder has yet to broadcast room |
| PoolSize.SizeStep | threadpool/main.c:184-216 | every step keeps the counts of workers, busy workers and used slots equal to the pool's counters, and the counters in their bounds |
| PoolSize.LateStep | threadpool/main.c:300-322 | once shutdown is raised no step commits anyone to a further queue operation |
| PoolTheorems.RunInv | threadpool/main.c:87-160 | all of these hold in every state of every run, for any number of workers and producers |
| PoolTheorems.FifoWhenFree | threadpool/main.c:292-326 | whenever the lock is free, dequeued log ++ ring window = enqueued log, 0 <= size <= capacity, rear = (front + size) mod capacity |
| PoolTheorems.EveryTaskInOnePlace | threadpool/main.c:124-154 | in every reachable state each enqueued task is in the ring, or in one worker's hands, or run, and in only one of these |
| PoolTheorems.RunsOnce | threadpool/main.c:147-148 | a worker about to run a task holds one that was enqueued and has not been run |
| PoolTheorems.WakeupsAccounted | threadpool/main.c:95-137 | lock free, no shutdown, someone asleep: size <= woken workers + shrink exits |
| PoolTheorems.ShrinkExitSwallowsWakeup | threadpool/main.c:97-112 | from any reachable state a woken worker that is told to leave leaves, wait_exit_thr_num and live_thr_num are one less, and the queue keeps its tasks with one woken worker fewer |
| PoolShrink.ShrinkIsAtomic | threadpool/main.c:100-112 | however other threads are interleaved, a woken worker uses up one order if there is one, and leaves exactly if there is one and live_thr_num is above the minimum, which is then one less |
| PoolShrink.ExitsPerOrder | threadpool/main.c:205-216 | between two orders of the manager no more workers leave than wait_exit_thr_num said, at most 10 (`vary`), and it falls by at least as many |
| PoolPeak.NoTaskStranded | threadpool/main.c:95-137 | in a pool nobody can be told to leave, or that never has a worker: lock free, no shutdown and a task queued means some worker neither sleeps nor has left, if there are any |
| PoolPeak.NoWakeupLost | threadpool/main.c:95-137 | in a pool nobody can be told to leave, or that never has two workers at once: lock free, no shutdown, someone asleep means size <= woken workers |
| PoolLoss.TasksStrandedExactly | threadpool/main.c:97-112 | a state with both mutexes free, no shutdown, a task queued, workers started and all of them asleep or gone, no add under way and the manager at line 170 is reachable if and only if `vary` >= 1, live_thr_num can pass its minimum and a worker can exist; the same without the clauses on adds and manager |
| PoolLoss.SleepersForgottenExactly | threadpool/main.c:97-112 | such a state with a sleeper is reachable if and only if in addition two workers can exist; so is one with a sleeper and more tasks than woken workers |
| PoolLoss.MainCanStrandTask | threadpool/main.c:369 | the pool created with 3, 100 and 100, 10 a round, a backlog bound of 10 and live_thr_num from 0 reaches such a state |
| PoolPeak.LiveStaysBelowPeak | threadpool/main.c:184-199 | live_thr_num never passes its peak: max_thr_num, or its initial value plus the slots free at the start, or its initial value if the backlog can never be seen |
| PoolLoss.PeakIsReached | threadpool/main.c:184-199 | in every pool some run takes live_thr_num to that peak, back to a state with every worker at the top of its loop |
| PoolPeak.GrowthIsUsedUp | threadpool/main.c:189-199 | once max_thr_num workers have been started, or if the backlog can never be seen, no continuation of the run starts another |
| PoolDeath.PoolDiesExactly | threadpool/main.c:100-112 | a state with tasks queued, no shutdown, every worker gone, and no dequeue in any continuation is reachable if and only if `vary` >= 1, a worker can exist and `live0` is at least twice the minimum |
| PoolTheorems.QueueNeverStalls | threadpool/main.c:95-137 | before any shrink exit a non-empty queue has a worker that can move or waits only for thread_counter |
| PoolTheorems.CounterHolderCanMove | threadpool/main.c:142-154 | whoever holds thread_counter can move |
| PoolTheorems.HolderCanMove | threadpool/main.c:174-216 | whoever holds lock can move, worker, producer or manager |
| PoolTheorems.ProducersSleepOnlyWhenFull | threadpool/main.c:292-298 | lock free and a producer asleep: the ring is full; it is never overfull |
| PoolTheorems.PoolSizeAccounting | threadpool/main.c:100-112 | lock free: workers that have not left minus live_thr_num is min_thr_num minus its initial value; live_thr_num <= max_thr_num; 0 <= wait_exit_thr_num <= 10 (the parameter `vary`); busy_thr_num counts the busy |
| PoolTheorems.ShrinkStopsAtMinimum | threadpool/main.c:105-108 | no shrink exit takes live_thr_num below min_thr_num |
| PoolTheorems.ManagerActsOnItsSnapshot | threadpool/main.c:184-216 | workers are started only for a backlog seen, below the maximum and at most `vary` a round; told to leave only when fewer than half were seen busy |
| PoolManager.ManagerRound | threadpool/main.c:170-216 | a round left alone, in full: how many workers it starts, when it raises wait_exit_thr_num and to what, how many sleepers it wakes, and that nothing else changes |
| PoolManager.GrowIsAtomic | threadpool/main.c:186-200 | however other threads are interleaved, the loop fills the lowest empty slots, keeps live_thr_num and workers in step, and ends when `vary` are started, the maximum is reached or no slot is empty |
| PoolRuns.ServeOne | threadpool/main.c:95-154 | a worker left alone at the top of its loop with a task queued is back there with one task fewer queued |
| PoolRuns.AddTask | threadpool/main.c:292-326 | a producer left alone that finds room has one task more queued and one sleeper woken, if there is one |
| PoolRuns.FallAsleep | threadpool/main.c:95-97 | a worker that finds the queue empty falls asleep and nothing else changes |
| PoolRuns.ProducerWaits | threadpool/main.c:292-297 | a producer that finds the ring full falls asleep and nothing else changes |
| PoolRuns.WorkerWakes | threadpool/main.c:97 | a sleeping worker can wake unsignalled at any moment, with nothing else changed |
| PoolRuns.ProducerWakes | threadpool/main.c:297 | so can a sleeping producer |
| PoolLoss.AnyProducers | threadpool/main.c:223-287 | the runs start with min_thr_num workers, live_thr_num at its initial value and any number of producers |
| PoolTheorems.AtMostOneLateOperation | threadpool/main.c:341-348 | at most one enqueue or dequeue completes after the unlocked store to shutdown, and none unless the holder was past its test |
| PoolTheorems.LateOperationsExactly | threadpool/main.c:341-348 | once shutdown is raised, a run can be continued to complete a further operation if and only if the holder of the lock is past its test of it, and never to complete two |
| PoolShutdown.LateOperationHappens | threadpool/main.c:341-348 | every run that has a holder past its test can go on with shutdown raised next, and that one operation completed |
| PoolShutdown.ShutdownIsTheDestroyers | threadpool/main.c:341-356 | in every reachable state shutdown is raised exactly if line 348 is past; the manager ends only then, and the destroyer broadcasts only after the manager has ended |
| PoolShutdown.WorkerQuits | threadpool/main.c:95-121 | after shutdown a worker at the top of its loop leaves, whatever the queue holds, and nothing else changes |
| PoolShutdown.ProducerReturns | threadpool/main.c:292-304 | after shutdown a producer adds nothing, room or not, and wakes every sleeping worker |
| PoolShutdown.ManagerEnds | threadpool/main.c:170-220 | after shutdown the manager ends at the top of its loop |
| PoolShutdown.DestroyerWakes | threadpool/main.c:351-356 | the broadcasts wake every sleeping worker if live_thr_num is not 0, and nobody if it is |
| PoolCode.PutAppends | threadpool/main.c:309-322 | the add section appends its task to the ring's window |
| PoolCode.TakeRemoves | threadpool/main.c:124-131 | the take section removes the window's first task |
| PoolCode.OnlyHolderTouchesRing | threadpool/main.c:95-137 | a step of a thread that does not hold the lock leaves ring, lock and holder alone |
| PoolCode.PutIsAtomic | threadpool/main.c:309-325 | however other threads are interleaved, a producer from line 309 to 325 has done exactly the add section |
| PoolCode.TakeIsAtomic | threadpool/main.c:124-134 | the same for a worker from line 124 to 134, with the old head in its hands |
| PoolCode.ThreadPool.constructor | threadpool/main.c:235-276 | an empty queue, counters at 0, the first min_thr_num slots used |
| PoolCode.ThreadPool.Put | threadpool/main.c:309-322 | contents become old contents ++ [task] |
| PoolCode.ThreadPool.Take | threadpool/main.c:124-131 | old contents = [task] ++ contents |
| PoolCode.ThreadPool.ShrinkCheck | threadpool/main.c:100-112 | leave exactly when told to and above the minimum; both counters follow |
| PoolCode.ThreadPool.Grow | threadpool/main.c:187-199 | starts workers in the lowest free slots until `vary` are started, the maximum is reached or no slot is free |
| EchoTheorems.StepKeeps | ttcp/comm/TcpStream.cc:43-59 | every send, receive, turn and close conserves the bytes in order and the bounds of both channels |
| EchoTheorems.Conservation | ttcp/echo_client.cc:34-71 | received ++ way back ++ in the server ++ way there = message sent so far; at the end received = message and all was sent |
| EchoTheorems.StepCosts | ttcp/comm/TcpStream.cc:43-59 | every step lowers the weighted count of byte positions and turns |
| EchoTheorems.RunsAreShort | ttcp/echo_client.cc:34-71 | no run has more than 8 * length + 3 steps |
| EchoTheorems.StuckExactlyAtEnds | ttcp/echo.cc:38-45 | a run stops if and only if it has completed or both channels are full with the server unable to send |
| EchoTheorems.DeadlockThreshold | ttcp/echo_client.cc:34-66 | some schedule deadlocks if and only if length > C1 + C2 + 1 |
| EchoTheorems.ProgressThreshold | ttcp/echo_client.cc:34-66 | every reachable state with bytes outstanding has a step if and only if length <= C1 + C2 + 1 |
| EchoTheorems.CompletionThreshold | ttcp/echo.cc:36-45 | some schedule completes if and only if length <= C1 + C2 + min(B, C1) |
| EchoTheorems.HowRunsEnd | ttcp/echo_client.cc:65-71 | a finished run has echoed everything (received = sent) below the first threshold and has deadlocked above the second |
| EchoCode.TcpStream.SendAll | ttcp/comm/TcpStream.cc:43-59 | sends a prefix; all of it if and only if no send was refused, and it stops at the first refusal |
| EchoCode.TcpStream.ReceiveSome | ttcp/comm/TcpStream.cc:38-41 | takes some bytes, 0 exactly at the peer's close, negative exactly on an error |
| EchoCode.TcpStream.ReceiveAll | ttcp/comm/TcpStream.cc:33-36 | takes `len` bytes unless the peer closes first or a signal comes after some of them |
| EchoCode.TcpStream.Serve | ttcp/echo.cc:36-45 | answers a prefix of what it took, all of it unless a send was refused; with no refusal everything comes back, however the kernel cuts it up; it stops at the first refusal |
| ReactorTheorems.CallKeeps | epoll_et/server3.c:129-226 | every callback keeps the agreement and every other slot in use, and is never null |
| ReactorTheorems.DispatchOnce | epoll_et/server3.c:58-67 | a fresh event runs exactly the callback its slot was registered with, once, when it carries a requested event, and none otherwise; table, interest set and open descriptors are then what that callback makes of them |
| ReactorTheorems.BatchStaysFresh | epoll_et/server3.c:56-68 | when event n is dispatched, it and all later events point to slots in use with the fd, events and callback they had when epoll_wait returned |
| ReactorTheorems.OneCallbackPerEvent | epoll_et/server3.c:56-68 | each event of a batch runs at most one callback, the one its slot had when epoll_wait returned |
| ReactorTheorems.EventEffect | epoll_et/server3.c:129-226 | event by event of a batch, in full: recvdata re-arms its slot for EPOLLOUT with senddata or drops it, senddata for EPOLLIN with recvdata or drops it, acceptconn puts the client in the lowest free slot but the last for EPOLLIN with recvdata or turns it away, and nothing else changes |
| ReactorTheorems.InterestSetAgrees | epoll_et/server3.c:75-126 | between batches of any run the kernel watches exactly the descriptors of slots with status 1, open and distinct; the listener's slot stays; client slots pair EPOLLIN with recvdata, EPOLLOUT with senddata |
| ReactorTheorems.SendAlwaysCloses | epoll_et/server3.c:156-178 | senddata never sends a byte and always closes the connection |
| ReactorOpen.OpenDescriptors | epoll_et/server3.c:180-226 | between batches of any run exactly the initial descriptors, the listener, those of client slots in use and all connections turned away are open, and no client slot names one of the others |
| ReactorCode.Reactor.constructor | epoll_et/server3.c:228-246 | in place: the listener in the last slot for EPOLLIN with acceptconn and registered, every other slot free |
| ReactorCode.Reactor.AddEvent | epoll_et/server3.c:87-112 | in place: status 1 and, for an open unregistered descriptor, registered; required to be called with status 0, which every caller is proved to do |
| ReactorCode.Reactor.DelEvent | epoll_et/server3.c:113-126 | in place: status and registration go together, every other slot stays |
| ReactorCode.Reactor.OnReceive | epoll_et/server3.c:129-154 | in place: re-armed for EPOLLOUT with senddata, or out of use, closed and unregistered; every other slot stays |
| ReactorCode.Reactor.OnSend | epoll_et/server3.c:156-178 | in place: re-armed for EPOLLIN with recvdata, or out of use, closed and unregistered; every other slot stays |
| ReactorCode.Reactor.OnAccept | epoll_et/server3.c:180-226 | in place: the lowest free slot but the last is the client's, for EPOLLIN with recvdata, and registered; with no such slot, no client or a failing fcntl, table and interest set stay |
| ReactorCode.Reactor.Turn | epoll_et/server3.c:47-71 | one return of epoll_wait: keeps the agreement, and runs for each event the callback its slot had at the start, at most once |
| SelectTheorems.AcceptFits | seclect/server2.c:59-67 | the first free slot is the one the lowest free descriptor is numbered for |
| SelectTheorems.CountMatches | seclect/server2.c:85-88 | what select counted, less the listener, is the number of ready slots |
| SelectTheorems.CountdownIsFull | seclect/server2.c:91-138 | leaving the scan when the countdown reaches zero changes nothing |
| SelectTheorems.ScansAgree | seclect/server.c:61-87 | the table scan and the bitmap scan do the same to the same descriptors in the same order |
| SelectTheorems.RoundsAgree | seclect/server2.c:36-141 | one turn of server2 and one of server agree while a connecting client finds a slot |
| SelectTheorems.ServersAgree | seclect/server2.c:36-141 | whole runs with descriptors below FD_SETSIZE <= fd + 1 + slots: equal logs of accepts, reads, writes and closes, equal allset, maxfd and exits; slot i is -1 or holds fd + 1 + i |
| SelectTheorems.AgreeExactly | seclect/server2.c:59-72 | the servers agree on all runs if and only if FD_SETSIZE is at most fd + 1 plus the number of slots |
| SelectTheorems.NeverFull | seclect/server2.c:68-71 | while FD_SETSIZE is at most fd plus the number of slots, a slot is free after every run |
| SelectTheorems.NeverFullAsShipped | seclect/server2.c:29-71 | so with 1024 slots and FD_SETSIZE at 1024 |
| SelectTheorems.SlotForEveryDescriptor | seclect/server2.c:59-72 | a descriptor below FD_SETSIZE finds a slot, so the exit for a full table is not taken |
| SelectTheorems.ClientsFill | seclect/server2.c:59-67 | as many clients as there are slots, one after another, do fill the table |
| SelectTheorems.OneTooMany | seclect/server2.c:68-71 | with a larger FD_SETSIZE, one client more takes server2 down and not server |
| SelectTheorems.FullTableDiffers | seclect/server2.c:68-71 | in a turn that starts with a full table, a client that connects takes server2 down where server accepts it |
| SelectTheorems.HighWaterMark | seclect/server2.c:74-83 | on every run, full table or not: maxindex + 1 is the most clients ever held at once; no slot is free exactly when as many clients are connected as there are slots; maxfd bounds allset |
| SelectStreams.TurnLogged | seclect/server.c:30-88 | a turn, in full: one answer in upper case, or one close, for each ready client up to the first that fails, in ascending order; a failing accept or read ends the server; allset and maxfd follow |
| SelectStreams.TableTurnLogged | seclect/server2.c:36-141 | the same of server2 |
| SelectStreams.ClientsGetUpperCase | seclect/server.c:77-83 | every connection is sent the upper case of the bytes the kernel delivered to it, as one stream however reads cut it up; the server is down exactly if a call has failed |
| SelectCode.Server.Answer | seclect/server.c:65-84 | in place: what each answer of read leads to |
| SelectCode.UpperInPlace | seclect/server.c:77-80 | in place on the buffer, nothing past n touched |
| SelectCode.Server.PlainTurn | seclect/server.c:30-88 | the loop computes the turn the theorems are about, with the answers TurnLogged gives |
| SelectCode.TableServer.Enter | seclect/server2.c:59-83 | the search loop finds the first free slot, or the server exits |
| SelectCode.TableServer.Scan | seclect/server2.c:91-138 | the loop with its countdown and early exit computes the scan |
| SelectCode.TableServer.TableTurn | seclect/server2.c:36-141 | a turn in place computes the turn the theorems are about, with the answers TableTurnLogged gives |
| HttpLines.ReadLineExact | http/myhttpd.c:65-105 | a call returns the first line of the normalised stream cut to the buffer, leaves a rest that normalises to what follows, never splits a CRLF, and its last recv found nothing exactly if the stream ran out within the line or at a CR |
| HttpLines.LineShape | http/myhttpd.c:65-105 | LF only as the last byte; missing only when the buffer is full or the bytes have run out |
| HttpLines.ChunkIndependence | http/myhttpd.c:65-105 | successive results put together are the normalised stream, for every buffer size |
| HttpLines.DrainStopsExactly | http/myhttpd.c:252-261 | the header loop stops just past the first line whose length is a multiple of the room; else at the last byte if the socket would block, and never at EOF |
| HttpLines.DrainEndsAtBlankLine | http/myhttpd.c:252-261 | it ends at the blank line if and only if no earlier line has such a length, and never beyond it |
| HttpRequest.ScanPrinted | http/myhttpd.c:247-249 | sscanf recovers method, path and protocol, the last with its LF |
| HttpRequest.ScanExactly | http/myhttpd.c:247-249 | what sscanf makes of any line: three words up to the first NUL, white space before the second and third skipped, fields unset from the first empty word on |
| HttpRequest.ServedExactly | http/myhttpd.c:264-267 | a file is served exactly for a method that begins like GET in either case; it is the path but for its first byte |
| HttpRequest.OutcomeExactly | http/myhttpd.c:235-270 | of any stream: when the descriptor is closed, when the loop never ends, and otherwise the fields, the file and how far it is read |
| HttpRequest.RequestRoundTrip | http/myhttpd.c:235-270 | a printed request followed by anything: fields are recovered, the file is served exactly for GET in either case, and exactly what follows stays unread if and only if no header has a length that is a multiple of the room |
| HttpCode.GetLine | http/myhttpd.c:65-105 | the byte loop with its peek returns, stores and consumes what the line function says, and touches no byte past the NUL |
| HttpCode.DrainHeaders | http/myhttpd.c:252-261 | the header loop reads what the drain function says |
| HttpCode.ReadFields | http/myhttpd.c:238-248 | the request line read and taken apart in place is what the line and scan functions say |
| HttpCode.DoRead | http/myhttpd.c:235-270 | the code's outcome and consumption on every stream; it closes exactly if the peer has closed without a byte |
| TaskCounter.InvStep | blockio/test.cc:12-27 | every step keeps the mutex exclusive, the counter in range and claim k on task N - k |
| TaskCounter.NoDeadlock | blockio/test.cc:12-27 | nobody can move if and only if every thread has returned |
| TaskCounter.RunsAreShort | blockio/test.cc:46-53 | no schedule has more than 7N + 10T steps |
| TaskCounter.ClaimsAreInOrder | blockio/test.cc:16-20 | _x is never negative, tasks are claimed N, N - 1, ... once each; a line names what its thread had claimed last at some point |
| TaskCounter.LastClaimIs | blockio/test.cc:13-18 | a thread's latest claim is the last of its claims, and 0 exactly if it has none |
| TaskCounter.LineNamesLatestClaim | blockio/test.cc:13-24 | line 24 prints the task its thread has claimed last, or 0 if it has claimed none |
| TaskCounter.OverrunBound | blockio/test.cc:23-25 | at any moment at most T - 1 more lines than claims, and none while tasks are left |
| TaskCounter.LinesExactly | blockio/test.cc:16-25 | some finished run prints m lines if and only if N <= m <= N + T - 1 |
| TaskCounter.StaleLineIffTwoThreads | blockio/test.cc:16-25 | some run prints more lines than there are tasks if and only if T >= 2 |
| TaskCounter.AllDone | blockio/test.cc:46-53 | at the end each task was claimed once and printed by its claimer, and N <= lines <= N + T - 1 |
| TaskCounter.Task.Move | blockio/test.cc:12-27 | one statement of one thread, in place: other threads stay, the mutex is taken only when free, and only lines 18 and 19 store to _x |
| TaskCounter.Task.Run | blockio/test.cc:46-53 | any schedule, in place, keeps the bounds |

## Left out

- PoolTheorems.QueueNeverStalls: says that some worker can move, not that the task is eventually run, since no fairness of the scheduler or of the mutex is assumed.
- PoolLoss.TasksStrandedExactly: says when a task can be left with nobody to run it, not for how long: a later signal, of the manager or of another add, or a spurious wake-up may bring a sleeper back, where there is one. When no one ever comes back is PoolDiesExactly, for pools whose workers have all left.
- PoolTheorems.AtMostOneLateOperation: nothing is claimed about who wakes up at shutdown; `treadpool_destory` broadcasts without the lock and never signals `queue_not_fu11`, and its joins and `threadpool_free` are not modelled.
- HttpRequest.RequestRoundTrip: the fields have no size in the model; in C a method over 15 bytes, a path over 255 or a protocol over 14 (with its LF) overflows its array, so read it for requests within those sizes.
- HttpCode.DoRead: one call on the bytes that have arrived; edge triggering, requests whose first line arrives in parts, `sendfile`, `sendResponse`, `senderror` and `getfileType` are not modelled. The loop that makes no progress at EOF is reported as an outcome, because a Dafny method has to end.
- ReactorTheorems.InterestSetAgrees: open descriptors may exceed the slots in use, because refused connections are not closed (lines 208 to 219); ReactorOpen.OpenDescriptors counts them.
- PoolCode.ThreadPool.constructor: gives `threads` `max_thr_num` slots, see the repairs above; line 247 allocates room for `queue_max_size` tasks instead.
- ReactorCode.Reactor.OnReceive: the contents of `buf` are not modelled, nor the store at line 138 when a receive fills the buffer; `eventset` clears buffer and length before anything is sent from them.
- SelectTheorems.ServersAgree: neither a failing `select` nor short writes are modelled.
- Interleavings of the pool, the echo pair and the task counter are on values; the classes beside them run one section, or one given schedule, in place.
- The pool's worker loop exactly as written, which unlocks a mutex it does not hold; failure of `pthread_create` and `malloc`.
- The echo client's optional commands (shutdown, pause, close) and failing channels between the two parties; `sendAll` and the server loop do cover failures.
- `poll/pollServer.c`, whose `max` counts every accept and can leave its table: otherwise the shape of server2.
- `libevent`, `udp`, `localSocket`, `socket`, the other epoll servers, `blockio/server.cpp` and `client.cpp`, and all wrappers: library callbacks or straight-line system calls.
- Printing, sleeping and exit codes.
