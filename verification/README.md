# A model of cppnetool and its TCP relay

cppnetool is a single-threaded reactor in the style of muduo with a relay, `proxy/`, on top.
This project models its stateful parts and proves what they keep over whole runs:

* **Timers** (`TimerModel`, `TimerProofs`, `TimerRuns`, `TimerQueue`, `TimerIds`): two redundant indices,
  tombstones for cancelled timers, callbacks that add and cancel while a batch runs, an allocator that hands out
  addresses again, and callers on other threads.
* **The functor queue** (`EventLoop`): other threads push under a mutex and write an eventfd; every locked
  section and every system call is one atomic step, and the steps interleave in any way.
* **The poller** (`Poller`): a dense vector with swap-with-last removal, negative descriptors for parked
  slots and back-indices in the channels, against a plain map.
* **Buffers and connections** (`Buffer`, `Connection`, `Ledger`, `TcpConnection`, `LateSends`, `Switches`): a byte
  vector with two indices; a connection with partial and failing writes, half-close after drain, the dispatch of
  its events, an account of it kept from the outside, sends from other threads, and the updates of the poller that
  its switches make.
* **The connector** (`ConnectorModel`, `Connector`): attempts, retries and who owns which socket.
* **The relay** (`Relay`, `Session`): one session with its client connection, any number of successive
  upstream connections and the connector, under every order of events.
* **The server's tables** (`Lifecycle`, `TcpServer`): names, descriptors and stages of all connections of a
  loop, over both removal paths, lookups that insert null entries, and the hand-over from connectors.
* **Log formatting** (`Numerals`, `LogStream`): digit generation with truncating division, against a parser,
  written straight into a bounded buffer.

`Options` holds the one shared datatype.

Most parts have two layers.  A *step machine* is a datatype for the state, one for the steps, a predicate
`Enabled` that says what the kernel, the allocator and the loop guarantee, and a function `Apply`; the theorems
are about every run of it.  Two machines ask something of the user as well, and say exactly what happens
otherwise: the connector, that an attempt is started only when nothing is under way
(`Attempts.UnguardedStartLoses`), and the server, that a close callback spares the connection being closed
(`Lifecycles.CloseCallbackIff`).  A *class* has the program's fields and methods; each method's
postcondition equates the new state with a step or a run of the machine, so the theorems hold of the class.
Where the program asserts something, the predicate `Safe` or an `assert` in the class repeats it, and it is
proved never to fail.

System calls are inputs of the steps: what `write` returned, which bytes `readv` delivered, what `poll`
reported, which errno `connect` left, which descriptor `accept` returned, what the clock showed.

## What the code does, and its own comments do not say

* A poller slot that was parked is never polled again, although `proxy/Proxy.cc:105-106` enables such
  channels anew.  `Polling.PolledUntilEmptied` says exactly how long a channel is polled.
* A functor that the loop's own thread queues outside a batch writes no wakeup and can stay queued for good:
  `FunctorQueue.DrainsIffDue` and `FunctorQueue.HandlerFunctorStranded`.
* `Connector::start` has no guard.  `Attempts.UnguardedStartLoses` says exactly when calling it loses a socket,
  at once or in some later run; the session's `connecting_` flag is what prevents it (`Relays.OneAttemptAtATime`).
* `~Connector` unregisters a waiting socket and never closes it (`Attempts.DestructorAccounts`), so that a session
  that ends while an attempt is waiting loses that socket and no other (`Relays.EndLosesWaitingSocket`).
* A connect that fails for good leaves `connecting_` set with nothing under way, and the session never gets an
  upstream connection again: `Relays.GetsStuckIff` and `Relays.StuckForGood`.
* What an upstream connection had not written when it was closed is lost: `Relays.RequestsConserved` says exactly
  when nothing is, `Relays.ClosedUpstreamLoses` gives a run.
* The public `enableWriting` right before a shutdown suppresses the half-close for good exactly when nothing waits
  to be written: `Connections.EnableWritingIff`, and `Connections.EnableWritingLosesShutdown` for calls before that.
* A `send` from another thread tests the state too early and can write after the half-close:
  `LateSends.WrittenAfterHalfClose`, and `LateSends.LateSendsIff` for exactly when it does no harm.
* `TimerQueue::addTimer` reads the sequence number through the pointer after it has handed the timer over.  From
  another thread this can be a read of freed or reused memory, for one-shot timers: `TimerIds.LateReadIff` and
  `TimerIds.ReadsAnothersId`.
* A timer of the running batch that a peer cancels still runs once in that batch; it is deleted afterwards.
  `TimerRuns.WholeBatch` includes this.
* `callingExpiredTimers_` is not initialised.  The timer model starts from either value.
* A close callback that removes the very connection being closed makes the next assertion fail, and no other
  removal does: `Lifecycles.CloseCallbackIff`.  The same goes for the connection callback inside `connectDestroyed`:
  `Lifecycles.ConnectionCallbackIff`.
* `TcpServer::getConn` and `removeConn` leave a null entry behind for a name that is not listed.

## Model

| member | source | states |
|---|---|---|
| TimerModel.DeltaIsExact | cppnetool/base/Timestamp.h:55-59 | seconds become microseconds, of either sign, and less than one is dropped |
| TimerModel.DeltaOfRepeating | cppnetool/base/Timestamp.h:55-59 | a repeating timer is never restarted in the past |
| TimerModel.DelayIsExact | cppnetool/net/TimerQueue.cc:26-40 | seconds and nanoseconds add up to max(100 µs, when − now) and the nanosecond part is in range |
| TimerModel.FiresInTime | cppnetool/net/TimerQueue.cc:53-66 | a descriptor armed for an earlier or equal moment fires no later than the expiration or at the 100 µs floor |
| TimerModel.Insert | cppnetool/net/TimerQueue.cc:194-198 | std::set insertion: exactly one more member, order kept |
| TimerModel.Remove | cppnetool/net/TimerQueue.cc:222-223 | std::set erasure: exactly that member goes, order kept |
| TimerModel.LowerBound | cppnetool/net/TimerQueue.cc:132-134 | everything before the position is less than the key, and what is there is not |
| TimerModel.SentrySplitsAtNow | cppnetool/net/TimerQueue.cc:129-136 | the sentry (now, greatest pointer) cuts the index into what is due and what is later, ties at now being due |
| TimerProofs.SizesAgree | cppnetool/net/TimerQueue.cc:146-146 | indices that describe the same timers have the same size |
| TimerProofs.ResetAllOutcome | cppnetool/net/TimerQueue.cc:150-169 | after the loop in reset each timer of the batch is restarted and indexed or deleted, and no other timer is touched |
| TimerRuns.StepIsSafe | cppnetool/net/TimerQueue.cc:82-230 | in a state of the invariant no step of the loop and no hand-over follows a dangling pointer or fails an assertion |
| TimerRuns.StepKeepsInvariant | cppnetool/net/TimerQueue.cc:82-230 | every step, in or outside a batch, keeps the invariant: indices, ownership, alarm, tombstones, run history |
| TimerRuns.RunKeepsInvariant | cppnetool/net/TimerQueue.cc:82-230 | so does every run of these steps, each of which is safe |
| TimerRuns.EveryRunIsSafe | cppnetool/net/TimerQueue.cc:73-230 | from the constructor on, whatever callingExpiredTimers_ held, no step of the loop and no hand-over follows a dangling pointer or fails an assertion; the read that ends addTimer on another thread is in the next rows |
| TimerIds.ReadIsSafeIff | cppnetool/net/TimerQueue.cc:95-96 | the read of the sequence number after the hand-over finds its timer iff that timer has not been freed |
| TimerIds.EveryRunIsSafeIff | cppnetool/net/TimerQueue.cc:73-230 | a run of the loop and any number of callers follows no dangling pointer and fails no assertion iff every such read comes before its timer is freed |
| TimerIds.LateReadIff | cppnetool/net/TimerQueue.cc:91-97 | an addition from another thread can come to an unsafe read, with nobody cancelling the timer or destroying the queue, iff the timer does not repeat |
| TimerIds.ReadsAnothersId | cppnetool/net/TimerQueue.cc:91-97 | a run in which the address is reused: the read yields the id of another timer, and cancelling it deletes that timer |
| TimerIds.OneShotRunsOut | cppnetool/net/TimerQueue.cc:109-180 | from any state the loop alone can bring a one-shot timer to its end |
| TimerIds.RunSpares | cppnetool/net/TimerQueue.cc:150-169 | a repeating timer that nobody cancels outlives every run without the destructor |
| TimerRuns.IndicesAgree | cppnetool/net/TimerQueue.cc:129-207 | in every reachable state (e, t) is in timers_ iff (t, sequence of t) is in activeTimers_ and e is t's expiration |
| TimerRuns.OneOwner | cppnetool/net/TimerQueue.cc:82-230 | every timer ever created is freed, queued for adding, active or in the running batch: exactly one of the four, and never freed twice |
| TimerRuns.FreedTimersAreSilent | cppnetool/net/TimerQueue.cc:120-178 | a freed timer stays freed and no later callback run is its own |
| TimerRuns.NoMissedAlarm | cppnetool/net/TimerQueue.cc:98-192 | outside handleRead, while a timer is active, the descriptor is armed for no later than every expiration and fires in time |
| TimerRuns.AlarmAtEnd | cppnetool/net/TimerQueue.cc:171-179 | after a batch the descriptor is asked for exactly the earliest expiration, at the time read then, if all timestamps left are valid, and is left alone otherwise |
| TimerRuns.AlarmAtAdd | cppnetool/net/TimerQueue.cc:98-107 | an addition asks for the new timer iff it is earlier than all others |
| TimerRuns.RequestWasEarliest | cppnetool/net/TimerQueue.cc:98-192 | in every run an armed request is the expiration of a timer that was the earliest of all when it was asked for |
| TimerRuns.CallbacksAreOnTime | cppnetool/net/TimerQueue.cc:109-169 | no callback runs early, a one-shot runs at most once, two runs of a repeating timer are its interval apart, in microseconds and but for less than one |
| TimerRuns.CancelTouchesOnlyItsTimer | cppnetool/net/TimerQueue.cc:215-229 | cancel deletes exactly the timer its id names; a stale id, even with a reused address, changes and suppresses no timer |
| TimerRuns.BodyKeepsBatch | cppnetool/net/TimerQueue.cc:115-127 | whatever callbacks and other threads do during a batch, the batch and its timers stay as they were, and the callbacks run in order |
| TimerRuns.FateAtEnd | cppnetool/net/TimerQueue.cc:150-169 | at the end a timer of the batch is back in both indices iff it repeats and was not cancelled, and is deleted otherwise |
| TimerRuns.WholeBatch | cppnetool/net/TimerQueue.cc:109-180 | any run that is one handleRead end to end is safe; in it every due timer runs once in order, and its fate depends only on repeating and on the ids cancelled during the batch |
| TimerRuns.FateOfDue | cppnetool/net/TimerQueue.cc:109-180 | what becomes of one due timer, in numbers: back in both indices one interval after now, but for less than a microsecond, iff it repeats and was not cancelled; else freed and in neither |
| TimerQueues.TimerQueue.constructor | cppnetool/net/TimerQueue.cc:73-81 | starts empty and unarmed, with any value of callingExpiredTimers_ |
| TimerQueues.TimerQueue.Close | cppnetool/net/TimerQueue.cc:82-90 | the destructor deletes every indexed timer once |
| TimerQueues.TimerQueue.InsertTimer | cppnetool/net/TimerQueue.cc:183-207 | both insertions find the timer absent; the result says whether it is the new earliest |
| TimerQueues.TimerQueue.AddTimerInLoop | cppnetool/net/TimerQueue.cc:98-107 | refines the model's operation, with the alarm re-armed iff the earliest changed |
| TimerQueues.TimerQueue.AddTimerHere | cppnetool/net/TimerQueue.cc:91-97 | adding from the loop's thread is one model step; the returned id is active |
| TimerQueues.TimerQueue.AddTimerFromElsewhere | cppnetool/net/TimerQueue.cc:94-95 | another thread creates the timer and hands it over, keeping the pointer; at that moment it has the next number and is not active |
| TimerQueues.TimerQueue.ReadId | cppnetool/net/TimerQueue.cc:96-96 | reads the number of whatever timer is at the address, and needs one there |
| TimerQueues.TimerQueue.AddTimerFromQueue | cppnetool/net/TimerQueue.cc:98-107 | the queued half of such an addition |
| TimerQueues.TimerQueue.CancelInLoop | cppnetool/net/TimerQueue.cc:215-230 | refines the model's cancel, assertions included |
| TimerQueues.TimerQueue.EraseActive | cppnetool/net/TimerQueue.cc:138-144 | every erase in the loop finds its timer; exactly the batch leaves the active set |
| TimerQueues.TimerQueue.GetExpired | cppnetool/net/TimerQueue.cc:129-148 | returns exactly the due entries in order and leaves exactly the later ones, in both indices |
| TimerQueues.TimerQueue.ResetEntry | cppnetool/net/TimerQueue.cc:154-169 | one round of the loop in reset |
| TimerQueues.TimerQueue.Reset | cppnetool/net/TimerQueue.cc:150-180 | refines the model's reset of the whole batch and re-arms for the earliest |
| TimerQueues.TimerQueue.RunTimer | cppnetool/net/TimerQueue.cc:120-124 | one callback with whatever it adds and cancels |
| TimerQueues.TimerQueue.StartBatch | cppnetool/net/TimerQueue.cc:109-118 | entering a batch clears the tombstones, whatever they were |
| TimerQueues.TimerQueue.RunBatch | cppnetool/net/TimerQueue.cc:120-125 | the loop over the batch refines the run made of its callbacks' steps |
| TimerQueues.TimerQueue.HandleRead | cppnetool/net/TimerQueue.cc:109-127 | handleRead refines the model's run and settles every due timer |
| FunctorQueue.StepKeepsInvariant | cppnetool/net/EventLoop.cc:106-177 | every atomic step keeps order and pending wakeups |
| FunctorQueue.NoLostWakeup | cppnetool/net/EventLoop.cc:106-177 | in every interleaving, while a functor from another thread or a batch is pending, the counter is positive, somebody is about to write it, or the loop is between its read and its swap |
| FunctorQueue.ExecutedInQueueOrder | cppnetool/net/EventLoop.cc:126-171 | executed ++ rest of the batch ++ pending is the history of pushes |
| FunctorQueue.ExecutedAreTheFirstCalls | cppnetool/net/EventLoop.cc:126-177 | in every interleaving the functors executed are the first ones queued, as many as were run |
| FunctorQueue.BatchIsFixed | cppnetool/net/EventLoop.cc:126-141 | until it is finished, exactly the swapped-out batch is executed, whatever is queued meanwhile |
| FunctorQueue.OneDispatchDrains | cppnetool/net/EventLoop.cc:115-141 | one dispatch on a readable eventfd runs everything queued by then |
| FunctorQueue.DrainsIffDue | cppnetool/net/EventLoop.cc:106-177 | the queue can be emptied without queueing more iff a wakeup is due |
| FunctorQueue.UndueStays | cppnetool/net/EventLoop.cc:165-177 | with no wakeup due, what is pending stays pending |
| FunctorQueue.QueueInLoopSignals | cppnetool/net/EventLoop.cc:165-177 | queueInLoop leaves a wakeup due iff it came from another thread or a batch, or one was due already |
| FunctorQueue.HandlerFunctorStranded | cppnetool/net/EventLoop.cc:173-176 | a functor queued by a handler on the loop's thread is never run unless something else wakes the loop |
| FunctorQueue.EventLoop.Wakeup | cppnetool/net/EventLoop.cc:106-114 | the eventfd is readable afterwards, even when its counter is full |
| FunctorQueue.EventLoop.QueueInLoop | cppnetool/net/EventLoop.cc:165-177 | from any thread: the functor is last in the queue, and a wakeup was written iff the caller is another thread or a batch is running |
| FunctorQueue.EventLoop.DoPendingFunctors | cppnetool/net/EventLoop.cc:126-141 | with any calls of queueInLoop by functors and other threads meanwhile, in any interleaving of their halves: runs exactly what was queued at the swap; the rest waits in order, with a wakeup due |
| FunctorQueue.EventLoop.RunBatch | cppnetool/net/EventLoop.cc:136-139 | the loop runs the batch in order, as a run of the step machine with those steps in between |
| FunctorQueue.EventLoop.HandleRead | cppnetool/net/EventLoop.cc:115-124 | the same with steps of other threads between the read and the swap; all that was pushed up to the swap has run |
| Polling.SlotAfter | cppnetool/net/Poller.cc:51-80 | whether a registered descriptor is parked after any updates of any channels |
| Polling.PolledUntilEmptied | cppnetool/net/Poller.cc:71-77 | a channel is polled exactly as long as no update after its registration found it without events |
| Polling.EnabledYetParked | cppnetool/net/Poller.cc:71-77 | disabled and enabled again, a channel wants to read and is not polled |
| Polling.SwitchesByBits | cppnetool/net/Channel.cc:9-11 | bit by bit: reading asks for ordinary and urgent data, writing for room, and neither switch touches the other |
| Polling.RegisterKeepsWiring | cppnetool/net/Poller.cc:55-65 | a registration keeps vector and positions a bijection and is the map's insertion |
| Polling.RewriteKeepsWiring | cppnetool/net/Poller.cc:69-77 | an update in place does too, and is the map's update |
| Polling.SwapOutKeepsWiring | cppnetool/net/Poller.cc:94-106 | swap-with-last removal does too, with the last slot parked or not, and is the map's removal |
| Polling.ReadyExactly | cppnetool/net/Poller.cc:36-47 | the reported descriptors are exactly those of slots with events |
| Polling.ReadyOnce | cppnetool/net/Poller.cc:36-47 | no descriptor is reported twice when each has one slot |
| Polling.EachReadyOnce | cppnetool/net/Poller.cc:36-47 | which wired slots are |
| Polling.Channel.EnableReading | cppnetool/net/Channel.h:37-37 | sets its bits and updates the poller's map |
| Polling.Channel.EnableWriting | cppnetool/net/Channel.h:38-38 | sets its bit and updates the poller's map |
| Polling.Channel.DisableWriting | cppnetool/net/Channel.h:39-39 | clears its bit only and updates the poller's map |
| Polling.Channel.DisableAll | cppnetool/net/Channel.h:40-40 | clears all bits, after which a registered channel is parked and may be removed |
| Polling.Poller.UpdateChannel | cppnetool/net/Poller.cc:51-80 | refines the plain map; every assertion holds |
| Polling.Poller.RemoveChannel | cppnetool/net/Poller.cc:82-107 | refines the plain map; every assertion holds, and the removed channel keeps its old index |
| Polling.Poller.FillActiveChannels | cppnetool/net/Poller.cc:34-49 | given poll's contract, returns the channel of each slot with events, in order and no channel twice, and stops early without missing any |
| Buffers.Buffer.constructor | cppnetool/net/Buffer.h:34-42 | empty, with the initial room on both sides |
| Buffers.Buffer.Retrieve | cppnetool/net/Buffer.h:63-67 | drops from the head |
| Buffers.Buffer.RetrieveAsString | cppnetool/net/Buffer.h:82-87 | returns the contents and empties the buffer |
| Buffers.Buffer.MakeSpace | cppnetool/net/Buffer.h:153-168 | keeps the contents and makes the room, in the same vector with the contents at the front iff there is room for them so; the assertion on compaction follows from the guard |
| Buffers.Buffer.MoveFront | cppnetool/net/Buffer.h:161-163 | the overlapping copy moves the contents to the front |
| Buffers.Buffer.EnsureWritableBytes | cppnetool/net/Buffer.h:106-112 | the room is there and the contents are unchanged |
| Buffers.Buffer.Append | cppnetool/net/Buffer.h:94-99 | adds at the tail |
| Buffers.Buffer.Prepend | cppnetool/net/Buffer.h:123-129 | adds at the head, which retrieving as many bytes undoes |
| Buffers.Buffer.ReadFd | cppnetool/net/Buffer.cc:11-30 | appends exactly the bytes read, through the overflow area or not; nothing on failure |
| Buffers.Buffer.Swap | cppnetool/net/Buffer.h:44-49 | exchanges the contents |
| Connections.StepKeepsInvariant | cppnetool/net/TcpConnection.cc:61-238 | every step keeps accepted == written ++ waiting, writing iff something waits, and the half-close discipline |
| Connections.StreamIsKept | cppnetool/net/TcpConnection.cc:109-238 | over all runs: the stream is in order, writing is enabled iff output waits, shutdownWrite comes at most once and after the last accepted byte |
| Connections.NothingAfterShutdown | cppnetool/net/TcpConnection.cc:160-238 | after shutdownWrite nothing is accepted or written |
| Connections.ShutdownTakesEffect | cppnetool/net/TcpConnection.cc:128-218 | after shutdown a live connection is half-closed iff its output is drained |
| Connections.StagesOnlyAdvance | cppnetool/net/TcpConnection.cc:61-84 | states only move forward, and a run destroys a connection at most once |
| Connections.SendOutcome | cppnetool/net/TcpConnection.cc:160-202 | send by the answer of write: what is taken is written and the rest waits; an error takes nothing; unless connected nothing happens |
| Connections.WriteOutcome | cppnetool/net/TcpConnection.cc:109-140 | handleWrite by the answer of write: exactly the bytes taken move, also when only some do |
| Ledgers.LedgerTells | cppnetool/net/TcpConnection.cc:61-238 | in every run counters kept from the steps and the kernel's answers alone tell the state, what was accepted, written, left waiting, received and left unread, and the half-close |
| Ledgers.WrittenIsTaken | cppnetool/net/TcpConnection.cc:109-202 | in every run as many bytes were written as the positive answers of write add up to |
| Connections.DispatchIsRun | cppnetool/net/Channel.cc:31-73 | one dispatch never touches a connection it has destroyed, and destroys it iff the read ends or the peer hung up with nothing to read |
| Connections.DispatchLeads | cppnetool/net/Channel.cc:31-73 | where one dispatch leads: the write first, then the read or the close |
| Connections.DispatchByFlags | cppnetool/net/Channel.cc:31-73 | flag by flag: ordinary data, urgent data and a peer that stopped sending each cause a read; without them nothing is read, and the connection is destroyed iff the peer hung up |
| Connections.EnableWritingLosesShutdown | cppnetool/net/TcpConnection.cc:56-59 | after enableWriting, any run, shutdown and any run: if writing was on with nothing to write at the shutdown, the half-close never comes; otherwise a live connection is half-closed iff drained |
| Connections.EnableWritingIff | cppnetool/net/TcpConnection.cc:56-59 | called right before shutdown it suppresses the half-close in every run iff nothing waited to be written |
| LateSends.QueuedSendIff | cppnetool/net/TcpConnection.cc:172-202 | a send queued by another thread that comes to run keeps the promises of the stream iff the message is empty or no half-close has happened |
| LateSends.QueuedSendAssertsIff | cppnetool/net/Poller.cc:67-68 | its enableWriting finds the channel registered iff the connection is live or nothing of the message has to wait |
| LateSends.LateSendsIff | cppnetool/net/TcpConnection.cc:160-202 | in every run with sends from any thread: the stream keeps its promises throughout and that assertion never fails iff every queued message that is not empty runs before any half-close, and on a destroyed connection only if it is taken whole |
| LateSends.OpenIsInTime | cppnetool/net/TcpConnection.cc:160-202 | which is so in every run that neither shuts the connection down nor destroys it |
| LateSends.QueuedInOrder | cppnetool/net/TcpConnection.cc:160-170 | queued messages run in the order in which they were sent while connected, none twice and none left out |
| LateSends.WrittenAfterHalfClose | cppnetool/net/TcpConnection.cc:160-218 | a run that writes a byte after the half-close and half-closes twice |
| Switches.StepTracks | cppnetool/net/Channel.h:37-40 | every step of a connection keeps its slot in the poller equal to what it wants, and no other slot changes |
| Switches.RemovedWhenParked | cppnetool/net/Poller.cc:88-93 | when a connection's channel is removed its slot is parked and asks for nothing, as removeChannel asserts |
| Switches.LiveConnectionIsPolled | cppnetool/net/Poller.cc:51-80 | in every run the slot of a live connection is not parked and asks for ordinary and urgent data, and for room iff output waits; otherwise the poller has no slot for it |
| TcpConnections.TcpConnection.ConnectEstablished | cppnetool/net/TcpConnection.cc:61-70 | connected and reading |
| TcpConnections.TcpConnection.Send | cppnetool/net/TcpConnection.cc:160-170 | on the loop's thread sends iff connected; on another one leaves the connection alone and queues the message iff connected |
| TcpConnections.TcpConnection.SendInLoop | cppnetool/net/TcpConnection.cc:172-202 | in any state: written and waiting bytes together grow by the message, for every answer of write |
| TcpConnections.TcpConnection.HandleWrite | cppnetool/net/TcpConnection.cc:109-140 | refines the step: a prefix of what waits is written, and on drain writing stops and a pending half-close happens |
| TcpConnections.TcpConnection.Shutdown | cppnetool/net/TcpConnection.cc:204-218 | half-closes now or on drain |
| TcpConnections.TcpConnection.ShutdownAll | cppnetool/net/TcpConnection.cc:220-238 | the same, and the reading side is never shut down |
| TcpConnections.TcpConnection.HandleRead | cppnetool/net/TcpConnection.cc:86-100 | data, end of file and error lead to message, close and error handling |
| TcpConnections.TcpConnection.HandleEvent | cppnetool/net/Channel.cc:31-73 | the dispatch with this connection's callbacks refines the run of its steps |
| TcpConnections.TcpConnection.HandleClose | cppnetool/net/TcpConnection.cc:149-158 | with the close callback: destroyed, nothing enabled |
| TcpConnections.TcpConnection.ConnectDestroyed | cppnetool/net/TcpConnection.cc:72-84 | its assertion on the state holds; disconnected and nothing enabled |
| Attempts.StepKeepsInvariant | cppnetool/net/Connector.cc:40-200 | every step keeps the accounting of sockets and the single attempt |
| Attempts.SocketsAccounted | cppnetool/net/Connector.cc:58-200 | in every run each socket is held, closed or handed over, exactly one of them exactly once, and at most one attempt or retry timer is outstanding |
| Attempts.ErrorThenWrite | cppnetool/net/Connector.cc:143-184 | an event with both an error and room to write settles the socket once |
| Attempts.AttemptByErrno | cppnetool/net/Connector.cc:58-96 | errno by errno: the new socket is waited for, closed with a retry timer, or closed for good |
| Attempts.EventOutcome | cppnetool/net/Connector.cc:143-200 | for every event: the socket is handed over iff there is no error, it is writable, connecting did not fail and the connector is wanted; after an error or a failure it is closed, with a retry timer iff wanted |
| Attempts.RetryDelays | cppnetool/net/Connector.cc:186-200 | 500 ms at first, then twice the last delay, up to 30 s |
| Attempts.StoppedStaysQuiet | cppnetool/net/Connector.cc:107-111 | after a stop nothing is handed over and no socket is created until the next start |
| Attempts.UnguardedStart | cppnetool/net/Connector.cc:40-56 | start in any state keeps the invariant iff nothing is under way or the new attempt fails for good |
| Attempts.UnguardedStartLoses | cppnetool/net/Connector.cc:40-200 | after start a socket is lost, or is lost in some later run, iff something was under way and the new attempt did not fail for good |
| Attempts.UnguardedStartLosesAtOnce | cppnetool/net/Connector.cc:113-125 | it is lost at once iff a socket was waiting and the new attempt got under way |
| Attempts.UnguardedStartDoubles | cppnetool/net/Connector.cc:40-56 | start makes a second attempt iff something is under way and the new attempt does not fail for good |
| Attempts.UnguardedRestart | cppnetool/net/Connector.cc:98-105 | restart keeps the invariant iff nothing is under way, or no socket is waiting and the new attempt fails for good |
| Attempts.DestructorAccounts | cppnetool/net/Connector.cc:24-38 | the destructor leaves nothing registered or timed, and loses a socket iff one is waiting |
| Connectors.Connector.Start | cppnetool/net/Connector.cc:40-56 | in any state: one attempt more; the invariant survives iff nothing was under way or the attempt failed for good |
| Connectors.Connector.Restart | cppnetool/net/Connector.cc:98-105 | in any state: disconnected, first delay, one attempt more; when the invariant survives |
| Connectors.Connector.Connect | cppnetool/net/Connector.cc:58-96 | waits, retries or gives up, by errno |
| Connectors.Connector.TryAgain | cppnetool/net/Connector.cc:186-200 | closes, and sets a timer with the doubled, bounded delay iff still wanted |
| Connectors.Connector.HandleWrite | cppnetool/net/Connector.cc:143-173 | a socket handed over is no longer registered; the assertion in the other branch holds |
| Connectors.Connector.HandleEvent | cppnetool/net/Channel.cc:40-51 | error first, then write; at most one socket is handed over |
| Connectors.Connector.Stop | cppnetool/net/Connector.cc:107-111 | refines the step |
| Connectors.Connector.Delete | cppnetool/net/Connector.cc:24-38 | its assertion holds; nothing is left under way |
| Relays.StepKeepsRelay | proxy/Session.cc:41-148 | every event of a session, its end included, keeps both streams, the single attempt and the drained input buffers |
| Relays.RequestsConserved | proxy/Session.cc:65-148 | in every run, through every reconnection: what was read from the client was handed to one upstream connection after another, in order, or waits; all of it was also written, or still waits to be, iff every former upstream connection was closed with an empty output buffer; and how many bytes are missing otherwise |
| Relays.ReadsAreRecorded | cppnetool/net/TcpConnection.cc:86-100 | in every run what counts as read is what the kernel delivered, on either side, in order |
| Relays.RequestForwarded | proxy/Session.cc:129-134 | data from the client goes to the upstream connection in the same step: written as far as the kernel takes it when nothing waited, waiting otherwise |
| Relays.AnswerForwarded | proxy/Session.cc:104-108 | and data from upstream to the client |
| Relays.UpstreamComesIff | proxy/Session.cc:65-84 | an event brings an upstream connection iff it reports a connected socket without an error; what the client sent so far is then offered to the kernel |
| Relays.ClosedUpstreamLoses | cppnetool/net/TcpClient.cc:127-147 | a run that loses any given bytes for good |
| Relays.ResponsesConserved | proxy/Session.cc:92-114 | while the client is live, what was read upstream is what was written to the client ++ its output buffer, in order |
| Relays.LiveSessionRelays | proxy/Session.cc:65-148 | in every run, while both connections are live: nothing waits in an input buffer, everything read on either side was written to the other or waits there, and each side asks to write iff something waits |
| Relays.FirstUpstreamRelays | proxy/Session.cc:65-148 | with the first upstream connection each side has been written a prefix of what the other delivered |
| Relays.OneAttemptAtATime | proxy/Session.cc:130-143 | in every run there is at most one attempt, none while an upstream connection exists or after the session's end; each socket handed over became one connection; every socket is accounted for iff the session did not end while the connector was waiting for one |
| Relays.EndLosesWaitingSocket | proxy/Session.cc:41-48 | at the end of a session nothing is under way, and exactly the socket that was being waited for is neither closed nor handed over |
| Relays.EndHalfCloses | proxy/Session.cc:41-48 | at its end a session half-closes the connections it still has where nothing waits, and destroys them |
| Relays.HandedIsUnregistered | cppnetool/net/Connector.cc:127-165 | the connector has no channel registered for a socket it has handed over |
| Relays.GetsStuckIff | proxy/Session.cc:135-143 | a step leaves the session believing in an attempt that does not exist iff it starts one whose connect fails for good |
| Relays.StuckForGood | proxy/Session.cc:135-143 | from then on, in every run, no upstream connection comes and what the client sends is only kept |
| Relays.NeverStuck | proxy/Session.cc:135-143 | in a run without such a failure the flag is right: without an upstream connection something is under way |
| Relays.StuckFromTheStart | proxy/Session.cc:35-36 | the first attempt can do it |
| Sessions.Session.constructor | proxy/Session.cc:8-39 | starts the first attempt |
| Sessions.Session.OnTcpServerMessage | proxy/Session.cc:117-148 | passes on what the client sent, or has an upstream connection made unless one is being made |
| Sessions.Session.OnTcpClientMessage | proxy/Session.cc:92-114 | passes on what the server answered iff the client is still listed |
| Sessions.Session.OnTcpClientConnection | proxy/Session.cc:65-89 | passes on at once what the client has sent so far |
| Sessions.Session.NewConnection | cppnetool/net/TcpClient.cc:93-125 | a new established upstream connection, with the callback's effect |
| Sessions.Session.RemoveConnection | cppnetool/net/TcpClient.cc:127-147 | the upstream connection is destroyed and forgotten |
| Sessions.Session.ClientReads | cppnetool/net/TcpConnection.cc:86-100 | a read of the client's socket is one step of the relay: message, close or error |
| Sessions.Session.ClientWrites | cppnetool/net/TcpConnection.cc:109-140 | so is a write to it |
| Sessions.Session.UpReads | cppnetool/net/TcpConnection.cc:86-100 | so is a read of the upstream socket |
| Sessions.Session.UpWrites | cppnetool/net/TcpConnection.cc:109-140 | so is a write to it |
| Sessions.Session.ConnectorReports | cppnetool/net/Connector.cc:143-184 | so is an event of the connector, with the hand-over |
| Sessions.Session.ConnectorRetries | cppnetool/net/Connector.cc:194-195 | so is a retry |
| Sessions.Session.RemoveClient | cppnetool/net/TcpServer.cc:106-111 | the client's connection is shut down, destroyed and forgotten |
| Sessions.Session.DropUpstream | cppnetool/net/TcpClient.cc:54-60 | so is the upstream connection |
| Sessions.Session.Close | proxy/Session.cc:41-48 | the end of the session is one step: what is left of both connections is destroyed, and the connector with its timer and its channel |
| Lifecycles.NamesDiffer | cppnetool/net/TcpServer.cc:54-57 | different numbers give different names |
| Lifecycles.NameSpelled | cppnetool/net/TcpServer.cc:54-57 | a name is the server's, a number sign and the number in decimal |
| Lifecycles.AcceptOutcome | cppnetool/net/TcpServer.cc:51-76 | accepting makes one connection, connected, listed under the next number and registered on its descriptor |
| Lifecycles.HandOverOutcome | cppnetool/net/TcpClient.cc:93-125 | a socket handed over becomes one connection on the same descriptor |
| Lifecycles.LookupOutcome | cppnetool/net/TcpServer.h:51-51 | asking for a missing name leaves a null entry and changes nothing else |
| Lifecycles.ShutDownSticks | cppnetool/net/TcpConnection.cc:204-210 | a connection that was shut down is disconnecting or gone in every later state |
| Lifecycles.StepIsSafe | cppnetool/net/TcpServer.cc:51-113 | no assertion of the server, the connections or the registration of channels fails, and the tables stay consistent, with close callbacks that remove any other names |
| Lifecycles.ExpireAllKeeps | cppnetool/net/TcpServer.cc:102-113 | removing any names, listed or not, repeated or not, is safe and destroys exactly the connections that bear them |
| Lifecycles.NoAssertionFails | cppnetool/net/TcpServer.cc:51-113 | in every run of accepts, dials, hand-overs, closes, expiries, lookups and releases with reused descriptors |
| Lifecycles.DestroyedExactlyOnce | cppnetool/net/TcpConnection.cc:72-84 | each disconnected connection was destroyed exactly once, by either path, and no other ever was |
| Lifecycles.TablesAgree | cppnetool/net/TcpServer.cc:51-113 | a name has a non-null entry iff a live connection bears it; a connection has a channel, under its own descriptor, iff it is live |
| Lifecycles.DescriptorsAreExclusive | cppnetool/net/Connector.cc:127-165 | no two attempts or live connections share a descriptor, across the hand-over, and each one's is open |
| Lifecycles.OpenIffHeld | cppnetool/net/Connector.cc:127-190 | in every run in which no connector is destroyed while waiting, the open descriptors are exactly those an attempt or a connection holds |
| Lifecycles.AbandonLeaks | cppnetool/net/Connector.cc:24-38 | otherwise that one stays open and nobody holds it |
| Lifecycles.StagesOnlyAdvance | cppnetool/net/TcpConnection.cc:61-84 | connections keep descriptor and name, and their stages only move forward |
| Lifecycles.LiveMeansConnected | cppnetool/net/TcpServer.cc:84-113 | without a shutdown from outside, a connection that is not destroyed is connected between events |
| Lifecycles.CloseCallbackIff | cppnetool/net/TcpServer.cc:84-94 | after a close callback that removes any names, the rest passes its assertions iff the name being closed is not among them |
| Lifecycles.ConnectionCallbackIff | cppnetool/net/TcpConnection.cc:72-84 | so for the connection callback inside connectDestroyed: no assertion fails iff the own name is not among those removed, and the outcome is then that of removing them first |
| TcpServers.TcpServer.NewConnection | cppnetool/net/TcpServer.cc:51-76 | a new name, listed and registered |
| TcpServers.TcpServer.ConnectEstablished | cppnetool/net/TcpConnection.cc:61-70 | its channel is the first for the descriptor |
| TcpServers.TcpServer.ConnectDestroyed | cppnetool/net/TcpConnection.cc:72-84 | its assertions hold; the channel is gone |
| TcpServers.TcpServer.CloseCallback | cppnetool/net/TcpServer.cc:84-88 | a callback that removes names refines the model's removals |
| TcpServers.TcpServer.RemoveConnectionInLoop | cppnetool/net/TcpServer.cc:84-99 | after the callback the name is found and erased, and the connection is destroyed for the first and only time |
| TcpServers.TcpServer.GetConn | cppnetool/net/TcpServer.h:51-51 | null or a live connection; a missing name gets a null entry |
| TcpServers.TcpServer.RemoveConn | cppnetool/net/TcpServer.cc:102-113 | afterwards the name has no connection, whether it had one or not |
| Numerals.DigitsParse | cppnetool/base/LogStream.cc:33-69 | reading the digits of a number gives the number |
| Numerals.ParseDigits | cppnetool/base/LogStream.cc:33-69 | writing the value of a numeral gives the numeral |
| Numerals.FormatParses | cppnetool/base/LogStream.cc:33-52 | the parser inverts the formatting, for every value |
| Numerals.ParseFormats | cppnetool/base/LogStream.cc:33-52 | and the formatting the parser |
| Numerals.NumeralsFit | cppnetool/base/LogStream.cc:96-102 | every 64-bit value, signed or not, takes at most 20 characters, and 16 in hexadecimal |
| Numerals.DigitsSpelled | cppnetool/base/LogStream.cc:24-28 | digits are 0 to 9 and A to F |
| Numerals.SignSpelled | cppnetool/base/LogStream.cc:44-47 | a minus sign marks exactly the negative numbers |
| LogStreams.TruncatesTowardsZero | cppnetool/base/LogStream.cc:39-40 | digit by digit a negative value loses what its absolute value loses, the most negative one included |
| LogStreams.MirroredTable | cppnetool/base/LogStream.cc:24-25 | the mirrored table finds the digit of a negative remainder |
| LogStreams.DigitRound | cppnetool/base/LogStream.cc:38-42 | one round moves one digit from what is to come to what is done, and the rounds come to an end |
| LogStreams.ReverseRange | cppnetool/base/LogStream.cc:50-50 | std::reverse in place, and nothing else |
| LogStreams.PutDigits | cppnetool/base/LogStream.cc:38-42 | the loop leaves the digits in reverse order |
| LogStreams.Convert | cppnetool/base/LogStream.cc:33-52 | the numeral of the value and a NUL, within the buffer |
| LogStreams.ConvertHex | cppnetool/base/LogStream.cc:54-69 | the same in hexadecimal |
| LogStreams.FixedBuffer.Append | cppnetool/base/LogStream.h:31-38 | the whole text or nothing, and a free byte remains |
| LogStreams.FixedBuffer.Avail | cppnetool/base/LogStream.h:44-44 | never zero |
| LogStreams.TextsSpelled | cppnetool/base/LogStream.h:88-92 | how each kind of operand is spelled |
| LogStreams.KeptIff | cppnetool/base/LogStream.cc:104-112 | an operand is kept iff a byte stays free, a number iff 32 bytes are free beforehand |
| LogStreams.KeptFits | cppnetool/base/LogStream.h:31-45 | what is kept of any pieces leaves a free byte |
| LogStreams.KeptAll | cppnetool/base/LogStream.cc:104-112 | nothing is dropped while the numeric reserve remains |
| LogStreams.LogStream.FormatInteger | cppnetool/base/LogStream.cc:104-112 | appends the whole numeral or nothing |
| LogStreams.LogStream.FormatPointer | cppnetool/base/LogStream.cc:162-174 | the same for a pointer, with its prefix |
| LogStreams.LogStream.ShiftAll | cppnetool/base/LogStream.h:88-101 | after any operands the buffer holds what it held and the kept pieces in order, each whole or dropped |

## Left out

- Attempts.SocketsAccounted: about runs in which an attempt is started only when nothing is under way; `Attempts.UnguardedStartLoses` says what happens otherwise.
- TimerRuns.EveryRunIsSafe: about the loop's steps and the hand-over of a timer; that the read of its number afterwards can go wrong is in `TimerIds`.
- TimerRuns.StepIsSafe: the same.
- TimerRuns.RunKeepsInvariant: the same.
- Connections.StreamIsKept: about sends on the loop's own thread; `LateSends.LateSendsIff` is about all.
- Lifecycles.NoAssertionFails: close callbacks leave the connection being closed alone; `Lifecycles.CloseCallbackIff` says that any other one makes an assertion fail.  Its connection callbacks remove nothing; `Lifecycles.ConnectionCallbackIff` says when removing there is the same as removing before.
- System calls: `poll`, `readv`, `write`, `connect`, `accept`, `eventfd` and `timerfd_settime` are inputs of the steps with the contract of POSIX.1-2017; the thin wrappers in `SocketOps`, `Socket`, `Acceptor` and `InetAddress` are not part of this model.
- Threads: each mutex-protected section is one atomic step; `Thread`, `Mutex`, `Condition`, `Logging` and `EventLoopThreadPool` are not part of this model, and a connection lives on one loop; `shutdown` from another thread is not covered.
- Identity of objects: timers, sockets and the server's connections are records in tables, named by address, by order of creation or by handle, so that reuse of an address or a descriptor is explicit; only buffers, channels and the connections of a session are objects that share a heap.
- Object lifetime: a connection, channel or timer queue destroyed while one of its own callbacks is on the stack; destruction is logical here, and a descriptor is closed by a separate step.
- Dispatch of a batch of active channels by `EventLoop::loop`: each dispatch is one step, in any order; that an earlier one may destroy a channel of a later one is an object-lifetime question.
- `EventLoop::runInLoop`: its two branches are the direct call and `queueInLoop`, both covered.
- `TcpClient`: its `connection_` and `state_` are one field of the session, and `enableRetry`, `disconnect` and `stop`, which the relay never calls, are not modelled.
- `Proxy::processSession_`, `Proxy::processQueue_` and the maps of `ServerManager`: the first, called after every round of the loop, erases from the map it iterates over, and what it erases is the end of a session, which is a step here; the second never finds its queue filled; and the maps are not used.
- The session's client and server times, which only `processSession_` reads.
- `Connections`: the public `enableReading` and `disableAll` of a live connection, outside close and destruction.
- `Buffer::shrink`, which leaves its indices behind, and `retrieveUntil`: unused.
- `Buffer` as `std::vector` keeps spare capacity; here resizing always makes a new array.
- Timestamps, sequence numbers and connection numbers are unbounded integers, and timer intervals are real numbers; overflow after 2^31 connections or in the year 294247 and the rounding of doubles are not modelled.
- Sequence numbers come from one counter for the whole program; here each queue's timers are numbered without gaps.
- The delay a retry timer is set for: the model says which delay comes next, and that a timer is set.
- The clocks: the timer descriptor counts on CLOCK_MONOTONIC, the queue reads the wall clock, and the two are taken to run together.  The wall clock is also taken to be past the epoch, which is what `Timestamp::valid` tests before re-arming.
- `FixedBuffer` offsets are `int` in the program; lengths of 2^31 and more are not modelled, nor are cookies, `debugString`, doubles and `Fmt`.
- The destructor of `TcpServer`, which does nothing to its connections.
