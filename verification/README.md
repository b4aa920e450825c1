# MyTinyHttpd: models and proofs

This project models the concurrent and stateful core of MyTinyHttpd, a multi-threaded HTTP server in C++,
and proves what its parts promise each other: that wake-ups are not lost, bytes stay in order, timers and
connections are freed once, log lines survive the buffer hand-off, idle connections are closed on time, and
the calendar, the number formatting and the request parser mean what they say.

Each component is one file. Code that changes things step by step is there twice: as a class with the fields
of the original, whose methods keep an invariant and are proved to do what a function on values does, and as a
state machine made of those functions, about which the main results are proved. Steps of different threads
interleave at the points where the original takes or releases a lock or returns to its event loop; a step that
is not possible in a state leaves it as it is, so the results hold for all sequences of steps whatsoever. A
failed assertion of the original is a `crashed` state or a `Broken` result, and where callers can provoke one,
the exact condition is proved.

| file | component |
|---|---|
| `EventLoop.dfy` | the pending-functor queue, the eventfd and the wake-up protocol |
| `TcpConnection.dfy` | sending, output buffering, high-water mark, half-close |
| `TcpLifecycle.dfy` | connections between the server, the loops, queued functors and the event sweep |
| `TimerQueue.dfy`, `TimerIdentity.dfy`, `TimerRuns.dfy` | the timer sets, cancellation during callbacks, timer identity, and the two together |
| `AsyncLogging.dfy` | the multi-buffer hand-off between producers and the log writer |
| `TimingWheel.dfy` | closing idle connections |
| `Pollers.dfy` | the poll and epoll registration tables |
| `Buffer.dfy` | the byte buffer with its prependable part |
| `HttpContext.dfy` | the incremental request parser |
| `BoundedBlockingQueue.dfy` | the monitor of the bounded queue |
| `Date.dfy`, `TimeZone.dfy` | calendar arithmetic, UTC and local time |
| `Numerals.dfy`, `LogStream.dfy` | integer formatting and the fixed buffer |
| `Options.dfy` | an optional value |

The kernel, the clock, memory addresses, the order in which threads proceed, what a `write` takes and which
sleeper a signal wakes are parameters of the steps, so the results hold for all of them. What was sent, queued,
appended, canceled or asked for in a run is read off its steps, not off what the machine itself records.

Several things one would expect of the code do not hold, and are stated with their exact conditions:

- `ShutdownWrite` can be called several times on one connection: by each `HandleWrite` that empties the
  backlog of a connection that is being closed, whether by a shutdown or a forced close, and by a queued
  `ShutdownInLoop`. Twice takes no queued message (`ShutDownTwice`); with queued messages there is no cap
  (`ShutAnyNumberOfTimes`). The exact number is known when closing starts (`HowOftenShutAfter`,
  `ShutAtMostOnceIff`).
- A message sent from another thread can be written after the write side is shut down
  (`QueuedSendReachable`, `NothingAfterShutdownIff`).
- A connection can be closed twice, by one event that reports both a hang-up and the end of file, or by the
  timer of `ShutdownAndForceCloseAfter` ahead of its own event in a sweep; `HandleClose` then fails its
  assertion (`CrashesAreReachable`, `CrashesIff`).
- The timing wheel fails an assertion on a message from a connection that it has shut down
  (`MessageAfterShutdownFails`, `FailsIff`).
- A functor queued before `Loop` is entered waits for the poll timeout unless the eventfd is set
  (`NoLostWakeup`).
- The sequence numbers of timers can repeat, but not together with an address (`SequenceNumbersRepeat`,
  `SequenceNumbersDistinctIff`, `PairsNeverRepeat`).
- A POST or PUT request is refused unless exactly its body has arrived with its headers
  (`BodyInPiecesFails`, `SplitIndependentIff`).
- A local time in a repeated period is ambiguous unless daylight saving tells the two apart
  (`HalfHourChangeIsAmbiguous`, `LocalRoundTripIff`).
- The week day of a day number before the origin is negative (`WeekDayInRangeIff`).
- A queue of capacity zero blocks producers and consumers for good (`NoPlacesNoProgress`); with places,
  they never wait for each other (`StuckMeansWaiting`).
- The `poll` back end does not take a removed channel again; the `epoll` one does (`ReuseFails`, and
  the two `RunKeepsInv`).

## Model

| member | source | states |
|---|---|---|
| `EventLoops.NoLostWakeup` | mytinyhttpd/net/event_loop.cc:86-141 | in every interleaving of the loop with any number of threads, no state leaves functors pending with the loop about to sleep and the eventfd unset, if and only if the queue was empty or the eventfd set when the loop was entered |
| `EventLoops.RunsInEnqueueOrder` | mytinyhttpd/net/event_loop.cc:132-141 | functors already run, the rest of the batch and the pending ones are, at all times, all the functors the threads have queued, in order, each once |
| `EventLoops.RunsWithinTwoIterations` | mytinyhttpd/net/event_loop.cc:86-112 | whatever the threads have queued by some moment has run by the second return of the poller after it |
| `EventLoops.WakeupsAreSpent` | mytinyhttpd/net/event_loop.cc:193-208 | after the wake-up channel is read, the poller reports it again only if some thread has called `Wakeup` since |
| `EventLoops.QuitStops` | mytinyhttpd/net/event_loop.cc:86-122 | once a thread has asked to quit, the poller returns once more at most |
| `EventLoops.OwingIs` | mytinyhttpd/net/event_loop.cc:114-141 | the threads counted on to end a poll are exactly those between their push, or request to quit, and their `Wakeup` |
| `EventLoops.BatchIsFixed` | mytinyhttpd/net/event_loop.cc:210-223 | functors queued while a batch runs are not part of it |
| `EventLoops.RunKeepsInv` | mytinyhttpd/net/event_loop.cc:86-141 | every run keeps the invariant that ties the queue, the batch, the position of the loop and the eventfd counter |
| `EventLoops.EventLoop.HandleRead` | mytinyhttpd/net/event_loop.cc:201-208 | reading takes the whole counter |
| `EventLoops.EventLoop.QueueInLoop` | mytinyhttpd/net/event_loop.cc:132-141 | the functor goes to the end of the queue, with a wake-up exactly while functors are being run |
| `EventLoops.EventLoop.SwapOut` | mytinyhttpd/net/event_loop.cc:210-217 | the pending queue becomes the batch and is left empty |
| `EventLoops.EventLoop.DoPendingFunctors` | mytinyhttpd/net/event_loop.cc:210-223 | every functor that was pending runs, in order; what they queue is left pending and the eventfd is set for it |
| `TcpConnections.BytesArriveInOrder` | mytinyhttpd/net/tcp_connnection.cc:111-153 | in every run, with any partial writes, the bytes on the socket followed by the output buffer are the messages handed to `SendInLoop` on the open connection, in order, but for those whose `write` found it broken; as many bytes are on the socket as the calls of `write` took; writing is enabled exactly when the buffer is not empty and the connection not closed |
| `TcpConnections.MessagesKeepOrder` | mytinyhttpd/net/tcp_connnection.cc:72-78 | messages sent from other threads while the connection is connected are handed to `SendInLoop` in the order of the calls, each once, and the others are still queued |
| `TcpConnections.ConnectedIff` | mytinyhttpd/net/tcp_connnection.cc:155-201 | a connection takes messages exactly until a shutdown, a forced close, a delayed one or the close of the peer |
| `TcpConnections.ClosedInTheEnd` | mytinyhttpd/net/tcp_connnection.cc:170-208 | each way to close a connection has closed it once the queued functors have run and the timers have fired |
| `TcpConnections.RunConserves` | mytinyhttpd/net/tcp_connnection.cc:111-153 | the same from any state that satisfies it |
| `TcpConnections.HalfCloseIsClean` | mytinyhttpd/net/tcp_connnection.cc:155-168 | with sends made in the loop, and shutdowns and closes from any thread or timer, the write side is shut down only after the last accepted byte, nothing follows, and it happens at most twice |
| `TcpConnections.HowOftenShut` | mytinyhttpd/net/tcp_connnection.cc:287-312 | from any state of a connection that is being closed, the write side is shut down in all at most as often as it has been, plus once for a backlog, plus once for every message with bytes and every shutdown queued ahead of a forced close; and some run reaches that number |
| `TcpConnections.HowOftenShutAfter` | mytinyhttpd/net/tcp_connnection.cc:155-201 | the same in any run, in terms of the backlog and the queue when a shutdown, a forced close or a delayed one starts closing the connection |
| `TcpConnections.ShutAtMostOnceIff` | mytinyhttpd/net/tcp_connnection.cc:155-201 | whatever happens after such a call, the write side is shut down at most once if and only if at most one of these is there at the call: a queued message with bytes, a backlog, a shutdown (which in the loop counts for the backlog too) |
| `TcpConnections.ShutAnyNumberOfTimes` | mytinyhttpd/net/tcp_connnection.cc:195-201 | for every n, a delayed forced close after n messages from another thread has a run that shuts the write side down n times |
| `TcpConnections.RunHalfClose` | mytinyhttpd/net/tcp_connnection.cc:155-168 | the same invariant in every run that shuts down when no send is queued, from whichever thread the sends came |
| `TcpConnections.ShutDownTwice` | mytinyhttpd/net/tcp_connnection.cc:155-168 | a run in which the open connection is shut down twice |
| `TcpConnections.NothingAfterShutdownIff` | mytinyhttpd/net/tcp_connnection.cc:72-78 | on a disconnecting connection without backlog, as a shutdown leaves it, no byte is ever written again if and only if no bytes are queued ahead of a forced close |
| `TcpConnections.QueuedSendReachable` | mytinyhttpd/net/tcp_connnection.cc:72-78 | two sends and a shutdown from another thread reach a state, shut down, with bytes still queued |
| `TcpConnections.HighWaterOnCrossing` | mytinyhttpd/net/tcp_connnection.cc:141-152 | a step queues the high-water callback exactly when it takes the backlog from below the mark to it or over it, with the new length |
| `TcpConnections.HighWaterOverRuns` | mytinyhttpd/net/tcp_connnection.cc:141-152 | the callbacks of a run are its upward crossings, one each, in order |
| `TcpConnections.WriteCompleteIff` | mytinyhttpd/net/tcp_connnection.cc:111-153 | a write-complete callback is queued exactly when a `write` succeeds and leaves nothing unwritten |
| `TcpConnections.TcpConnection.SendInLoop` | mytinyhttpd/net/tcp_connnection.cc:111-153 | the object with its byte buffer does what the machine's send does: the message joins the bytes on the socket and in the buffer at the end, whole, unless its `write` finds the connection broken |
| `TcpConnections.TcpConnection.Send` | mytinyhttpd/net/tcp_connnection.cc:72-78 | sent at once in the loop thread, else queued as a functor, and only while connected |
| `TcpConnections.TcpConnection.Shutdown` | mytinyhttpd/net/tcp_connnection.cc:155-185 | with or without a forced close to follow: if the write side is shut down at once, the buffer is empty and every accepted byte is written |
| `TcpConnections.TcpConnection.ShutdownInLoop` | mytinyhttpd/net/tcp_connnection.cc:163-168 | the write side of an open connection is shut down exactly when the buffer is empty, and then every accepted byte is written |
| `TcpConnections.TcpConnection.HandleWrite` | mytinyhttpd/net/tcp_connnection.cc:287-312 | takes written bytes off the buffer; when it empties, stops writing, queues the callback and shuts down a disconnecting connection |
| `TcpConnections.TcpConnection.RunTask` | mytinyhttpd/net/tcp_connnection.cc:111-208 | the oldest queued functor of the connection does what the machine's step does |
| `TcpLifecycle.CrashesIff` | mytinyhttpd/net/tcp_connnection.cc:251-324 | in every interleaving of the loops, their timers and calls from any thread, an assertion fails if and only if some close or end-of-file callback finds its connection no longer open |
| `TcpLifecycle.StepCrashesIff` | mytinyhttpd/net/tcp_connnection.cc:251-324 | the same for one step, with the course of all connections kept otherwise |
| `TcpLifecycle.LivesAreOrderly` | mytinyhttpd/net/tcp_connnection.cc:251-324 | in all other runs every connection is established, closed, erased and destroyed, each once and in that order |
| `TcpLifecycle.NothingLeaks` | mytinyhttpd/net/tcp_server.cc:52-87 | when no functor is queued, every connection is open and in the map, or at the end of its life |
| `TcpLifecycle.UnheldIsFinished` | mytinyhttpd/net/tcp_server.cc:78-87 | a connection that neither the map nor a functor holds is disconnected and out of the poller, as its destructor asserts |
| `TcpLifecycle.HangUpCrashes` | mytinyhttpd/net/channel.cc:65-89 | an event that reports a hang-up and the end of file fails wherever it is handled |
| `TcpLifecycle.CrashesAreReachable` | mytinyhttpd/net/tcp_connnection.cc:170-185 | both failures have a run from the start |
| `TcpLifecycle.TimerBeforeEventCrashes` | mytinyhttpd/net/tcp_connnection.cc:170-185 | a force-close timer that fires in the sweep before the connection's own end-of-file event makes `HandleClose` fail |
| `TcpLifecycle.StepKeepsInv` | mytinyhttpd/net/tcp_server.cc:52-87 | every step keeps each connection at a point of its course, with the functors, map entry, poller registration and sweep entries of that point |
| `TcpLifecycle.RunCrashesIff` | mytinyhttpd/net/tcp_server.cc:52-87 | the same over runs from any such state |
| `TcpLifecycle.StepsAreConfined` | mytinyhttpd/net/tcp_server.cc:52-87 | what the handlers assert about threads: every step of a run that changes the map of connections is made by the base loop, and every one that changes the channel of a connection, establishes or closes it, by its own loop |
| `TcpLifecycle.CallsAreQueued` | mytinyhttpd/net/tcp_connnection.cc:72-201 | every call from another thread has its functor queued once, and a loop runs each one once |
| `TcpLifecycle.TcpServer.NewConnection` | mytinyhttpd/net/tcp_server.cc:52-72 | with one first-in-first-out queue per loop: a connection with a new name enters the map, its establishment runs or is queued on its loop, the queues still hold the machine's functors and every connection is on its course |
| `TcpLifecycle.TcpServer.RunOldest` | mytinyhttpd/net/tcp_server.cc:78-87 | the oldest functor of a loop's queue does what the machine does with it, what it asserts holds, every connection stays on its course, and the functor of `ShutdownAndForceCloseAfter`, which has only a plain pointer, finds its connection still held |
| `TcpLifecycle.TcpServer.ShutdownAfterFrom` | mytinyhttpd/net/tcp_connnection.cc:170-176 | called from another thread: the functor with the plain pointer goes on the queue of the connection's loop ahead of any functor that gives up the connection, and every connection stays on its course |
| `TcpLifecycle.TcpServer.HandleEvent` | mytinyhttpd/net/channel.cc:65-89 | the callbacks of one event, in the order close, read, write, are the machine's four steps |
| `TimerQueues.ReachableStatesAgree` | mytinyhttpd/net/timer_queue.cc:95-207 | in every reachable state, callbacks included, the set by expiration and the set by address hold the same timers in order, and every timer issued is queued, in the batch, on its way in, or freed, and in one place only |
| `TimerQueues.SizesAgree` | mytinyhttpd/net/timer_queue.cc:104-121 | the two sets have the same size, as the code asserts throughout |
| `TimerQueues.NoUseAfterFree` | mytinyhttpd/net/timer_queue.cc:104-181 | no step runs, restarts or frees a timer that has been freed |
| `TimerQueues.CanceledTimersStop` | mytinyhttpd/net/timer_queue.cc:104-121 | in every run: a timer canceled while queued never runs again, and one canceled while the batch it is in is run, by itself or another, never runs again once that batch is over |
| `TimerQueues.QueueMeans` | mytinyhttpd/net/timer_queue.cc:84-207 | in every run the two sets, the batch and the set of timers being canceled amount to one map from timers to plans: a timer is queued until it is due or canceled, comes back its interval after the time of its batch if it repeats and was not canceled meanwhile, and is gone otherwise |
| `TimerQueues.CancelIs` | mytinyhttpd/net/timer_queue.cc:104-121 | canceling a queued timer takes it out of both sets and frees it and nothing else; any other id is remembered while a batch is run, and ignored otherwise |
| `TimerQueues.FinishIs` | mytinyhttpd/net/timer_queue.cc:160-181 | after a batch every timer of it that repeats and was not canceled is back in the sets, expiring its interval after the time of the batch, every other one of it is freed, and no other timer is touched |
| `TimerQueues.ExpireTakesDueTimers` | mytinyhttpd/net/timer_queue.cc:140-158 | a batch is exactly the timers due, in order of expiration |
| `TimerQueues.TimerfdIsArmed` | mytinyhttpd/net/timer_queue.cc:26-60 | in every run with times after the epoch, a nonempty queue outside a batch has the timerfd armed no later than its first timer |
| `TimerQueues.FinishArmsIff` | mytinyhttpd/net/timer_queue.cc:160-181 | after a batch the timerfd is armed for the earliest expiration, or the floor of 100 microseconds, if and only if that expiration is after the epoch, and left alone otherwise |
| `TimerQueues.AddArmsIff` | mytinyhttpd/net/timer_queue.cc:95-102 | adding a timer arms the timerfd for it if and only if it expires before all others |
| `TimerQueues.InsertSortedIs` | mytinyhttpd/net/timer_queue.cc:183-207 | inserting adds the entry and keeps the order |
| `TimerQueues.EraseIs` | mytinyhttpd/net/timer_queue.cc:104-121 | erasing takes out that entry only |
| `TimerQueues.ExpiredCountIs` | mytinyhttpd/net/timer_queue.cc:140-158 | the split point: what is before it is due and what is behind it is not |
| `TimerQueues.TimerQueue.AddTimerInLoop` | mytinyhttpd/net/timer_queue.cc:95-102 | the timer is in both sets, and the timerfd is set again when it is the earliest |
| `TimerQueues.TimerQueue.CancelInLoop` | mytinyhttpd/net/timer_queue.cc:104-121 | a queued timer leaves both sets and is freed; any other id is noted while a batch is run |
| `TimerQueues.TimerQueue.GetExpired` | mytinyhttpd/net/timer_queue.cc:140-158 | the due timers are taken out of both sets |
| `TimerQueues.TimerQueue.Reset` | mytinyhttpd/net/timer_queue.cc:160-181 | timers of the batch that repeat and were not canceled are queued again, the interval after the time of the batch, the others of it freed, the rest untouched, and the timerfd set |
| `TimerQueues.TimerQueue.HandleRead` | mytinyhttpd/net/timer_queue.cc:123-138 | every timer due runs once, in order, whatever the callbacks add and cancel, and the sets agree afterwards |
| `TimerIdentity.PairsNeverRepeat` | mytinyhttpd/net/timer.h:17-22 | with any number of threads and any reuse of addresses, no pair of address and sequence number is issued twice |
| `TimerIdentity.StaleIdNamesNothing` | mytinyhttpd/net/timer.h:17-22 | a timer id names the timer it was issued for or none |
| `TimerIdentity.NamesUntilFreed` | mytinyhttpd/net/timer.h:15-42 | the id of a timer just made names it until its memory is freed, and never after |
| `TimerIdentity.SequenceNumbersRepeat` | mytinyhttpd/base/atomic.h:31-34 | sequence numbers alone can repeat, since the increment and the read are two atomic steps |
| `TimerIdentity.SequenceNumbersDistinctIff` | mytinyhttpd/net/timer.h:17-22 | in every run that ends with no thread between its two steps, they are distinct if and only if no two threads were between them at a read |
| `TimerRuns.ConstructedIsNew` | mytinyhttpd/net/timer_queue.cc:84-89 | in every run of the threads and the queues of all loops together, a timer made has a free address and an id never issued, as its queue needs |
| `TimerRuns.CancelFreesItsOwn` | mytinyhttpd/net/timer_queue.cc:104-121 | with the queues of any number of loops, which share the counter and the allocator, canceling the id of any timer ever made, in any of the loops, frees that timer or nothing, whatever was freed and reused since |
| `TimerIdentity.WrappedPairsNeverRepeat` | mytinyhttpd/base/atomic.h:13-34 | pairs stay distinct under 64-bit wrap-around as long as at most 2^64 timers were started |
| `AsyncLogging.SparesAreReady` | mytinyhttpd/base/async_logging.cc:47-116 | in every interleaving no assertion fails and no null pointer is used, and both spare buffers are there and empty at every loop head |
| `AsyncLogging.FileIs` | mytinyhttpd/base/async_logging.cc:30-116 | in every interleaving the list and the current buffer are the lines appended since the last collection, packed, and the file, with what is still to be written of the batch, is the report on each collection, in terms of the lines appended before it: all of them, or a notice with the number of buffers dropped and the lines of the first two |
| `AsyncLogging.PackHolds` | mytinyhttpd/base/async_logging.cc:30-45 | packing keeps every line shorter than a buffer, once and in order |
| `AsyncLogging.PackLeavesRoom` | mytinyhttpd/base/async_logging.cc:30-45 | and leaves a byte free in every buffer |
| `AsyncLogging.PackIsTight` | mytinyhttpd/base/async_logging.cc:30-45 | every buffer moved to the list had no room for the line that came next |
| `AsyncLogging.DropNeedsBytes` | mytinyhttpd/base/async_logging.cc:77-87 | lines of at most m bytes are dropped only if 25 times the size of a buffer less m has been appended since the last collection |
| `AsyncLogging.OneRound` | mytinyhttpd/base/async_logging.cc:56-116 | a turn of the writer's loop ends, with every line appended before it reported in the file |
| `AsyncLogging.BuffersAreMoved` | mytinyhttpd/base/async_logging.cc:30-116 | no buffer is shared or lost: one is made only when an append finds no room and no next buffer, and freed only when dropped or left of a batch |
| `AsyncLogging.NoLineIsLost` | mytinyhttpd/base/async_logging.cc:30-116 | if no collection finds more buffers than the limit, file, batch, list and current buffer together are all lines appended in the run that are shorter than a buffer, each once and in order |
| `AsyncLogging.OutputIsInOrder` | mytinyhttpd/base/async_logging.cc:30-116 | with collections over the limit too, the file holds whole lines appended in the run, in order, each at most once |
| `AsyncLogging.ReportLines` | mytinyhttpd/base/async_logging.cc:77-87 | what a collection leaves in the file is all its lines, or those of the first two buffers |
| `AsyncLogging.AppendIs` | mytinyhttpd/base/async_logging.cc:30-45 | a line joins the current buffer exactly when that leaves a byte free, with nothing else changed; else that buffer goes to the list and the line starts another, unless it is longer than any |
| `AsyncLogging.Logger.AppendLine` | mytinyhttpd/base/async_logging.cc:30-45 | after every call the list and the current buffer are the lines appended since the last collection, packed |
| `AsyncLogging.Logger.CollectBatch` | mytinyhttpd/base/async_logging.cc:61-72 | the list and the current buffer become the batch, the spares take their places |
| `AsyncLogging.Logger.DropExcess` | mytinyhttpd/base/async_logging.cc:77-87 | a batch over the limit is cut to two buffers, with a notice in the file |
| `AsyncLogging.Logger.WriteBatch` | mytinyhttpd/base/async_logging.cc:89-91 | after the loop the file is the report on all collections so far |
| `AsyncLogging.Logger.RecycleBuffers` | mytinyhttpd/base/async_logging.cc:94-112 | spare pointers that were given away are filled again from the batch |
| `TimingWheel.ShutWhenIdle` | mytinyhttpd/net/timing_wheel.cc:10-43 | a connection is shut down on the tick that ends its N-th idle second after its last activity, no earlier and no later, if and only if it still exists then |
| `TimingWheel.ShutAtMostOnce` | mytinyhttpd/net/timing_wheel.cc:10-43 | and on one tick only |
| `TimingWheel.EntryLivesIff` | mytinyhttpd/net/timing_wheel.cc:17-43 | an entry is alive exactly while its connection has been idle for less than N ticks |
| `TimingWheel.SameIndexMeansInBack` | mytinyhttpd/net/timing_wheel.cc:34-43 | the cached index equals the current one exactly when the last activity was in this tick, and then the entry is in the back bucket |
| `TimingWheel.FailsIff` | mytinyhttpd/net/timing_wheel.cc:19-43 | an assertion fails exactly in the runs with a second connect, an event before the connect, or a message after N idle ticks |
| `TimingWheel.MessageAfterShutdownFails` | mytinyhttpd/net/timing_wheel.cc:34-43 | a message after the shutdown fails |
| `TimingWheel.RunKeepsInv` | mytinyhttpd/net/timing_wheel.cc:17-43 | buckets, indexes and shutdowns stand for the last-activity times of the run |
| `TimingWheel.Timing.OnTimer` | mytinyhttpd/net/timing_wheel.cc:17 | on a ring of fixed storage with reference counts: clearing the front slot takes a pointer from each of its entries, those whose count reaches zero are the ones no bucket of the turned wheel holds, and the counts stay right |
| `TimingWheel.Timing.OnConnection` | mytinyhttpd/net/timing_wheel.cc:19-32 | the slot behind the front is the back bucket; a new entry there has count one |
| `TimingWheel.Timing.OnMessage` | mytinyhttpd/net/timing_wheel.cc:34-43 | an entry whose weak pointer can be locked is held by the wheel; it is put into the back bucket unless its index is the current one, and its count follows |
| `PollPollers.RunKeepsInv` | mytinyhttpd/net/poll_poller.cc:52-110 | the assertions hold exactly in histories that register unused channels and remove channels updated to the empty mask after their first update; in those, slots, channels and masks agree |
| `PollPollers.SlotsMatchChannels` | mytinyhttpd/net/poll_poller.cc:52-110 | slots and channels are in bijection through all swap-removals |
| `PollPollers.SwapKeepsBijection` | mytinyhttpd/net/poll_poller.cc:98-109 | swapping the last slot into the gap keeps the bijection |
| `PollPollers.WatchesInterest` | mytinyhttpd/net/poll_poller.cc:52-110 | the visible slots with a mask are what the history asks for |
| `PollPollers.ReuseFails` | mytinyhttpd/net/poll_poller.cc:66-71 | a removed channel updated again fails an assertion here and none in the other back end |
| `PollPollers.ReadySlotsAre` | mytinyhttpd/net/poll_poller.cc:36-50 | the ready slots are those with events, in ascending order |
| `PollPollers.PollPoller.UpdateChannel` | mytinyhttpd/net/poll_poller.cc:52-82 | after an update the history allows, slots, channels and masks agree with it and the visible slots are what it asks for |
| `PollPollers.PollPoller.RemoveChannel` | mytinyhttpd/net/poll_poller.cc:84-110 | the same after a removal by swapping the last slot into the gap |
| `PollPollers.PollPoller.FillActiveChannels` | mytinyhttpd/net/poll_poller.cc:36-50 | each channel with events is reported once, in slot order, with its events, although the loop stops at the count |
| `EpollPollers.RunKeepsInv` | mytinyhttpd/net/epoll_poller.cc:74-128 | the assertions hold exactly in histories that register free descriptors and remove owners with the empty mask; in those, statuses and the kernel table agree with the history |
| `EpollPollers.WatchesInterest` | mytinyhttpd/net/epoll_poller.cc:74-148 | the kernel table has what the history asks for, with the owner of the descriptor |
| `EpollPollers.InvServes` | mytinyhttpd/net/epoll_poller.cc:58-72 | whatever the kernel can report belongs to the registered owner of the descriptor |
| `EpollPollers.EpollPoller.UpdateChannel` | mytinyhttpd/net/epoll_poller.cc:74-108 | after an update the history allows, no `epoll_ctl` is fatal, statuses and kernel table agree with it and the kernel watches what it asks for |
| `EpollPollers.EpollPoller.RemoveChannel` | mytinyhttpd/net/epoll_poller.cc:110-128 | the same after a removal |
| `EpollPollers.EpollPoller.FillActiveChannels` | mytinyhttpd/net/epoll_poller.cc:58-72 | the channels returned, in order, with their events |
| `Pollers.SameDescriptorsWatched` | mytinyhttpd/net/poll_poller.cc:52-110 | in every history the `poll` back end accepts, the two back ends watch the same descriptors with the same nonempty masks, those of the newest update |
| `Buffers.Buffer.constructor` | mytinyhttpd/net/buffer.h:27-34 | empty, with the prependable part reserved |
| `Buffers.Buffer.MoveReadableFront` | mytinyhttpd/net/buffer.cc:60-68 | the readable bytes move to the front of the buffer unchanged |
| `Buffers.Buffer.MakeSpace` | mytinyhttpd/net/buffer.cc:40-58 | the readable bytes survive all three ways of making room, and the resulting size is that of the way taken |
| `Buffers.Buffer.EnsureWritableBytes` | mytinyhttpd/net/buffer.h:149-154 | there is room for that many bytes and the readable bytes are the same |
| `Buffers.Buffer.Append` | mytinyhttpd/net/buffer.h:124-128 | the bytes are behind the readable bytes |
| `Buffers.Buffer.ReadFromFd` | mytinyhttpd/net/buffer.cc:17-38 | the bytes read, in one segment or two, are behind the readable bytes; a failed read changes nothing |
| `Buffers.Buffer.Retrieve` | mytinyhttpd/net/buffer.h:78-85 | the first bytes are taken off |
| `Buffers.Buffer.RetrieveAll` | mytinyhttpd/net/buffer.h:101-105 | empty, with the prependable part whole again |
| `Buffers.Buffer.RetrieveAsString` | mytinyhttpd/net/buffer.h:111-116 | the first bytes are taken off and returned |
| `Buffers.Buffer.Unwrite` | mytinyhttpd/net/buffer.h:165-168 | the last bytes are taken off |
| `Buffers.Buffer.Prepend` | mytinyhttpd/net/buffer.h:255-260 | the bytes are in front of the readable bytes |
| `Buffers.Buffer.Shrink` | mytinyhttpd/net/buffer.h:262-268 | the readable bytes are the same with at least the reserve behind them |
| `Buffers.Buffer.AppendInt` | mytinyhttpd/net/buffer.h:170-185 | the big-endian encoding is appended |
| `Buffers.Buffer.PrependInt` | mytinyhttpd/net/buffer.h:238-253 | the big-endian encoding is prepended |
| `Buffers.Buffer.ReadInt` | mytinyhttpd/net/buffer.h:187-209 | the integer at the front is decoded and taken off |
| `Buffers.Buffer.FindCrlf` | mytinyhttpd/net/buffer.h:54-57 | the first line end in the readable bytes |
| `Buffers.Buffer.FindEol` | mytinyhttpd/net/buffer.h:66-69 | the first line feed in the readable bytes |
| `Buffers.IntegerRoundTrip` | mytinyhttpd/net/buffer.h:170-236 | decoding an encoded integer of any width gives the integer |
| `Buffers.NetworkByteOrder` | mytinyhttpd/net/buffer.h:170-185 | byte i of an encoded integer is the byte of its two's complement with as many behind it: the most significant comes first |
| `Buffers.BytesRoundTrip` | mytinyhttpd/net/buffer.h:170-236 | every byte string is the encoding of what it decodes to |
| `Buffers.WriteAll` | mytinyhttpd/net/buffer.h:170-185 | integers of any widths are queued in order |
| `Buffers.ReadAll` | mytinyhttpd/net/buffer.h:187-209 | and come out with their values, in order, leaving what is behind them |
| `HttpRequests.MethodByPrefix` | mytinyhttpd/http/http_request.h:44-63 | a method is recognised exactly by its name at the start of the token, whatever follows |
| `HttpRequests.RequestLineRoundTrip` | mytinyhttpd/http/http_context.cc:12-42 | a well-formed request line is read back |
| `HttpRequests.RequestLineGoodIff` | mytinyhttpd/http/http_context.cc:12-42 | a request line is accepted if and only if it is a token, a target and HTTP/1.0 or HTTP/1.1 between single spaces; the behaviour is undefined if and only if the target is missing or starts with a question mark; every other line is refused |
| `HttpRequests.RequestLineIs` | mytinyhttpd/http/http_context.cc:12-42 | what is stored for a line of that form with any version: the method the token starts with, the path behind the first character up to the question mark, the query from there, and the version |
| `HttpRequests.ShortLineIsBad` | mytinyhttpd/http/http_context.cc:12-42 | a line with fewer than two spaces is refused, and the method stored if there is one |
| `HttpRequests.TrimUndoesPadding` | mytinyhttpd/http/http_request.h:89-100 | a value comes back without the white space around it |
| `HttpRequests.TrimSplits` | mytinyhttpd/http/http_request.h:89-100 | only white space is taken off a value, and all of it around it |
| `HttpRequests.SpaceIs` | mytinyhttpd/http/http_request.h:89-100 | white space is the six characters of `isspace` in the C locale |
| `HttpContexts.AcceptedIff` | mytinyhttpd/http/http_context.cc:44-99 | for any bytes, the parser has a request if and only if they are a head of the right form and, for POST and PUT, exactly the announced body; and it is the request of that form |
| `HttpContexts.ParseRefusesIff` | mytinyhttpd/http/http_context.cc:44-99 | it refuses if and only if the first line is complete and not a request line, which then stays in the buffer, or the head of a POST or PUT is there and not exactly the announced body with it |
| `HttpContexts.HeadIff` | mytinyhttpd/http/http_context.cc:48-75 | request line and headers are complete if and only if the bytes are a request line, lines with colons and a line without one, each up to the first line end |
| `HttpContexts.SplitIndependentIff` | mytinyhttpd/http/http_context.cc:44-99 | bytes cut into any pieces give the outcome, request and leftover of parsing them at once, if and only if no bytes that come after the headers decide about the body |
| `HttpContexts.BodylessSplit` | mytinyhttpd/http/http_context.cc:44-82 | so any pieces do for requests without a body |
| `HttpContexts.HeadExtends` | mytinyhttpd/http/http_context.cc:48-75 | more bytes change nothing that has been read |
| `HttpContexts.HeadRoundTrip` | mytinyhttpd/http/http_context.cc:12-75 | a well-formed request (sections 3.1.1 and 3.2 of RFC 7230) gives back its method, path, query, version and trimmed headers, the later of two with one name |
| `HttpContexts.RequestRoundTrip` | mytinyhttpd/http/http_context.cc:44-99 | without a body the rest stays in the buffer; with one the request is accepted exactly when the announced length is all there is |
| `HttpContexts.BodyRoundTrip` | mytinyhttpd/http/http_context.cc:76-95 | a POST or PUT request that announces its length in decimal is read back with its body |
| `HttpContexts.StrtolOfDecimal` | mytinyhttpd/http/http_context.cc:85 | reading the length undoes writing it |
| `HttpContexts.StrtolIs` | mytinyhttpd/http/http_context.cc:85 | the length is read behind white space and a sign, up to where the digits end, and clamped to a `long` |
| `HttpContexts.BodyInPiecesFails` | mytinyhttpd/http/http_context.cc:81-93 | a POST request whose body comes in a second piece is refused, and accepted in one |
| `HttpContexts.HttpContext.ParseRequest` | mytinyhttpd/http/http_context.cc:44-99 | the loop ends in every state but the last and does to object and buffer what the function on values does |
| `HttpContexts.HttpContext.TakeBody` | mytinyhttpd/http/http_context.cc:76-95 | the body is taken exactly when the readable bytes are as many as announced |
| `HttpContexts.HttpContext.ProcessRequestLine` | mytinyhttpd/http/http_context.cc:12-42 | the fields set and the result, on good and bad lines; on a new request it succeeds exactly on the request lines of the right form |
| `HttpContexts.HttpContext.StoreHeader` | mytinyhttpd/http/http_request.h:89-100 | the trimming loops store the trimmed value under the field's name |
| `HttpContexts.HttpContext.Reset` | mytinyhttpd/http/http_context.h:33-37 | everything but the body is as in a new context |
| `BoundedBlockingQueues.FirstInFirstOut` | mytinyhttpd/base/bounded_blocking_queue.h:21-51 | in every interleaving the items put in are those taken out, in order, each once, and then those in the queue, which is within its capacity |
| `BoundedBlockingQueues.EachCallPutsOnce` | mytinyhttpd/base/bounded_blocking_queue.h:21-39 | every call of a producer puts its item in once, in the order of its calls; only the last may still be inside |
| `BoundedBlockingQueues.EachCallGetsOne` | mytinyhttpd/base/bounded_blocking_queue.h:41-51 | every call of a consumer gets one item, or is still inside |
| `BoundedBlockingQueues.NobodySleepsThroughWork` | mytinyhttpd/base/bounded_blocking_queue.h:21-51 | while consumers sleep unsignalled there are at most as many items as woken consumers, and likewise for producers and free places |
| `BoundedBlockingQueues.StuckMeansWaiting` | mytinyhttpd/base/bounded_blocking_queue.h:21-51 | when everybody inside sleeps, all wait for items with the queue empty or all for places with it full |
| `BoundedBlockingQueues.NoPlacesNoProgress` | mytinyhttpd/base/bounded_blocking_queue.h:18-51 | with capacity zero no item ever goes in or comes out, in any run |
| `BoundedBlockingQueues.RunKeepsInv` | mytinyhttpd/base/bounded_blocking_queue.h:21-51 | the monitor invariant over runs with barging, spurious wake-ups and signals that wake several |
| `BoundedBlockingQueues.BoundedBlockingQueue.PushTurn` | mytinyhttpd/base/bounded_blocking_queue.h:21-29 | on a ring of storage, a thread with the lock either goes to sleep on a full queue or appends and signals, as the machine does, and the monitor invariant is kept |
| `BoundedBlockingQueues.BoundedBlockingQueue.PopTurn` | mytinyhttpd/base/bounded_blocking_queue.h:41-51 | likewise on an empty one; the item returned is the oldest |
| `Date.SuccessorAddsOne` | mytinyhttpd/utils/date.cc:9-15 | the calendar successor of a date has the next day number |
| `Date.RoundTripFromDate` | mytinyhttpd/utils/date.cc:9-29 | reading back the number of a date gives the date |
| `Date.RoundTripFromDayNumber` | mytinyhttpd/utils/date.cc:9-29 | every number from the first day on reads back to a valid date with that number |
| `Date.ReadBackSuccessor` | mytinyhttpd/utils/date.cc:17-29 | reading back commutes with the successor |
| `Date.ReadBackFitsInt32` | mytinyhttpd/utils/date.cc:17-29 | no intermediate value overflows 32 bits, if and only if the largest does not |
| `Date.DayNumberFitsInt32` | mytinyhttpd/utils/date.cc:9-15 | nor in the other direction, for the dates that can be read back |
| `Date.WeekDayAdvances` | mytinyhttpd/utils/date.h:49 | the week day is from 0 to 6 and advances by one modulo 7 |
| `Date.WeekDayInRangeIff` | mytinyhttpd/utils/date.h:49 | it is in range exactly from the origin on, or on the origin's week day |
| `Date.UnixEpoch` | mytinyhttpd/utils/date.cc:9-29 | 1 January 1970 is day 2440588, a Thursday |
| `TimeZone.UtcRoundTrip` | mytinyhttpd/utils/timezone.cc:214-250 | a second, negative ones included, to UTC fields and back is the second, with valid fields |
| `TimeZone.UtcFieldsRoundTrip` | mytinyhttpd/utils/timezone.cc:214-250 | valid fields to a second and back are the same fields |
| `TimeZone.UtcNextDay` | mytinyhttpd/utils/timezone.cc:214-237 | a day later the date is the successor, the week day the next one, the time of day the same |
| `TimeZone.DayOfYearFromDayNumbers` | mytinyhttpd/utils/timezone.cc:214-237 | the day of the year as a difference of day numbers |
| `TimeZone.FillHms` | mytinyhttpd/utils/timezone.cc:60-65 | hours, minutes and seconds in range that make up the seconds |
| `TimeZone.ToUtcTime` | mytinyhttpd/utils/timezone.cc:214-237 | the fields of the second, by floor division |
| `TimeZone.LowerBound` | mytinyhttpd/utils/timezone.cc:136-158 | the binary search finds the first transition not before the key |
| `TimeZone.FindLocaltime` | mytinyhttpd/utils/timezone.cc:136-158 | the transition found is that of a linear scan for the last one at or before the key, on strictly sorted tables, and the first of equals otherwise |
| `TimeZone.LocalTimeThere` | mytinyhttpd/utils/timezone.cc:172-191 | local time by the transition in force |
| `TimeZone.LocalTimeIs` | mytinyhttpd/utils/timezone.cc:172-191 | local time is UTC moved by the offset of the last transition at or before the instant, reported with that offset and its daylight-saving flag |
| `TimeZone.LocalTimeBack` | mytinyhttpd/utils/timezone.cc:193-210 | the instant of a local time |
| `TimeZone.FixedOffsetRoundTrip` | mytinyhttpd/utils/timezone.cc:166-210 | with a fixed offset local time converts back to the instant |
| `TimeZone.LocalRoundTripIff` | mytinyhttpd/utils/timezone.cc:172-210 | for any table in order both ways, local time converts back to the instant if and only if the instant is not in a repeated period or the daylight-saving flag, an hour's difference and the clock tell it from its repetition |
| `TimeZone.ZoneRoundTrip` | mytinyhttpd/utils/timezone.cc:172-210 | so it does everywhere in a zone that sets clocks back only by the hour that ends daylight saving |
| `TimeZone.LocalLookup` | mytinyhttpd/utils/timezone.cc:136-158 | a local time finds the transition in force or, in a repeated period, a later one with a smaller offset |
| `TimeZone.HalfHourChangeIsAmbiguous` | mytinyhttpd/utils/timezone.cc:193-210 | a repeated half hour without daylight saving does not convert back |
| `Numerals.DecimalRoundTrip` | mytinyhttpd/base/log_stream.cc:31-48 | the decimal of a value reads back to it |
| `Numerals.DecimalIsCanonical` | mytinyhttpd/base/log_stream.cc:31-48 | it has no zeros in front and a sign only when negative |
| `Numerals.DecimalIsOnly` | mytinyhttpd/base/log_stream.cc:31-48 | and is the only such string for the value |
| `Numerals.NumeralRoundTrip` | mytinyhttpd/base/log_stream.cc:31-64 | numerals in either base read back |
| `Numerals.NumeralIsOnly` | mytinyhttpd/base/log_stream.cc:31-64 | and are unique |
| `Numerals.DecimalLength` | mytinyhttpd/base/log_stream.cc:31-48 | twenty characters hold any signed or unsigned 64-bit value, the minimum included |
| `Numerals.HexLength` | mytinyhttpd/base/log_stream.cc:50-64 | sixteen characters hold any address |
| `LogStreams.Convert` | mytinyhttpd/base/log_stream.cc:31-48 | the digit loop with C's remainder, the sign and the reversal in place leave the decimal and a NUL, and no other byte changed |
| `LogStreams.ConvertHex` | mytinyhttpd/base/log_stream.cc:50-64 | likewise in base sixteen |
| `LogStreams.LogStream.InsertAll` | mytinyhttpd/base/log_stream.cc:187-244 | any insertions into a stream with any contents leave the cursor inside the array and the contents followed by the tokens chosen, whole and in turn, which are exactly those whose room was free |
| `LogStreams.RoomIsEnough` | mytinyhttpd/base/log_stream.cc:187-244 | the room asked for is more than what is written |
| `LogStreams.RenderedReadsBack` | mytinyhttpd/base/log_stream.cc:187-244 | integers, addresses and flags read back from the text inserted for them |
| `LogStreams.FixedBuffer.Append` | mytinyhttpd/base/log_stream.h:23-28 | the bytes are appended if they leave one free, else nothing changes |
| `LogStreams.LogStream.FormatInteger` | mytinyhttpd/base/log_stream.cc:187-192 | the decimal is appended, or nothing when fewer than 48 bytes are free |
| `LogStreams.LogStream.FormatPointer` | mytinyhttpd/base/log_stream.cc:234-244 | the address in base sixteen with its prefix, on the same condition |
| `LogStreams.LogStream.Insert` | mytinyhttpd/base/log_stream.h:65-109 | each insertion operator appends its token's text on the condition of its kind |

## Left out

- Sockets, the acceptor, addresses, files, compression and process information: wrappers of system calls.
- The HTTP server's callbacks, responses, MIME types, JSON and command-line configuration: glue without state of its own.
- HttpContexts.HttpContext.ParseRequest: not from the state in which the request is complete, where the loop does not end; and not on an empty target, a target that starts with a question mark, or a request line after a refused one, where the code's behaviour is undefined or an assertion fails.
- HttpContexts.RequestRoundTrip: bodies are framed as the code frames them, which is not section 3.3.3 of RFC 7230; the time of receipt is not modelled.
- Buffers.Buffer.MakeSpace: growth after a prepended part that was not retrieved, and moved-from buffers, are outside the contract, as the code asserts.
- TimeZone.LocalRoundTripIff: starts from a sorted table of transitions; reading zone files is not modelled.
- TcpLifecycle.TcpServer.NewConnection: connection numbers do not wrap around.
- TcpConnections.HalfCloseIsClean: sends from other threads can be overtaken, so it is about sends made in the loop; `RunHalfClose` covers the others as long as none is queued at the shutdown, and `NothingAfterShutdownIff` says when they matter.
- Races on plain fields that threads read without a lock: every public call is one step.
- Destruction of the server and pausing of reads: not among the steps of `TcpLifecycle.dfy`.
- The list-based alternative to the timing wheel, the connector and the client, resizing of thread pools.
- Formatting of floating-point numbers, of SI and IEC sizes and of `printf`-style arguments.
- Zero masks: the two pollers differ on descriptors registered with an empty mask, so `Pollers.SameDescriptorsWatched` speaks of the others.
