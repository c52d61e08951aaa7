# vserver: a verified model of its stateful core

vserver is an event-loop server in C++: one base loop accepts connections, IO loops
serve them, and small pieces of shared or re-entrant state hold it together. This
project models those pieces and proves what they promise, over every input, every
run and every interleaving of the modelled steps.

How it is laid out:

* Where threads or callbacks interleave, a module holds a **machine**: a state, a
  step function following the branches of the code, and `Run` over an arbitrary list
  of events. A step that trips an assertion of the source, pops an empty vector or
  dereferences the end gives `Crashed`, so "never crashes" is a theorem and not an
  assumption. System calls are oracles: any short, failed or empty `write`, any amount
  from `readv`, any value of the clock, any thread woken by a signal.
* Beside it a **class** has the source's fields and updates them in place; each method
  is proved to make the machine's step, so the results about runs hold for the object.

| area | machine or specification | object |
|---|---|---|
| HTTP request parser | `HttpGrammar.dfy`, `HttpAccepts.dfy`, `HttpRoundTrip.dfy` | `HttpRequest.dfy` |
| asynchronous logger | `AsyncLog.dfy` | `AsyncLogging.dfy` |
| handing work to a loop | `LoopHandoff.dfy` | `EventLoop.dfy` |
| connection output and lifecycle | `ConnOutput.dfy`, `HandOver.dfy`, `HandOverRuns.dfy` | `Connection.dfy` |
| socket buffer | queue functions in `Buffer.dfy` | `Buffer.dfy` |
| thread pool | `PoolMonitor.dfy` | `ThreadPool.dfy` |
| timers | `TimerModel.dfy` | `TimerManager.dfy` |
| choice of the IO loop | `LoadBalance.dfy` | `LoopThreadPool.dfy` |
| poller and channels | sequence functions in `Poller.dfy` | `Poller.dfy` |
| log patterns | specification in `LogPattern.dfy` | `LogPattern.dfy` |

`dafny verify dfyconfig.toml` checks everything.

## What the code does that one might not expect

These are facts of the code; the model keeps them, and each is either a stated
hypothesis of a result or exhibited by a lemma.

* `handleClose` leaves the state open, so a force-close still queued closes a second
  time (`ConnOutput.ForceCloseClosesTwice`), and the second removal trips the server's
  assertion (`HandOverRuns.TwoClosesCrash`). A single event that reports a hang-up without
  EPOLLIN but with EPOLLPRI or EPOLLRDHUP can also close twice (`HandleEvent`), and so can
  a peer's one hang-up when a late send puts the channel back into the poller.
* Because the state stays open, a send can also still run after the close, and if it
  leaves bytes behind it enables writing again. Before the destruction that makes
  `connectDestroyed` abort in `Channel::remove`, unless the state is kConnected
  (`HandOverRuns.LateSendCrashes`, `ConnOutput.LateSendBreaksDestroy`). Behind the
  destruction it leaves a dangling channel in the poller, and the next connection on that
  descriptor and loop aborts in `Poller::updateChannel`
  (`HandOverRuns.RevivedChannelCrashes`). Bytes written out in time do no harm
  (`HandOverRuns.DrainedSendIsDestroyed`).
* When each connection is closed once, that is, `handleClose` is entered for it once or
  `forceClose` is called once, these two are the only ways a step of the hand-over fails
  (`HandOver.OneCloseFailsIff`); and when no send leaves bytes behind after the close,
  nothing fails (`HandOver.OneCloseIsSafe`, `ConnOutput.NoLateSendDestroys`).
* A close forgets buffered output, and a shutdown asked for before it can then cut that
  output off (`ConnOutput.EarlyFinIff`, `ConnOutput.CloseCutsOutputOff`).
* The writing callback runs whenever writing is enabled, not when EPOLLOUT was
  reported (`Channel.cc:38`).
* `fillExpired` needs a timer: a read of the timer descriptor after the last timer was
  cancelled dereferences the end of the set (`TimerModel.CrashIff`,
  `TimerModel.CancelBeforeReadCrashes`). When nothing is due it still fires the head.
* `resetTimerfd` scales the millisecond remainder by 1000, so a delay comes out short
  by less than a second (`TimerModel.DelayBounds`).
* `AsyncLogging::stop` does not drain what was appended since the last swap
  (`AsyncLog.StoppedDrainedIff`, `AsyncLog.StopCanLoseALine`).
* A functor posted by the loop's own thread before `loop()` runs is not followed by a
  wakeup (`LoopHandoff.EarlyPostLostIff`), and nothing else is ever slept on
  (`LoopHandoff.LostOnlyEarly`, `LoopHandoff.LostIff`). `quit()` does not wake the loop
  either, and a `quit()` before `loop()` is forgotten (`LoopHandoff.EarlyQuitIsLost`).
* A task that adds to its own full pool blocks the worker it runs on; when all workers are
  in such tasks nothing goes on any more (`PoolMonitor.DeadlockIff`,
  `PoolMonitor.OwnPoolDeadlocks`).
* Workers leave after a stop even if tasks are still queued (`PoolMonitor.StopDrainsIff`,
  `PoolMonitor.WorkersLeaveAfterStop`).
* The `ThreadPool` constructor initialises `m_max_waits` from itself
  (`Threadpool.cc:7`); the model takes the bound as a value fixed before `start`.
* In a log pattern `%%` moves on by one character only, so the second percent sign
  still opens a directive (`LogPattern.DoubledPercentStillOpens`). A closing brace does
  not end a directive's name, and the error text of an open brace overtakes the text in
  front of it (`LogPattern.UnclosedBrace`).
* A request with neither a body nor a Content-Length ends in BODY, not END
  (`HttpRoundTrip.RequestRoundTrip`), against the state names and section 3.3.3 of
  RFC 7230, where such a request has no body.
* `Channel::disableAll` on a channel already disabled registers it again, with an empty
  mask (`Pollers.DisableAllTwice`).
* `socket::Readv` throws on an error (`net/SocketUtils.cc:124-131`), so `readOnece`
  never sees a negative count and the error branch of `handleRead` is never taken; the
  exception leaves `handleEvent` and the loop.

## Model

The main results come first, then the steps and invariants they rest on and the
objects, and last the members that only set or read a field.

| member | source | states |
|---|---|---|
| HttpGrammar.ParseInvertsRender | vserver/vserver/net/HttpRequeset.cc:6-212 | the parser inverts the renderer: for every well-formed message (any number of params and headers, optional blanks, any bytes behind the head) parsing its bytes from START gives the method its verb names (INVALID for any but the five), the version likewise, the path, under each param and header name exactly the value it was first given, and the body or the way the length fails |
| HttpAccepts.AcceptsExactlyRenderings | vserver/vserver/net/HttpRequeset.cc:6-212 | the automaton gets through the head of a byte string if and only if that string renders some well-formed message |
| HttpAccepts.RefusesOverAFlaw | vserver/vserver/net/HttpRequeset.cc:26-181 | a run ends in INVALID, INVALID_METHOD or INVALID_PATH only over one byte that cannot follow the part of a well-formed message in front of it, and the state says which part that is: start of a line, method, target; the other two invalid states are never entered |
| HttpRoundTrip.RequestRoundTrip | vserver/vserver/net/HttpRequeset.cc:6-212 | a request with known method and version, written in the plain layout with a matching length, is read back field by field: method, version, path, body, and the first value given under each param and header name; the end state is END except with neither body nor Content-Length |
| HttpRequests.HttpRequest.Parse | vserver/vserver/net/HttpRequeset.cc:6-212 | the object's loop over position, mark and keys ends with the fields and the fault of the automaton's run |
| AsyncLog.NeverCrashes | vserver/vserver/Asynclogging.cc:28-105 | no interleaving of appends, stop and writer steps trips an assertion, dereferences a moved-from buffer or pops an empty vector; the current buffer is there, the next one is missing only while full buffers wait, and no buffer has two owners |
| AsyncLog.StreamConserved | vserver/vserver/Asynclogging.cc:28-44 | written lines, lines in flight, full buffers and the current buffer are together exactly the accepted lines, each whole and once, in lock order |
| AsyncLog.WrittenIsPrefix | vserver/vserver/Asynclogging.cc:64-103 | what is written is at any time a prefix, at a line end, of what was accepted |
| AsyncLog.StoppedDrainedIff | vserver/vserver/Asynclogging.cc:58-105 | the writer ends with everything written if and only if nothing was accepted after its last swap |
| AsyncLog.StopCanLoseALine | vserver/vserver/Asynclogging.cc:58-105 | a run in which a line appended during the last write is never written |
| AsyncLog.RoundWritesAll | vserver/vserver/Asynclogging.cc:58-103 | after every run that leaves the writer at its loop test, one undisturbed round writes everything accepted so far, allocates nothing and leaves a spare buffer; once stopped the writer leaves instead |
| LoopHandoff.PostedExactlyOnce | vserver/vserver/net/Eventloop.cc:86-131 | over every run: executed, rest of the batch and pending are what was pushed, in push order; nothing twice; each poster's functors in its order; the loop never aborts |
| LoopHandoff.LostOnlyEarly | vserver/vserver/net/Eventloop.cc:86-131 | in every run, whatever is posted and however: when the loop is about to sleep over work nobody will tell it of, all of it was posted since the last swap by the loop's own thread outside the running loop |
| LoopHandoff.LostIff | vserver/vserver/net/Eventloop.cc:86-131 | in every run the loop is about to sleep over work nobody will tell it of if and only if all its pending work was posted early, no wakeup was written since the last read and nobody is about to write one |
| LoopHandoff.NoLostWakeup | vserver/vserver/net/Eventloop.cc:43-131 | with loop-thread posts only from handlers and functors, the loop never polls over a non-empty queue without a pending wakeup or a poster about to write one |
| LoopHandoff.EarlyPostLostIff | vserver/vserver/net/Eventloop.cc:94-99 | a functor posted to a quiet loop before it starts is slept on if and only if the loop's own thread posted it |
| LoopHandoff.NextRoundRunsAll | vserver/vserver/net/Eventloop.cc:51-60 | after every run that leaves the loop in its poll, the next round, left alone, runs everything posted so far and leaves the descriptor read empty |
| LoopHandoff.QuitEndsLoop | vserver/vserver/net/Eventloop.cc:43-67 | from a quit on, while loop is not entered again, whatever happens: the flag stays up, the next test of it leaves the loop, no poll begins, a loop left stays left, and the loop can get out |
| LoopHandoff.EarlyQuitIsLost | vserver/vserver/net/Eventloop.cc:48-51 | a quit made before loop is entered is lost: the loop goes on to its poll |
| HandOver.OneCloseIsSafe | vserver/vserver/net/TcpServer.cc:54-103 | over every interleaving of the loops in which each connection is closed by its peer or by forceClose but not both, and no send leaves bytes behind after its connection's close: no assertion fails, every connection is established, closed, removed and destroyed at most once and in that order, and while its channel is in the poller the server's map or a functor holds it |
| HandOver.OneCloseFailsIff | vserver/vserver/net/Connection.cc:61-70 | over every interleaving in which each connection is closed once, with any sends at any time: a run fails if and only if connectDestroyed finds writing on in a state other than kConnected, or connectEstablished finds the place of its descriptor in the poller taken |
| HandOver.HandOverInOrder | vserver/vserver/net/Connection.cc:47-70 | a connection closed at most once goes through its life in order, whatever happens to the others and whatever is sent; while it is in the poller it is held, unless a send left bytes behind after its destruction, and an unheld one is in the poller if and only if that happened |
| HandOver.HeldUntilDestroyed | vserver/vserver/net/TcpServer.cc:75-103 | in every run, however often anything closes and whatever is sent, a connection is held by the server's map or a functor until it is destroyed |
| HandOver.EachCloseIsRemoved | vserver/vserver/net/TcpServer.cc:84-95 | in any run, however often it is closed, a connection is established, removed and destroyed at most once; closes are as many as removals done and due |
| HandOver.CrashIff | vserver/vserver/net/TcpServer.cc:90-95 | from any reachable state a step fails if and only if it is a second removal, a close after the destruction, a destruction that finds writing on in a state other than kConnected (then a send left bytes behind after the close), or an establishment that finds the place of its descriptor in the poller taken (then by a released connection, put back by a send after its destruction unless it closed twice) |
| HandOverRuns.TwoClosesCrash | vserver/vserver/net/Connection.cc:155-219 | a run with a peer's close beside a queued force-close that trips the assertion of the removal |
| HandOverRuns.LateSendCrashes | vserver/vserver/net/Connection.cc:72-118 | a run with one close and a send, posted before it from another thread, that trips the assertion of Channel::remove |
| HandOverRuns.DrainedSendIsDestroyed | vserver/vserver/net/Connection.cc:189-212 | the same run with the bytes written before connectDestroyed comes up: it succeeds and the life is complete |
| HandOverRuns.LateDirectSendCrashes | vserver/vserver/net/Connection.cc:72-76 | a run with one close, then a send in the loop's own thread that leaves bytes and a shutdown, that trips the same assertion |
| HandOverRuns.RevivedChannelCrashes | vserver/vserver/net/Connection.cc:72-118 | a run with one close and a send that runs behind connectDestroyed: it leaves bytes, the connection goes, and the next one on its descriptor trips the assertion of Poller::updateChannel |
| ConnOutput.OutputFaithful | vserver/vserver/net/Connection.cc:90-118 | bytes the socket took, then bytes buffered, are all messages passed to sendInLoop, in order, under any short, failed or empty write |
| ConnOutput.FlushBeforeFin | vserver/vserver/net/Connection.cc:120-212 | until the first close writing interest is on exactly while output is buffered; every shutdownWrite comes when all accepted bytes have reached the socket; and in kDisconnecting with nothing buffered it has come, once shutdownInLoop has run since kConnected was left |
| ConnOutput.DrainsToFin | vserver/vserver/net/Connection.cc:189-212 | after any run that leaves output waiting in kDisconnecting, writable events whose positive writes take all of it put every message on the socket, switch writing off and shut the write side exactly once, behind the last byte |
| ConnOutput.EarlyFinIff | vserver/vserver/net/Connection.cc:129-134 | after any run, shutdownInLoop shuts the write side on output that has not reached the socket if and only if the last disableAll found output buffered and no message that is not empty was passed down since |
| ConnOutput.CloseCutsOutputOff | vserver/vserver/net/Connection.cc:129-134 | a run in which that happens: the socket takes one byte of two, a close comes, and the shutdown cuts the other byte off |
| ConnOutput.NoLateSendDestroys | vserver/vserver/net/Connection.cc:61-70 | after a close connectDestroyed does not fail if no message that is not empty was passed down since the last disableAll |
| ConnOutput.DestroyFailsIff | vserver/vserver/net/Connection.cc:61-70 | after a close connectDestroyed aborts if and only if writing is on and the state is not kConnected |
| ConnOutput.LateSendBreaksDestroy | vserver/vserver/net/Connection.cc:90-118 | a run in which a send after the close does that |
| ConnOutput.ForceCloseClosesTwice | vserver/vserver/net/Connection.cc:155-167 | a run in which a queued force-close closes again |
| Connections.TcpConnection.HandleEvent | vserver/vserver/net/Channel.cc:27-42 | one event, in any state, is a run of connection steps: a close on a hang-up without EPOLLIN, the read with the callback's own calls or the close at the end of the stream, and a write whenever writing is then enabled; it aborts if and only if it closes a connection that is not open, throws if and only if a read fails, and otherwise closes twice if and only if a hang-up without EPOLLIN comes with another reading event that finds the end of the stream |
| PoolMonitor.NeverAllAsleep | vserver/vserver/Threadpool.cc:43-91 | no run leaves all workers asleep in getTask or gone over a non-empty queue while the pool runs |
| PoolMonitor.DeadlockIff | vserver/vserver/Threadpool.cc:43-91 | in a running pool with work queued no worker can go on if and only if every one is in a task that is itself blocked in addTask of this pool |
| PoolMonitor.OwnPoolDeadlocks | vserver/vserver/Threadpool.cc:43-91 | a run with one worker and a bound of one that ends so |
| PoolMonitor.NoProducerForgotten | vserver/vserver/Threadpool.cc:43-79 | nor a producer asleep beside free room with nobody woken for it |
| PoolMonitor.OwedToTheWoken | vserver/vserver/Threadpool.cc:43-79 | in every run: beside a sleeping worker the queued tasks are at most the woken workers, beside a sleeping producer the free slots are at most the woken producers |
| PoolMonitor.QueueIsFifo | vserver/vserver/Threadpool.cc:43-79 | taken, then queued, are the accepted tasks in order; a positive bound is never exceeded |
| PoolMonitor.NobodyBlockedAfterStop | vserver/vserver/Threadpool.cc:28-34 | after a stop nobody is blocked on either condition, whatever else happens |
| PoolMonitor.StopDrainsIff | vserver/vserver/Threadpool.cc:28-91 | when all workers have left after a stop, everything accepted was taken if and only if at the stop no more tasks were queued than workers were in getTask or on their way into it |
| PoolMonitor.WorkersLeaveAfterStop | vserver/vserver/Threadpool.cc:28-37 | after any run, a stop and anything behind it, there is a way on after which every worker has left its loop, so the joins can return; what is left in the queue is then as StopDrainsIff says |
| PoolMonitor.NobodyComesBack | vserver/vserver/Threadpool.cc:81-91 | once all workers have left a stopped pool, no test, entry, wakeup or task end changes anything, and whatever is still called leaves workers, queue and tasks taken as they are |
| PoolMonitor.NextTaskTaken | vserver/vserver/Threadpool.cc:64-91 | after any run, a worker between two tasks of a running pool takes exactly the front task on its next turn, and at most one sleeping producer is woken for the slot |
| TimerModel.IndexAndClockAgree | vserver/vserver/net/Timer.cc:68-113 | after every run ordered set and index hold the same timers, and the kernel timer is set if and only if there are any, for the head's expiry |
| TimerModel.FiresAtMostOnce | vserver/vserver/net/Timer.cc:115-128 | after every run, callbacks adding and cancelling and other managers counting included, each id given out is in exactly one place; a timer fires at most once, and then is nowhere else |
| TimerModel.CancelIsFinal | vserver/vserver/net/Timer.cc:88-113 | after a cancel that finds its timer no continuation fires it |
| TimerModel.ExpiryIsExact | vserver/vserver/net/Timer.cc:130-152 | an expiry takes exactly the timers due, in order of (expire, id), or the least one alone when none is due, from set and index alike |
| TimerModel.CrashIff | vserver/vserver/net/Timer.cc:130-144 | from any reachable state a step fails if and only if it reads an expiry with no timer left; the assertions of cancel hold |
| TimerModel.CancelBeforeReadCrashes | vserver/vserver/net/Timer.cc:88-144 | a run that does: expiry, then a cancel in the same round, then the read |
| TimerModel.DelayBounds | vserver/vserver/net/Timer.cc:163-181 | each programmed delay is positive and well-formed, at most the wanted one (never under 100 ms), short of it by exactly 999 microseconds for each millisecond past the last whole second, hence exact if and only if the wanted one is whole seconds |
| LoadBalance.LoadsMirrorConnections | vserver/vserver/net/EventLoopThreadPool.cc:60-107 | over every run of accepts and removals each loop's count is the number of live connections on it, set and table hold exactly those counts, and an assertion fails if and only if a connection is removed twice |
| LoadBalance.MinConnectionIsRoundRobin | vserver/vserver/net/EventLoopThreadPool.cc:43-107 | while nobody leaves, choosing the least loaded loop assigns exactly as getNextLoop does |
| LoadBalance.AcquireTakesMin | vserver/vserver/net/EventLoopThreadPool.cc:92-107 | the loop chosen has the least count, and the first such one |
| Buffers.Buffer.Replay | vserver/vserver/net/Buffer.h:78-150 | any sequence of puts and takes follows the byte queue, through whatever layout |
| Buffers.QueueConserves | vserver/vserver/net/Buffer.h:78-150 | bytes taken, then bytes left, are the bytes put in, in order |
| Pollers.Poller.Replay | vserver/vserver/net/Channel.h:37-41 | any sequence of calls on channels with distinct descriptors keeps poller and kernel in step; each channel watches for reading if and only if the last call that spoke of reading (enableReading, disableReading, disableAll) turned it on, the same for writing, and is unknown to the poller if and only if its last call was remove |
| Pollers.NewChannelWatches | vserver/vserver/net/Channel.h:37-41 | for a new channel: reading is on if and only if some enableReading has no disableReading or disableAll behind it, and the same for writing |
| Pollers.UnregisteredIsSilent | vserver/vserver/net/Poller.cc:65-112 | along every sequence an unregistered channel has no event enabled |
| LogPattern.TokeniserInvertsRender | vserver/vserver/Log.cc:295-365 | tokenising the rendering of any well-formed list of literals and directives gives that list back, without error |
| LogPattern.ItemsInvertRender | vserver/vserver/Log.cc:369-405 | carried on to the items: for every well-formed list, piece by piece, the literal's own text, the letter's formatter with exactly the text between its braces (eleven letters), or the error text for any other name, which is then the only error |
| LogPattern.UnclosedBrace | vserver/vserver/Log.cc:350-364 | a brace that is never closed gives the pattern error text in front of the text already pending, and the directive's own letters come out as text |
| LogPattern.PlainIffWritten | vserver/vserver/Log.cc:295-365 | the patterns written from such lists are exactly those in which the walk meets no doubled percent and no open brace |
| HttpGrammar.EatVerb | vserver/vserver/net/HttpRequeset.cc:37-48 | the method, up to a blank, is read as method |
| HttpGrammar.EatPath | vserver/vserver/net/HttpRequeset.cc:49-70 | the path, up to a blank or a question mark, is read as path |
| HttpGrammar.EatParams | vserver/vserver/net/HttpRequeset.cc:71-115 | any list of key=value pairs is read into the param map of that list, whose entries ParamMapEntries gives |
| HttpGrammar.EatVersion | vserver/vserver/net/HttpRequeset.cc:117-131 | the version up to the carriage return is read as version |
| HttpGrammar.EatHeaders | vserver/vserver/net/HttpRequeset.cc:132-181 | any list of header lines is read into the header map of that list, whose entries HeadMapEntries gives |
| HttpGrammar.ParamMapEntries | vserver/vserver/net/HttpRequeset.h:75-77 | insert keeps what is there: the names are those of the table and of the list, and each has its old value or, if new, the value at its first place in the list |
| HttpGrammar.HeadMapEntries | vserver/vserver/net/HttpRequeset.h:78-80 | the same for headers |
| HttpGrammar.HeadFieldsRead | vserver/vserver/net/HttpRequeset.h:53-80 | the five methods and two versions are named by exactly their literals, any other verb is INVALID and any other version Unknown; first values win |
| HttpGrammar.EatEnd | vserver/vserver/net/HttpRequeset.cc:182-204 | the empty line decides how much body follows, or how the length fails |
| HttpGrammar.EatBody | vserver/vserver/net/HttpRequeset.cc:153-157 | the body is the announced number of bytes |
| HttpAccepts.Decode | vserver/vserver/net/HttpRequeset.cc:24-207 | from any state inside the head, a run that reaches the end of the head yields a well-formed message whose rendering is the input |
| HttpAccepts.AdvanceVerb | vserver/vserver/net/HttpRequeset.cc:26-48 | one byte in front of or inside the method extends the message read so far |
| HttpAccepts.AdvancePath | vserver/vserver/net/HttpRequeset.cc:49-70 | the same around the path |
| HttpAccepts.AdvanceParamKey | vserver/vserver/net/HttpRequeset.cc:71-92 | the same inside a parameter's key |
| HttpAccepts.AdvanceParamValue | vserver/vserver/net/HttpRequeset.cc:93-115 | the same inside a parameter's value, which ends the parameter |
| HttpAccepts.AdvanceInVersion | vserver/vserver/net/HttpRequeset.cc:125-131 | the same at the end of the request line |
| HttpAccepts.AdvanceHeaderKey | vserver/vserver/net/HttpRequeset.cc:132-138 | the same between headers and inside a header's key |
| HttpAccepts.AdvanceHeaderValue | vserver/vserver/net/HttpRequeset.cc:139-152 | the same inside a header's value, with the fall-through at its first byte |
| HttpRoundTrip.StoiInvertsDecimal | vserver/vserver/net/HttpRequeset.cc:184-186 | the length of a Content-Length header is the number whose decimal digits it holds |
| HttpRoundTrip.StoiReads | vserver/vserver/net/HttpRequeset.cc:184-186 | stoi reads white space, at most one sign and digits, followed by anything else, as the number they write, if an int holds it |
| HttpRoundTrip.StoiRefuses | vserver/vserver/net/HttpRequeset.cc:184-186 | and throws for want of a number if and only if the text is not of that form |
| HttpRequests.Step | vserver/vserver/net/HttpRequeset.cc:24-208 | one turn never moves the start of the current token past the position read |
| AsyncLog.PendingIsLate | vserver/vserver/Asynclogging.cc:64-75 | what waits in the buffers is what was accepted since the last swap |
| AsyncLog.StepKeeps | vserver/vserver/Asynclogging.cc:28-105 | every step keeps the ownership invariant and adds to the stream what it appends |
| AsyncLog.StepOwners | vserver/vserver/Asynclogging.cc:34-101 | every step leaves every live buffer with one owner |
| AsyncLogging.FixedBuffer.Append | vserver/vserver/Asynclogging.h:38-43 | a line goes in whole when strictly more room is left, and otherwise not at all |
| AsyncLogging.AsyncLogging.constructor | vserver/vserver/Asynclogging.cc:6-26 | the state the protocol starts from |
| AsyncLogging.AsyncLogging.Append | vserver/vserver/Asynclogging.cc:28-44 | into the current buffer while strictly more room is left than the line needs; else the current buffer is full, the spare one takes its place, and a new one is made only without a spare; refines the step |
| AsyncLogging.AsyncLogging.Check | vserver/vserver/Asynclogging.cc:58-62 | the three assertions at the loop's top hold; goes on while running, else is done |
| AsyncLogging.AsyncLogging.Swap | vserver/vserver/Asynclogging.cc:64-75 | everything full and the current buffer go to the writer, its first buffer becomes the current one, its second the spare one if that was missing; refines the step |
| AsyncLogging.AsyncLogging.Format | vserver/vserver/Asynclogging.cc:77-82 | the vector is not empty and the bytes formed are its lines end to end |
| AsyncLogging.AsyncLogging.Recycle | vserver/vserver/Asynclogging.cc:84-101 | both assertions of the recycling hold; the writer has two empty buffers again, its own second one if it was not given away; refines the step |
| AsyncLogging.AsyncLogging.Write | vserver/vserver/Asynclogging.cc:102-102 | the stream grows by exactly the bytes formed |
| AsyncLogging.AllBytes | vserver/vserver/Asynclogging.cc:78-82 | the loop lays the buffers' bytes end to end |
| AsyncLogging.TakeBack | vserver/vserver/Asynclogging.cc:88-100 | a slot that was given away gets the last spare buffer, emptied |
| LoopHandoff.StepAwake | vserver/vserver/net/Eventloop.cc:86-131 | every step keeps: outside handling, pending work comes with a wakeup |
| EventLoops.EventLoop.QueueInLoop | vserver/vserver/net/Eventloop.cc:86-100 | refines the post of any thread, the loop's own also outside the running loop; wakes up unless the loop's thread posts outside the functor phase |
| EventLoops.EventLoop.Quit | vserver/vserver/net/Eventloop.cc:64-67 | the flag goes up; refines the step |
| EventLoops.EventLoop.EnterLoop | vserver/vserver/net/Eventloop.cc:43-49 | the flag goes down as the loop is entered; refines the step |
| EventLoops.EventLoop.TestQuitFlag | vserver/vserver/net/Eventloop.cc:51-51 | on to the poll while the flag is down, out of the loop otherwise; refines the step |
| EventLoops.EventLoop.HandleRead | vserver/vserver/net/Eventloop.cc:108-116 | refines the read; the counter is zero after it |
| EventLoops.EventLoop.DoPendingFunctors | vserver/vserver/net/Eventloop.cc:118-131 | runs what was pending, in order; leaves exactly what was posted meanwhile, by the functors or by other threads, one wakeup each (posts come one after the other here; their halves interleave in the machine) |
| EventLoops.EventLoop.CallAll | vserver/vserver/net/Eventloop.cc:127-129 | the loop over the swapped-out batch runs each functor once, with such posts in between |
| EventLoops.EventLoop.CallOne | vserver/vserver/net/Eventloop.cc:127-129 | one functor runs, and what it or others post meanwhile goes to the queue, not to the batch |
| ConnOutput.StepKeeps | vserver/vserver/net/Connection.cc:90-219 | every call keeps the byte stream and the link between writing interest and buffered output |
| Connections.TcpConnection.constructor | vserver/vserver/net/Connection.cc:13-40 | a connecting connection with empty buffers |
| Connections.TcpConnection.ConnectEstablished | vserver/vserver/net/Connection.cc:47-52 | the state becomes kConnected and reading is enabled |
| Connections.TcpConnection.SendInLoop | vserver/vserver/net/Connection.cc:90-118 | writes directly only with nothing waiting; what the socket did not take is appended to the output buffer and writing enabled; refines the step through any growth or compaction of that buffer |
| Connections.TcpConnection.Send | vserver/vserver/net/Connection.cc:72-83 | dropped unless connected; at once in the loop's thread, queued otherwise |
| Connections.TcpConnection.Shutdown | vserver/vserver/net/Connection.cc:120-127 | refines the step |
| Connections.TcpConnection.ShutdownInLoop | vserver/vserver/net/Connection.cc:129-134 | refines the step |
| Connections.TcpConnection.HandleRead | vserver/vserver/net/Connection.cc:136-153 | the bytes read are appended to the input buffer; the end of the stream closes |
| Connections.TcpConnection.HandleWrite | vserver/vserver/net/Connection.cc:189-212 | with writing on and n bytes taken, exactly the first n buffered bytes move to the socket; the last one switches writing off and, in kDisconnecting, shuts the write side; refines the step |
| Connections.TcpConnection.HandleClose | vserver/vserver/net/Connection.cc:214-219 | refines the step |
| Connections.TcpConnection.ForceClose | vserver/vserver/net/Connection.cc:155-160 | refines the step |
| Connections.TcpConnection.ForceCloseInLoop | vserver/vserver/net/Connection.cc:162-167 | closes an open connection and leaves any other alone |
| Connections.TcpConnection.ConnectDestroyed | vserver/vserver/net/Connection.cc:61-70 | kConnected becomes kDisconnected; no event is enabled afterwards; refines the step |
| HandOver.HeldIfGood | vserver/vserver/net/TcpServer.cc:75-103 | until its destruction a connection is held by the map, or by the removal or destruction on its way |
| HandOver.StepKeeps | vserver/vserver/net/TcpServer.cc:54-103 | every step keeps each connection's account of functors due and acts done |
| HandOver.StepPorts | vserver/vserver/net/Poller.cc:69-81 | every step keeps: living connections have descriptors of their own, one channel stands under each descriptor of a loop's poller, and none but its own under that of a living established one |
| HandOver.AcceptKeeps | vserver/vserver/net/TcpServer.cc:54-82 | the account at an accept |
| HandOver.EstablishKeeps | vserver/vserver/net/Connection.cc:47-58 | connectEstablished finds the state kConnecting, and succeeds when its place in the poller is free |
| HandOver.CloseKeeps | vserver/vserver/net/Connection.cc:214-219 | the account at a close, from a handler or a functor |
| HandOver.RemoveKeeps | vserver/vserver/net/TcpServer.cc:90-95 | the account at the erase |
| HandOver.ErasedKeeps | vserver/vserver/net/TcpServer.cc:97-103 | the account when connectDestroyed is queued |
| HandOver.DestroyKeeps | vserver/vserver/net/Connection.cc:61-70 | connectDestroyed finds the channel in the poller, and no event enabled unless writing was left on |
| HandOver.ReleaseKeeps | vserver/vserver/net/Connection.cc:42-44 | the account when the last pointer to a connection goes |
| HandOver.WorkShortKeeps | vserver/vserver/net/Connection.cc:90-118 | the account at a posted send that leaves bytes behind |
| HandOver.SendShortKeeps | vserver/vserver/net/Connection.cc:72-76 | the account at such a send in the loop's own thread |
| Buffers.Buffer.constructor | vserver/vserver/net/Buffer.h:20-24 | an empty queue with the asked room |
| Buffers.Buffer.Retrieve | vserver/vserver/net/Buffer.h:78-86 | dequeues exactly len bytes, and moves both indices to the front when nothing is left |
| Buffers.Buffer.RetrieveAsString | vserver/vserver/net/Buffer.h:101-106 | returns the bytes dequeued |
| Buffers.Buffer.Compact | vserver/vserver/net/Buffer.h:116-127 | the overlapping copy to the front keeps the readable bytes |
| Buffers.Buffer.Resize | vserver/vserver/net/Buffer.h:113-115 | growth keeps the readable bytes and never shrinks |
| Buffers.Buffer.MakeSpace | vserver/vserver/net/Buffer.h:112-128 | makes the asked room, by growing exactly when free tail and space in front do not suffice and by compacting otherwise; its assertions hold, readable bytes kept |
| Buffers.Buffer.EnsureWritableBytes | vserver/vserver/net/Buffer.h:134-139 | the assertion at its end holds |
| Buffers.Buffer.Append | vserver/vserver/net/Buffer.h:146-150 | enqueues the bytes |
| Buffers.Buffer.ReadOnce | vserver/vserver/net/Buffer.cc:12-39 | enqueues all bytes read, with or without the spill |
| Buffers.Buffer.ReadAll | vserver/vserver/net/Buffer.cc:41-67 | enqueues the chunks read until the stream ends or the kernel has no more; any other failed read aborts |
| PoolMonitor.StepKeeps | vserver/vserver/Threadpool.cc:28-95 | every step keeps: a sleeping worker implies queued tasks are owed to woken ones, and the same for slots and producers |
| PoolMonitor.GetServesWorkers | vserver/vserver/Threadpool.cc:64-79 | taking a task keeps the workers' half |
| PoolMonitor.GetServesProducers | vserver/vserver/Threadpool.cc:71-77 | its single signal keeps the producers' half |
| PoolMonitor.PutServes | vserver/vserver/Threadpool.cc:43-59 | adding a task, with its single signal, keeps both |
| ThreadPools.ThreadPool.constructor | vserver/vserver/Threadpool.cc:6-25 | a started pool |
| ThreadPools.ThreadPool.GetTask | vserver/vserver/Threadpool.cc:64-79 | one locked pass: waits only over an empty queue while running, otherwise takes exactly the front, or none; wakes at most the one producer signalled; refines the step |
| ThreadPools.ThreadPool.AddTask | vserver/vserver/Threadpool.cc:43-59 | one locked pass: waits only while full and running, drops the task once stopped, else appends it and wakes at most the one worker signalled; without threads the caller runs the task; refines the step |
| ThreadPools.ThreadPool.TestRunning | vserver/vserver/Threadpool.cc:85-85 | the loop test of a worker: on into getTask while running, out of the loop otherwise; refines the step |
| ThreadPools.ThreadPool.Stop | vserver/vserver/Threadpool.cc:28-34 | the flag goes down and both broadcasts wake every sleeper and nobody else |
| TimerModel.ProbeIsLast | vserver/vserver/net/Timer.cc:136-137 | the probe's fresh id puts it behind every timer due at its time |
| TimerModel.TimeSubExact | vserver/vserver/net/Timer.cc:169-169 | the 64-bit difference is the true one within half the range |
| TimerModel.UpperBoundSplits | vserver/vserver/net/Timer.h:37-45 | upper_bound under the comparator splits the set at the probe |
| TimerModel.InsertSorted | vserver/vserver/net/Timer.h:37-45 | insertion keeps the order and adds just that timer |
| TimerModel.StepKeeps | vserver/vserver/net/Timer.cc:68-161 | every step keeps order, index, clock and the one place of each id |
| TimerModel.StartInv | vserver/vserver/net/Timer.cc:19-27 | a manager made after n timers of others starts in a reachable state |
| TimerManagers.TimerManager.constructor | vserver/vserver/net/Timer.cc:38-46 | no timers, the kernel timer off, the shared counter wherever others have brought it |
| TimerManagers.TimerManager.ResetTimerfd | vserver/vserver/net/Timer.cc:163-181 | programs the delay whose bounds DelayBounds gives |
| TimerManagers.TimerManager.CreateTimer | vserver/vserver/net/Timer.cc:21-27 | a timer with an id no manager has given out |
| TimerManagers.TimerManager.AddTimerInLoop | vserver/vserver/net/Timer.cc:68-80 | into set and index; sets the kernel timer, to the delay of the new expiry, only when that is strictly earlier than the head's; refines the step |
| TimerManagers.TimerManager.CancelInLoop | vserver/vserver/net/Timer.cc:88-113 | exactly the timer with that id is gone from set and index; both assertions hold; the kernel timer is set anew, or off, only when the head went; refines the step |
| TimerManagers.TimerManager.FillExpired | vserver/vserver/net/Timer.cc:130-161 | refines the step; fails if and only if there is no timer; sets the kernel timer for the head left, or off |
| TimerManagers.TimerManager.TakeExpired | vserver/vserver/net/Timer.cc:136-160 | cuts the set, cleans the index of what was cut, re-arms for the rest |
| TimerManagers.TimerManager.EraseIds | vserver/vserver/net/Timer.cc:148-150 | the loop erases exactly the ids of the timers taken |
| TimerManagers.TimerManager.HandleRead | vserver/vserver/net/Timer.cc:115-128 | fails if and only if there is no timer; otherwise every expired timer runs once, in order, while its callbacks add and cancel and other threads create timers, which stay to be added; the whole is a run of the machine |
| TimerManagers.UpperBoundOf | vserver/vserver/net/Timer.cc:137-137 | the scan finds the upper bound |
| TimerManagers.TimerManager.CountElsewhere | vserver/vserver/net/Timer.cc:19-27 | another manager's timer takes an id from the shared counter |
| LoadBalance.UpdateMirrors | vserver/vserver/net/EventLoopThreadPool.cc:60-75 | both lookups of update succeed and set and table still agree |
| LoadBalance.ReleaseMirrors | vserver/vserver/net/EventLoopThreadPool.cc:77-90 | a removal lowers the count of its loop alone |
| LoadBalance.AcceptKeeps | vserver/vserver/net/TcpServer.cc:54-82 | an accept never fails, goes to a least loaded loop, or to the base loop when there are no IO threads |
| LoadBalance.RemoveKeeps | vserver/vserver/net/TcpServer.cc:90-103 | a removal fails if and only if the connection is gone already |
| LoadBalance.StartInv | vserver/vserver/net/EventLoopThreadPool.cc:21-41 | a started pool counts no connection on any loop |
| LoopThreadPools.EventLoopThreadPool.Start | vserver/vserver/net/EventLoopThreadPool.cc:21-41 | builds the started pool, loop by loop |
| LoopThreadPools.EventLoopThreadPool.GetNextLoop | vserver/vserver/net/EventLoopThreadPool.cc:43-58 | deals the loops in turn, the index always in range |
| LoopThreadPools.EventLoopThreadPool.Update | vserver/vserver/net/EventLoopThreadPool.cc:60-75 | refines the step; its assertions hold |
| LoopThreadPools.EventLoopThreadPool.RemoveLoopConnection | vserver/vserver/net/EventLoopThreadPool.cc:77-90 | refines the step |
| LoopThreadPools.EventLoopThreadPool.GetNextLoopMinConnection | vserver/vserver/net/EventLoopThreadPool.cc:92-107 | refines the step |
| LoopThreadPools.TcpServer.constructor | vserver/vserver/net/TcpServer.cc:15-31 | a server over a started pool, without connections |
| LoopThreadPools.TcpServer.NewConnection | vserver/vserver/net/TcpServer.cc:54-82 | refines the accept; the counts stay the live connections |
| LoopThreadPools.TcpServer.RemoveConnectionInLoop | vserver/vserver/net/TcpServer.cc:90-103 | refines the removal; the counts stay the live connections |
| Pollers.Poller.EpollCtl | vserver/vserver/net/Poller.cc:51-63 | only calls the kernel accepts are made |
| Pollers.Poller.Adopt | vserver/vserver/net/Channel.cc:10-17 | a new channel on a descriptor no live channel has joins the loop's channels |
| Pollers.Poller.UpdateChannel | vserver/vserver/net/Poller.cc:65-96 | all assertions hold; the channel is mapped, and the kernel watches it for its mask, or not at all when an added channel's mask is empty; map, indices, masks and kernel agree again |
| Pollers.Poller.RemoveChannel | vserver/vserver/net/Poller.cc:98-112 | all assertions hold; the channel leaves map and kernel, and nothing else changes |
| Pollers.Poller.Do | vserver/vserver/net/Channel.h:37-41 | each of the channel's own calls: which of the two bits it sets or clears and that the other stays, that remove and only remove takes the channel out of the map, that the kernel watches exactly the bits on, and that no other channel is touched |
| Pollers.LastCallDecides | vserver/vserver/net/Channel.h:37-41 | from any state, the last call that speaks of a bit decides it, and without one it stays |
| Pollers.DisableAllTwice | vserver/vserver/net/Poller.cc:69-82 | a second disableAll registers the channel again with an empty mask, until remove |
| LogPattern.PiecesWritePattern | vserver/vserver/Log.cc:295-365 | the list read off a plain pattern is well-formed and writes it |
| LogPattern.DoubledPercentStillOpens | vserver/vserver/Log.cc:304-309 | a doubled percent gives one percent of text and still opens a directive |
| LogPattern.ScanAt | vserver/vserver/Log.cc:311-348 | the nested scan ends past the percent sign it began at |
| LogPattern.LogFormatter.Init | vserver/vserver/Log.cc:295-405 | one item for each token, and an error if and only if a brace stays open or a name is unknown; on the rendering of any well-formed list, piece by piece the text, the letter's formatter with its format, or the error text |
| LogPattern.LogFormatter.Tokenise | vserver/vserver/Log.cc:298-365 | the index loop computes the tokens, and whether a brace stays open |
| LogPattern.LogFormatter.ScanDirective | vserver/vserver/Log.cc:311-348 | the inner loop finds name, format and end of a directive |
| LoopThreadPools.EventLoopThreadPool.SetThreadNum | vserver/vserver/net/EventLoopThreadPool.h:32-32 | the number of threads to start |
| TimerManagers.TimerManager.CloseClock | vserver/vserver/net/Timer.cc:183-193 | switches the kernel timer off |
| EventLoops.EventLoop.Wakeup | vserver/vserver/net/Eventloop.cc:102-106 | the eventfd counter goes up by one |
| ThreadPools.ThreadPool.Full | vserver/vserver/Threadpool.cc:93-95 | whether a positive bound is reached |
| AsyncLogging.FixedBuffer.Reset | vserver/vserver/Asynclogging.h:35-35 | the buffer holds no line |
| Buffers.Buffer.RetrieveAll | vserver/vserver/net/Buffer.h:69-72 | empties the queue |
| AsyncLogging.AsyncLogging.Stop | vserver/vserver/Asynclogging.h:76-81 | refines the stop step |
| EventLoops.EventLoop.constructor | vserver/vserver/net/Eventloop.cc:86-131 | a loop with nothing posted |
| LoopThreadPools.EventLoopThreadPool.constructor | vserver/vserver/net/EventLoopThreadPool.cc:8-15 | a pool with no loops |
| Pollers.Channel.constructor | vserver/vserver/net/Channel.cc:10-17 | a new channel wants nothing and is known to nobody |
| Pollers.Poller.constructor | vserver/vserver/net/Poller.cc:14-20 | an empty map and interest set |
| LogPattern.LogFormatter.constructor | vserver/vserver/Log.cc:290-293 | no items and no error before the walk |
| HttpRequests.HttpRequest.constructor | vserver/vserver/net/HttpRequeset.h:113-120 | a new request is in START with empty maps; method and version are whatever they are |

## Left out

- Widths: counters, sizes and indices are unbounded; `int`, `size_t` and 64-bit wrap-around are not modelled, except in `TimeSub` and in the range of `stoi`. The eventfd counter does not saturate.
- The C++ memory model: unlocked reads of flags such as `m_running`, `m_quit`, `m_state` and `m_callingPendingFuncs` are atomic, and a call's test and setting of `m_state` are one step.
- `unique_ptr` in the logger: a pointer is modelled as the buffer it owns, with an identity, so that ownership is proved and not assumed; the bytes of one buffer in place are `FixedBuffer`'s own model.
- `ThreadPool`: exceptions and joins are not modelled, and a wait is cut into the locked passes before and after it.
- EventLoops.EventLoop.DoPendingFunctors: does not model that another thread is between its push and its write while the batch runs, because a method is one thread's; the machine's events are cut there.
- Connections.TcpConnection.ConnectEstablished: does not model the user's callback and the delay timer of lines 53-57.
- Connections.TcpConnection.HandleRead: does not model the refresh of that timer in line 144.
- Connections.TcpConnection.ConnectDestroyed: does not model the user's callback, nor the poller's removal of the channel, which is `Pollers.Poller.RemoveChannel`.
- AsyncLogging.AsyncLogging.Append: does not hold its bytes in `FixedBuffer` objects; the link is that a `FixedBuffer` of the logger's size takes a line exactly when the protocol's `Put` does.
- `m_delay > 0` and the auto-close by timers: the state changes before any send, which would only add exceptions. `updateTimer` goes with it.
- Messages whose Content-Length exceeds the bytes supplied: the code reads past them; the model ends with a fault of its own there and says nothing about the bytes.
- Several calls of `parse` on one request: the marks are locals, so only whole messages are proved about.
- INVALID_VERSION and INVALID_HEADER: the automaton never enters them.
- Names of connections: they are the counter behind the server's name. A counter that wraps around is not modelled.
- HandOver: the bytes of a send and its partial writes, which ConnOutput covers; here a send only leaves bytes behind or does not.
- HandOver: a handler is one step, so a user's last pointer that is dropped by another thread while a handler of a channel put back after its destruction runs is not modelled; nor are functors that only hold the connection, as `shutdownInLoop` does.
- HandOver: the removal's call to the balancer, which LoadBalance covers.
- Poller: the array of returned events and its growth, `wait` and edge-triggered mode; the event bits are two booleans.
- `getLoopForHash`, `getAllLoops`: read-only choices among the loops.
- `EventLoop::loop` as one method, since it need not end: its entry, its test and the parts of a turn are methods, its turns the machine's events. `runInLoop` appears in HandOver as a functor run at once on its own loop.
- Liveness in wall-clock time: that a timer fires within some time, or the logger flushes every few seconds.
- Sockets, addresses, the acceptor, locks and threads: wrappers over system calls.
- HTTP responses, the HTTP server's glue, log appenders and the formatting of items: straight-line output.
- Repeating timers: `restart` is never called.
