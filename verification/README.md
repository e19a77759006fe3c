# Verification of TrantorNet's concurrent core, in Dafny

TrantorNet is an event-loop, asynchronous-I/O and threading library. This project models its small state
machines and hand-written data structures and proves what they promise. `dafny verify dfyconfig.toml`
checks everything.

- **File operators** (`FdModel`, `EofProtocol`, `EofProgress`, `EofRequests`, `FdOperators`). Readers and writers of a path share a
  registry, so that a reader sees end of file only when every writer has drained and closed.
  `FdModel` gives each call and handler as a function on values. `EofProtocol` runs any number of
  operators over append-only files and proves the protocol over every run; `EofProgress` proves where runs
  lead: to drained writers, to readers at the end, or to readers left behind; `EofRequests` proves when a
  request is answered, and with which bytes. `FdOperators` holds the
  classes `FdOperator` and `FdOperatorManager`, each method proved to do what the function of that name
  says. An operator that is registered (`FdOperators.FdOperator.RegisterFd`) is polled from then on.
- **Synchronisation** (`ShareMutex`, `ThreadPool`, `PoolWaiting`, `BlockQueue`, `Semaphore`, over `Threads`). A step is one
  operation on a mutex or condition variable, one test or one access; sleeping, being notified, waking
  spuriously and taking the mutex again are separate. The lemmas hold for any number of threads and
  every interleaving.
- **Loop hand-off** (`LoopHandoff`). Producers, the eventfd and the loop thread of `TrantorLoop` and
  `FdLoop`, from before the loop starts.
- **Time wheel** (`WheelModel`, `WheelLife`, `WheelDelays`, `TimeWheel.dfy`). Buckets of shared pointers, the weak
  index and destruction at the last reference, refined to a table from key to deadline tick and callback;
  each uuid over whole runs; and the delays, with the ticks of the timer queue.
- **Timer queue** (`TimerModel`, `TrantorTimer.dfy`). The multimap, the one armed timerfd and callbacks that
  register timers while a batch runs.
- **Byte buffer** (`StringBuffer.dfy`). The two-index buffer over an array, as a first-in first-out byte
  sequence with a memory bound.
- **Connection** (`TcpModel`, `TcpConnection.dfy`). Sending, write interest, and the deferred shutdown or
  close, over that buffer.
- **Codecs** (`Base64`, `SplitString.dfy`). The staging-array loops of base64 against section 4 of RFC 4648,
  and `splitString`.

Where the code does less than it seems to promise, the condition is proved:

- An end-of-file callback carries the rest of the file exactly when its request covers the buffer
  (`EndCompleteIff`).
- A reader is left behind for good, over all steps, exactly by a request that leaves less than the
  high-water mark to a reader switched off, or by a poll that reaches the mark while a waiting request
  takes the buffer below it again (`StuckStepIff`, `StuckForever`).
- A thread is left asleep on a free lock exactly by a writeUnLock that notifies another sleeper
  (`StrandedIff`).
- `waitUntilFinished` returns with everything pushed before the call finished if there is one worker, its
  first test finds the queue not empty and it is not woken spuriously (`SingleWorkerFinishes`); a
  run shows that each of the three is needed (`TwoWorkersReturnTooEarly`, `ReturnsTooEarly`,
  `SpuriousReturnsTooEarly`).
- A shutdown or close that has to wait is lost exactly when another request comes before the write
  buffer is empty (`RequestServedIff`).
- A trigger time of 0 loses the timer exactly to a later time (`ArmedKeptIff`).
- A delay lands in the wrong bucket exactly when one of two 32-bit sums wraps (`BucketIndexIff`).
- The decoder's third byte overflows, when it is discarded, exactly if the letters end in a group of one or two, or of
  three with low bits set in the last (`OverflowIff`, `TextOverflowIff`).
- `splitString` hangs exactly on an empty separator (`SplitStrings.StuckIff`).
- The address form of `readBuffer` loses bytes exactly when asked for fewer than there are (`ReadBufferTo`).

## Model

| member | source | states |
|---|---|---|
| EofProtocol.EofSound | src/aio/src/FdOperator.cc:240-292 | In every run, when a reader sets `file_read_eof_` no writer is registered on its path, every byte any writer of the path accepted before its descriptor was closed is in the file, and what the reader's callbacks got plus its buffer is the whole file |
| EofProtocol.EndSound | src/aio/src/FdOperator.cc:80-135 | A callback with end = true (by handleRead, for a request of positive length): the concatenation of all its callback contents is everything up to at least the end it saw, and the whole file if nobody appended since |
| EofProtocol.EndMeansEmpty | src/aio/src/FdOperator.cc:93-105 | end = true is said only at end of file and with an empty buffer, but for handleRead answering a request of length 0 |
| EofProtocol.EndSaidIff | src/aio/src/FdOperator.cc:93-116 | In every run the end is announced by a request exactly when the end was seen and the request empties the buffer, and by the handler exactly when a request waits and the read finds nothing with no writer left and the buffer below the mark |
| EofProtocol.AcceptedIff | src/aio/src/FdOperator.cc:144-152 | Data for an open writer is accepted whole if and only if less than the high-water mark of what it accepted is not in the file yet, else not at all |
| EofProtocol.InputBounded | src/aio/src/FdOperator.cc:242-274 | Over any run no reader ever buffers twice the high-water mark |
| EofProtocol.EndCompleteIff | src/aio/src/FdOperator.cc:275-286 | The end-of-file callback of handleRead completes the file if and only if the pending length covers the bytes still buffered |
| EofProgress.ZeroRequestWitness | src/aio/src/FdOperator.cc:275-286 | A concrete run in which a request of length 0 is told end = true while a byte is still buffered |
| EofProtocol.PositiveRequests | src/aio/src/FdOperator.cc:111-116 | If a reader is not asked for 0 bytes in a run, no request of length 0 ever waits at it, whatever the others are asked for |
| EofProtocol.PositiveEndSound | src/aio/src/FdOperator.cc:275-286 | So every end = true such a reader is told comes with all its callback contents adding up to the file up to the end it saw |
| EofProtocol.NoStall | src/aio/src/FdOperator.cc:254-262 | An open reader with reading off, no end of file and not paused at the high-water mark has read the whole file, and an open writer is registered on its path |
| EofProtocol.WriterWakes | src/aio/inc/FdOperatorManager.h:30-40 | Any step that makes a file longer or retires its last writer leaves every open reader of that path with reading on |
| EofProgress.StuckStepIff | src/aio/src/FdOperator.cc:117-120 | In every run a step leaves a reader stuck if and only if its writers are gone, the end is not seen, and the step is a request that leaves less than the high-water mark to a reader switched off, or a poll that fills the buffer to the mark while the waiting request takes it below again |
| EofProgress.StuckForever | src/aio/src/FdOperator.cc:117-120 | A stuck reader never reads again over any run, unless it is closed or a new writer of its path is opened |
| EofProgress.StallWitness | src/aio/src/FdOperator.cc:269-273 | A concrete run that leaves a reader stuck: a file exactly as long as the high-water mark |
| EofProgress.PollStallWitness | src/aio/src/FdOperator.cc:269-286 | A concrete run in which one poll, and no request to a reader switched off, leaves it stuck |
| EofProgress.WorkEnds | src/aio/src/FdOperator.cc:240-292 | Once a reader's writers are gone and none is opened, its answered requests and its polls short of the end are at most its work, twice the bytes to read and the bytes to deliver and one, in every run of all operators |
| EofProgress.NextWork | src/aio/src/FdOperator.cc:80-135 | Unless it is stuck such a request or poll is always possible, until the end is seen and the buffer empty; then the next request is told the end |
| EofProtocol.DrainBeforeClose | src/aio/src/FdOperator.cc:185-226 | A writer's descriptor is closed only in a state where every byte it accepted is in the file, in order |
| EofProgress.DrainEnds | src/aio/src/FdOperator.cc:294-324 | In every run without further input to a writer, whatever it and all the others do, its buffer loses from the front exactly what its write events sent, at most as many of them send something as it has bytes, and when they are gone it is closed if that was asked for before or in the run |
| EofProtocol.FilesGrow | src/aio/src/FdOperator.cc:294-304 | No step takes back or reorders bytes of a file |
| EofProtocol.InvStep | src/aio/src/FdOperator.cc:80-324 | Every call and handler keeps the invariant over all operators, the registry, the buffers and the files |
| EofProtocol.ReachableInv | src/aio/src/FdOperator.cc:29-50 | The invariant holds in every state reachable from any file contents with nothing open |
| EofProtocol.NoWriterMeansDrained | src/aio/src/FdOperatorManager.cc:17-35 | A path without registered writers has only closed writers, all of whose bytes are in the file |
| EofProtocol.RegistryClear | src/aio/src/FdOperatorManager.cc:17-48 | Erasing keeps the registry equal to the open operators of each path, with no empty writer set |
| EofProtocol.ClearWakes | src/aio/src/FdOperatorManager.cc:22-33 | When clearFd takes a path's last writer off, every reader of the path is polled again |
| EofProtocol.PollInOk | src/aio/src/FdOperator.cc:240-292 | handleRead, for any legal result of read, keeps delivered ++ buffer equal to the part of the file read |
| EofProtocol.ReadFdOk | src/aio/src/FdOperator.cc:80-135 | readFd keeps delivered ++ buffer, whichever of its branches is taken |
| EofProtocol.WriteFdOk | src/aio/src/FdOperator.cc:137-183 | writeFd keeps file ++ buffer equal to the accepted bytes and write interest on while bytes wait, also when it refuses the data |
| EofRequests.AnsweredIff | src/aio/src/FdOperator.cc:80-292 | readFd calls its callback if and only if the end was seen, or bytes are buffered and the length is positive; handleRead if and only if a request waits, the buffer is below the mark, and bytes were read or no writer is left |
| EofRequests.AnswerIs | src/aio/src/FdOperator.cc:80-292 | In every run a callback receives the next bytes of the file after those delivered: the length asked for, or all the reader has |
| EofRequests.RequestsAnswered | src/aio/src/FdOperator.cc:80-292 | Over every run requests = callbacks + requests replaced by a later one while they waited + 1 if one waits |
| EofRequests.CallbacksMatchRequests | src/aio/src/FdOperator.cc:80-292 | Over every run of a reader asked only while no request waits, requests = callbacks + 1 if one waits |
| EofRequests.InterestIff | src/aio/src/FdOperator.cc:80-324 | After readFd and the two handlers the interest bit is on exactly as the mark, the bytes read and the bytes left say |
| EofRequests.ClosedIff | src/aio/src/FdOperator.cc:185-238 | closeFd closes the descriptor at once if and only if it is a reader or has nothing left to write; else it sets the deferred flag and nothing more of the output half |
| FdOperators.FdOperator.OpenFd | src/aio/src/FdOperator.cc:29-50 | On the objects: a failed open changes nothing and says so; else one fresh operator with its interest bit is registered on the right side |
| FdOperators.FdOperator.RegisterFd | src/aio/src/FdOperator.cc:54-58 | On all the objects: only its registration changes |
| FdOperators.FdOperator.ReadFd | src/aio/src/FdOperator.cc:80-135 | On all the objects: the state and the callback of the value model |
| FdOperators.FdOperator.WriteFd | src/aio/src/FdOperator.cc:137-183 | On all the objects: the output half of the value model, and the callback is told true exactly if the data was taken |
| FdOperators.FdOperator.CloseFd | src/aio/src/FdOperator.cc:185-209 | On all the objects: close now or defer, as in the value model |
| FdOperators.FdOperator.ClearFd | src/aio/src/FdOperator.cc:211-226 | On all the objects: unregistered, closed, and the readers woken when it was the last writer |
| FdOperators.FdOperator.HandleRead | src/aio/src/FdOperator.cc:240-292 | On all the objects: the input half and the callback of the value model, asking the registry whether writers remain |
| FdOperators.FdOperator.HandleWrite | src/aio/src/FdOperator.cc:294-324 | On all the objects: bytes out, readers woken, interest off and the deferred close when drained |
| FdOperators.FdOperatorManager.TrigReadEvent | src/aio/inc/FdOperatorManager.h:30-40 | The loop over readers switches on exactly the registered readers of the path |
| FdOperators.FdOperatorManager.EraseWriteFdop | src/aio/src/FdOperatorManager.cc:17-35 | The maps and every operator afterwards, for the last writer and for others |
| FdOperators.FdOperatorManager.EraseReadFdop | src/aio/src/FdOperatorManager.cc:37-48 | The reader's map afterwards; a path goes with its last reader |
| EofProtocol.WaitingIff | src/aio/inc/FdOperatorManager.h:24-28 | In every run a path is in the writers' map if and only if some writer of it is open |
| FdOperators.HandleWriteInSteps | src/aio/src/FdOperator.cc:294-324 | The handler's separate updates compose to the one transition the protocol uses |
| ShareMutex.LockSafety | src/thread/src/TrantorShareMutex.cc:5-48 | In every reachable state both counters are the numbers of holders, a writer excludes every other holder, and the `> 0` guards of the unlocks never fail |
| ShareMutex.LockAsCalled | src/thread/src/TrantorShareMutex.cc:5-48 | In every run, by the last function each thread called: back from readLock it is a reader, back from writeLock a writer, back from an unlock neither; and a thread back from writeLock excludes every other one back from either lock |
| ShareMutex.OperationCloser | src/thread/src/TrantorShareMutex.cc:5-48 | Each operation inside a function brings its thread closer to the return, or to sleep |
| ShareMutex.DrainStep | src/thread/src/TrantorShareMutex.cc:14-36 | While a writer drains, each step lowers the reader count by one for a readUnLock and else keeps it; the drain ends only at zero |
| ShareMutex.DrainExact | src/thread/src/TrantorShareMutex.cc:14-36 | Over any run of a drain, the readers left plus the unlocks made are the readers at its start |
| ShareMutex.WriterNotForgotten | src/thread/src/TrantorShareMutex.cc:14-36 | A writer asleep for the readers is alone there, and with the count at zero some reader is about to notify it and can reach nobody else |
| ShareMutex.UnlockNotBlocked | src/thread/src/TrantorShareMutex.cc:24-48 | An unlock under way can move, or the mutex it needs belongs to a thread that is awake and can move |
| ShareMutex.NoDeadlock | src/thread/src/TrantorShareMutex.cc:5-48 | While a thread is in the lock or an unlock and not waiting for a writer to leave, some thread can move or already holds the lock |
| ShareMutex.StepInv | src/thread/src/TrantorShareMutex.cc:5-48 | Every call, operation, notification and spurious wake-up keeps the counting invariant |
| ShareMutex.SoleSleeper | src/thread/src/TrantorShareMutex.cc:16-19 | At most one thread sleeps on `read_count_zero_cv_` |
| ShareMutex.StrandedIff | src/thread/src/TrantorShareMutex.cc:37-48 | In every run a thread is left asleep on `write_count_zero_cv_`, with no writer inside and nobody about to notify, by exactly one kind of step: a writeUnLock whose notify_one reaches another sleeper |
| ShareMutex.StrandedUntil | src/thread/src/TrantorShareMutex.cc:5-48 | It stays so over every step but a spurious wake-up of it or the entry of the next writer |
| ShareMutex.ReaderStranded | src/thread/src/TrantorShareMutex.cc:37-48 | It happens: a reachable state with the lock free and a reader asleep whom only a new call or a spurious wake-up can help |
| ThreadPool.WorkConserved | src/thread/src/TrantorThreadPool.cc:35-91 | While a worker sleeps unsignalled, the queue is no longer than the notifications to come plus the workers awake and looking for work |
| ThreadPool.NoStrandedTask | src/thread/src/TrantorThreadPool.cc:35-91 | With a task queued, some step that is neither a new call nor a spurious wake-up is enabled |
| ThreadPool.StepCloser | src/thread/src/TrantorThreadPool.cc:35-91 | With a task queued, every working step takes the front task or lowers a distance, and a new call or spurious wake-up adds at most seven to it |
| ThreadPool.TakenWithin | src/thread/src/TrantorThreadPool.cc:35-91 | Over every run in which no queued task is taken, the working steps are bounded by the distance at the start plus seven for each new call or spurious wake-up |
| ThreadPool.DispatchOnce | src/thread/src/TrantorThreadPool.cc:64-91 | In every run dequeued ++ queue is the tasks of the pushTask calls that got past their push, told from the steps alone; no pushTask returns before that; and each worker has run exactly what it took, in order, but for the task in its hands |
| ThreadPool.WaiterNotForgotten | src/thread/src/TrantorThreadPool.cc:45-77 | A caller of waitUntilFinished asleep on an empty queue has some worker executing or about to make the check that notifies it |
| ThreadPool.WaitMeansDequeued | src/thread/src/TrantorThreadPool.cc:45-58 | In every run, when a call of waitUntilFinished returns, every task pushed before that call has been dequeued, in push order |
| PoolWaiting.SingleWorkerFinishes | src/thread/src/TrantorThreadPool.cc:45-91 | With one worker, after any earlier calls, a call that finds the queue not empty at its first test and is not woken spuriously returns only when every task pushed before it has been run, in push order |
| PoolWaiting.TwoWorkersReturnTooEarly | src/thread/src/TrantorThreadPool.cc:45-91 | One worker is needed: a reachable state of two in which such a call returns while one of those tasks still runs |
| PoolWaiting.SpuriousReturnsTooEarly | src/thread/src/TrantorThreadPool.cc:54-56 | So is the absence of spurious wake-ups: a reachable state of one worker |
| PoolWaiting.ReturnsTooEarly | src/thread/src/TrantorThreadPool.cc:45-51 | So is the first test: a reachable state of one worker, without a spurious wake-up |
| ThreadPool.StepInv | src/thread/src/TrantorThreadPool.cc:35-91 | Every step keeps mutual exclusion, order, each worker's share and the conservation of work |
| ThreadPool.NextWFits | src/thread/src/TrantorThreadPool.cc:64-91 | The worker loop takes and drops the mutex in step with its position, sleeps only on an empty queue and takes only from a queue that is not |
| BlockQueue.BoundedFifo | src/thread/inc/TrantorBlockQueue.h:32-59 | In every run popped ++ queue = pushed; what a thread pushed is what its calls of put handed over, in order, but for a call that has not pushed yet, and it popped once per take; the size stays within the bound, and the tests repeated after the waits always hold |
| BlockQueue.SleepersHaveReason | src/thread/inc/TrantorBlockQueue.h:32-59 | A consumer asleep means an empty queue and a producer asleep a full one, unless the mutex holder is about to notify them |
| BlockQueue.OperationCloser | src/thread/inc/TrantorBlockQueue.h:32-59 | Each operation of put and take brings its thread closer to the return, or to sleep |
| BlockQueue.NoDeadlock | src/thread/inc/TrantorBlockQueue.h:32-59 | For a bound of at least 1, a put and a take under way are never both stuck |
| BlockQueue.StepInv | src/thread/inc/TrantorBlockQueue.h:32-59 | Every operation, notification and spurious wake-up keeps the queue's invariant |
| Semaphore.ResourcesConserved | src/thread/src/TrantorSemaphore.cc:5-21 | For clients that post what they hold, available + holders = max; a wait never takes below zero and post's guard always holds; and a thread back from its last call is a holder if and only if that was a wait |
| Semaphore.OperationCloser | src/thread/src/TrantorSemaphore.cc:5-21 | Each operation of wait and post brings its thread closer to the return, or to sleep |
| Semaphore.SleeperNotForgotten | src/thread/src/TrantorSemaphore.cc:5-21 | A thread asleep with resources available has a post about to notify all |
| Semaphore.StepInv | src/thread/src/TrantorSemaphore.cc:5-21 | Every operation, notification and spurious wake-up keeps the counting invariant |
| LoopHandoff.InOrderOnce | src/net/src/TrantorLoop.cc:50-96 | In every run executed ++ rest of the batch ++ list is the closures of the queueInLoop calls that got past their push, told from the steps alone, and no queueInLoop returns before that |
| LoopHandoff.WakesCounted | src/net/src/TrantorEvent.cc:43-61 | In every run the eventfd holds the wake-ups made since the loop last read it, told from the steps alone, and the loop polls before every swap |
| LoopHandoff.NeverBlockedOverWork | src/aio/src/FdLoop.cc:31-74 | When the loop is blocked over a list that is not empty, a producer is about to wake it and its step does |
| LoopHandoff.SwapApproaches | src/net/src/TrantorLoop.cc:21-66 | Unless blocked the loop can step; each step brings the swap closer, and the swap takes everything pushed by then |
| LoopHandoff.StepApproaches | src/net/src/TrantorLoop.cc:21-66 | Every step of the loop but the swap lowers what remains to it; every other step leaves that and the loop as they are and does not block it |
| LoopHandoff.SwapWithin | src/net/src/TrantorLoop.cc:21-66 | In every run until the list is taken the loop makes at most as many steps as remained at the start |
| LoopHandoff.StepInv | src/net/src/TrantorEvent.cc:43-61 | Push, wake-up, poll, clearing the eventfd, swap and run all keep the hand-off's invariant |
| WheelModel.RunAfterNamedRefines | src/tool/src/TimeWheel.cc:42-53 | On the table: a new uuid gets tick + bucket + 1; a known one keeps its callback and takes the larger deadline |
| WheelModel.RunAfterAnonymousRefines | src/tool/src/TimeWheel.cc:56-73 | On the table: one new key with that deadline, and no other change |
| WheelModel.OnTimerRefines | src/tool/src/TimeWheel.cc:75-84 | Exactly the keys whose deadline is the new tick fire, each once with its own callback, and leave the table |
| WheelModel.ReleaseAllFires | src/tool/inc/TimeWheel.h:13-23 | Dropping the expired bucket's references one by one destroys, and fires, exactly the entries no bucket refers to |
| WheelModel.FiresOnceAtDeadline | src/tool/src/TimeWheel.cc:13-84 | Over any run without a refresh of it, an entry fires exactly once, at its deadline, and not before |
| WheelLife.LifeRefined | src/tool/src/TimeWheel.cc:13-84 | Over any run, refreshes and new generations included, what the wheel shows of a uuid (deadline, callback, the callbacks that ran) is what the one-timer description of it gives |
| WheelLife.WheelFiresGeneration | src/tool/src/TimeWheel.cc:42-84 | On the wheel, over any run: the first callback of each generation of a uuid runs exactly once, at the maximum over its refreshes of tick at call + bucket + 1, when the uuid becomes free; before, its entry waits with that deadline and callback |
| WheelModel.LockSucceeds | src/tool/src/TimeWheel.cc:44-47 | A uuid is in the index if and only if its entry is alive, and then some bucket holds it, so `lock()` is not null |
| WheelModel.DeadlinesAhead | src/tool/src/TimeWheel.cc:75-84 | No entry outlives its deadline |
| WheelDelays.BucketIndexIff | src/tool/src/TimeWheel.cc:15-26 | For every wheel size and ratio, in 32-bit arithmetic, the bucket is min(whole intervals + 1, last) if and only if neither sum wraps before it is used, or there is one bucket |
| WheelDelays.BucketIndexWraps | src/tool/src/TimeWheel.cc:16-26 | The ratio 2^32 - 1 lands in the bucket that expires first |
| WheelDelays.NeverEarly | src/tool/src/TimeWheel.cc:56-84 | In any run of the wheel with ticks more than an interval apart, a state in which an anonymous entry has fired is later than its delay, if that is not capped |
| WheelDelays.NamedNeverEarly | src/tool/src/TimeWheel.cc:13-54 | The same for a call with a uuid, new or known, whatever refreshes follow |
| WheelDelays.DueWithin | src/tool/src/TimeWheel.cc:56-84 | In any run with exact ticks an anonymous entry fires once, at a tick in (delay, delay + 2 * interval]: its count is 1 from that tick on and 0 before, so 0 up to the delay and 1 at the first tick more than an interval past it |
| WheelDelays.NamedDueWithin | src/tool/src/TimeWheel.cc:13-54 | The same for a new uuid that is not refreshed |
| WheelDelays.WheelNeverEarly | src/tool/src/TimeWheel.cc:10-26 | The same for both calls when the ticks are the firings of onTimer in a run of the timer queue under runEvery |
| TimeWheels.TimeWheel.RunAfterNamed | src/tool/src/TimeWheel.cc:13-54 | The object after the call, and that it stays valid |
| TimeWheels.TimeWheel.RunAfterAnonymous | src/tool/src/TimeWheel.cc:56-73 | The object after the call, and that it stays valid |
| TimeWheels.TimeWheel.OnTimer | src/tool/src/TimeWheel.cc:75-84 | The object after rotation and the release of every reference of the expired bucket |
| TimerModel.TimerCorrect | src/net/src/TrantorTimer.cc:39-127 | After any run without time 0: nothing pending and unarmed, or armed for the earliest entry with a normalised, non-zero value; registered = fired + pending as bags; equal times fire in registration order; nothing fires before its time |
| TimerModel.DrainCorrect | src/net/src/TrantorTimer.cc:39-68 | A drain fires exactly the entries due when it looked, in key order; what callbacks register meanwhile stays pending, and the timer is armed again, by the clock read after the callbacks |
| TimerModel.RegisteredAsAsked | src/net/src/TrantorTimer.cc:57-107 | In every run what is registered is what the events ask for, each callback for its own time: the caller's registrations, and at a drain those of the callbacks it fires |
| TimerModel.DueHaveFired | src/net/src/TrantorTimer.cc:39-68 | In every run, after a drain the callbacks fired for any time before the clock it read are exactly those asked for, for that time, before it, in that order |
| TimerModel.RegisterArmed | src/net/src/TrantorTimer.cc:98-127 | A registration leaves the timer armed for the earliest pending entry, by the clock read at the registration if it had to be set |
| TimerModel.ArmedKeptIff | src/net/src/TrantorTimer.cc:98-107 | It does so if and only if it does not come later than a pending entry for time 0 |
| TimerModel.ZeroIsMistaken | src/net/src/TrantorTimer.cc:102-106 | Concretely: after a registration for 0, the next one takes the timer away from it |
| TimerModel.InsertOfKey | src/net/src/TrantorTimer.cc:101-101 | The multimap's insertion is stable for equal keys |
| TimerModel.RunBatchValid | src/net/src/TrantorTimer.cc:57-68 | Whatever the callbacks register, the batch fixed at entry runs to its end, and nothing else does |
| TimerModel.PeriodicSpacing | src/net/src/TrantorTimer.cc:81-96 | In any run of the timer queue in which a callback is registered as runEvery does, among any others, it fires at times more than an interval apart, number k (from 0) later than start + (k + 1) intervals |
| TrantorTimers.TrantorTimer.RegisterTimerCbInLoop | src/net/src/TrantorTimer.cc:98-107 | The object after a registration |
| TrantorTimers.TrantorTimer.RegisterTimer | src/net/src/TrantorTimer.cc:116-127 | The timerfd setting and `next_trigger_time_` |
| TrantorTimers.TrantorTimer.GetIntervalFromNow | src/net/src/TrantorTimer.cc:109-114 | The time to go, or 100 microseconds when it is shorter or past |
| TrantorTimers.TrantorTimer.LowerBound | src/net/src/TrantorTimer.cc:60-60 | The number of leading entries before the given time |
| TrantorTimers.TrantorTimer.RunTimerCb | src/net/src/TrantorTimer.cc:57-68 | The object after the batch, with callbacks registering re-entrantly |
| TrantorTimers.TrantorTimer.HandleRead | src/net/src/TrantorTimer.cc:39-55 | The object after the drain and the new arming |
| StringBuffers.StringBuffer.WriteBuffer | src/tool/src/StringBuffer.cc:35-56 | Contents grow by exactly the data; consumed ++ contents = written; the memory bound holds |
| StringBuffers.StringBuffer.AdjustBuffer | src/tool/src/StringBuffer.cc:26-32 | The compaction keeps the contents although source and target overlap |
| StringBuffers.StringBuffer.CopyDown | src/tool/src/StringBuffer.cc:29-29 | An ascending byte copy to a lower place moves the old bytes there unchanged |
| StringBuffers.StringBuffer.ResizeBuffer | src/tool/src/StringBuffer.cc:20-23 | A larger array with the old bytes in front |
| StringBuffers.StringBuffer.ReadBuffer | src/tool/src/StringBuffer.cc:77-93 | Takes the min(size, readable) oldest bytes; data ++ contents = the old contents |
| StringBuffers.StringBuffer.ReadBufferTo | src/tool/src/StringBuffer.cc:57-76 | Delivers the oldest bytes but empties the buffer: no byte is lost if and only if size covers them all |
| StringBuffers.StringBuffer.Retrieve | src/tool/inc/StringBuffer.h:19-23 | Drops the n oldest bytes; the indices stay in order if and only if n is in range or the contents end with the array |
| StringBuffers.StringBuffer.RetrieveAsString | src/tool/inc/StringBuffer.h:33-39 | Returns the oldest bytes and consumes them |
| StringBuffers.StringBuffer.Unwrite | src/tool/inc/StringBuffer.h:75-81 | Takes back the newest bytes, or nothing when there are fewer or the size is negative |
| StringBuffers.StringBuffer.FindCRLF | src/tool/inc/StringBuffer.h:58-62 | The first CRLF of the contents |
| StringBuffers.FirstCRLFIs | src/tool/inc/StringBuffer.h:58-62 | It is a CRLF with none before it, or there is none at all |
| StringBuffers.StringBuffer.RetrieveUntil | src/tool/inc/StringBuffer.h:82-88 | Drops the contents before a position |
| StringBuffers.GrowthBounded | src/tool/src/StringBuffer.cc:48-54 | A growth more than doubles the capacity, makes room, and keeps: capacity < 4 * peak readable, 2^growths <= capacity, bytes moved < capacity |
| StringBuffers.GrowthsAreFew | src/tool/src/StringBuffer.cc:48-54 | So 2^(growths - 1) < 2 * peak, and the bytes moved in all are fewer than 4 * peak |
| TcpModel.RunValid | src/tcp/src/TcpConnection.cc:32-129 | Over every run: sent ++ buffer = accepted, bytes waiting keep write interest on, an action waits only while bytes do, and an action runs only when everything accepted has been sent |
| TcpModel.AllData | src/tcp/src/TcpConnection.cc:32-71 | In every run the data given to write, told from the operations alone, is what was sent followed by what waits, and the write events have sent as much as they say |
| TcpModel.RanAfterData | src/tcp/src/TcpConnection.cc:58-129 | In every run an operation carries out a request only when all data given to write up to then has been sent |
| TcpModel.DrainEnds | src/tcp/src/TcpConnection.cc:58-71 | In every run without further input, whatever is requested and however little each write event sends, the buffer loses from the front exactly what they send, at most as many of them send something as it has bytes, and when it is empty all accepted bytes are sent, no request waits and write interest is off if bytes were waiting |
| TcpModel.CanDrain | src/tcp/src/TcpConnection.cc:58-71 | While bytes wait, a write event that sends any number of them is enabled |
| TcpModel.DiscardedIff | src/tcp/src/TcpConnection.cc:58-71 | A waiting request is discarded by a step if and only if that step is another request |
| TcpModel.ActionLostIff | src/tcp/src/TcpConnection.cc:88-129 | By the action alone, what the slot holds is lost if and only if the other action is asked for |
| TcpModel.RequestServedIff | src/tcp/src/TcpConnection.cc:58-129 | Over every run a request is carried out, or still waits for bytes, if and only if the buffer was empty or no other request comes before the first state with an empty buffer |
| TcpModel.OvertakenIff | src/tcp/src/TcpConnection.cc:88-129 | What "before the first state with an empty buffer" means, by positions in the run |
| TcpModel.LostWitness | src/tcp/src/TcpConnection.cc:88-129 | Concretely: a shutdown that waits for a byte never happens when a close is asked for before the byte is sent |
| TcpModel.AtMostOnce | src/tcp/src/TcpConnection.cc:58-71 | Over every run no request is carried out twice |
| TcpConnections.TcpConnection.Write | src/tcp/src/TcpConnection.cc:32-38 | The object after a write, over the real buffer |
| TcpConnections.TcpConnection.WriteCallback | src/tcp/src/TcpConnection.cc:58-71 | The object after a write event, including the deferred action |
| TcpConnections.TcpConnection.ShutdownWriteInLoop | src/tcp/src/TcpConnection.cc:88-102 | Runs the shutdown, or puts it into the shared slot |
| TcpConnections.TcpConnection.ForceCloseInLoop | src/tcp/src/TcpConnection.cc:109-129 | Reports the close, or puts it into the shared slot |
| Base64.RoundTrip | src/tool/src/Funcs.cc:112-194 | Decoding an encoding gives back every byte string |
| Base64.CanonicalIff | src/tool/src/Funcs.cc:112-194 | Encoding a decoding gives back the text if and only if the text is canonical |
| Base64.Vectors | src/tool/src/Funcs.cc:112-153 | The test vectors "f", "fo" and "foo" of section 10 of RFC 4648 |
| Base64.EncodeLength | src/tool/src/Funcs.cc:112-153 | The length is 4 * ceil(n / 3) |
| Base64.EncodePadding | src/tool/src/Funcs.cc:133-149 | The text is letters of the alphabet and then exactly the pad characters the last group lacks |
| Base64.Base64Encode | src/tool/src/Funcs.cc:112-153 | The loop computes the encoding of section 4 of RFC 4648, groups of 24 bits read as four 6-bit numbers |
| Base64.Base64Decode | src/tool/src/Funcs.cc:155-194 | The loop computes its inverse on the leading letters, groups of four, and a last group of two or three |
| Base64.Pack | src/tool/src/Funcs.cc:123-126 | The masks and shifts cut the 24-bit group into its four numbers |
| Base64.OverflowIff | src/tool/src/Funcs.cc:177-191 | No sum overflows a byte but the third, exactly for a short last group with fewer than three letters or low bits set, where it is discarded |
| Base64.TextOverflowIff | src/tool/src/Funcs.cc:155-191 | Decoding a text overflows a byte somewhere if and only if its leading letters end in a group of one or two, or in one of three whose last letter has a low bit set |
| Base64.FillUnseen | src/tool/src/Funcs.cc:180-190 | The 255 that `find` leaves for missing letters never reaches a byte that is used |
| Base64.Find | src/tool/src/Funcs.cc:164-165 | The letter's place in the table, or 255 for anything else |
| Base64.PlaceIff | src/tool/src/Funcs.cc:3-11 | The table and `is_base64` agree, and each letter is where its place says |
| SplitStrings.SplitString | src/tool/src/Funcs.cc:65-86 | The two nested loops end, and give the pieces between leftmost separators that do not overlap, without the empty ones |
| SplitStrings.ItemsAreFree | src/tool/src/Funcs.cc:65-86 | No item is empty or contains the separator |
| SplitStrings.ItemsRebuild | src/tool/src/Funcs.cc:65-86 | The items with one or more separators between them, and any number at the ends, rebuild the input |
| SplitStrings.FindFirst | src/tool/src/Funcs.cc:70-70 | The search gives the first occurrence, whenever there is one |
| SplitStrings.StuckIff | src/tool/src/Funcs.cc:71-82 | A turn of the loop gets nowhere if and only if the separator is empty |

## Left out

- System calls (open, read, write, poll, epoll, eventfd, timerfd, sockets, the clock) are parameters or steps with their documented effect; `read` and `write` return 0 to the requested length, as the code has no error path for -1.
- FdOperators.FdOperator.ReadFd: the callback is a returned value, so a request made from inside a callback, which handleRead then overwrites with NULL, is not captured.
- FdOperators.FdOperator.RegisterFd: the loop's poll map is the registration flag; that the map is changed in the loop's thread is not modelled.
- FdOperators.FdOperator: its two buffers are byte sequences here; that StringBuffer behaves like one is proved separately, not composed.
- EofProtocol.InvStep: handlers and calls are atomic steps of one loop; races between loops, reuse of descriptors, `seekFd` and truncating `WRITE_MODE` writers of a file others read are not modelled.
- EofProtocol.EofSound: bytes written to an operator after its descriptor was closed are counted apart; the code buffers them and they never reach the file.
- Read back-pressure: nothing beyond NoStall, StuckStepIff and StuckForever is claimed about readers paused at the high-water mark.
- Concurrency: the lock, the pool, the blocking queue, the semaphore and the loop hand-off are state machines on values, not classes; memory ordering weaker than sequential consistency is not modelled.
- ShareMutex: no wake-up claim for `write_count_zero_cv_`, since ReaderStranded shows there is none; threads unlock only what they hold.
- ThreadPool: shutdown, where the destructor notifies one worker and a stale task can run again, and more than one caller of waitUntilFinished; the cached pool's least-loaded scan, an easy member.
- BlockQueue: `take` returns the front element; the code returns through a reference to the popped one. Destruction is left out.
- LoopHandoff: closures that queue further closures from the loop thread, and the end of the loop.
- TimeWheels.TimeWheel: delays and the interval are whole units and the ratio must fit 32 bits, for doubles are floored; `runAfter` and `onTimer` with its destructors are atomic, so lock races and callbacks that use the wheel are out.
- WheelModel.OnTimerRefines: the order of the callbacks of one tick, which is the order in which the library's vector destroys its elements.
- TimeWheels.TimeWheel.RunAfterNamed: a callback that arms its own uuid again, for which `lock()` gives null, is not modelled.
- TimerModel: a trigger time of 0 only in ArmedKeptIff and ZeroIsMistaken; callbacks act on the timer only by registering; 64-bit overflow of times is not modelled.
- StringBuffers.StringBuffer: vector size and capacity are one number, which `clear` would break, so `clear` is left out; lengths are unbounded; the compaction's `memcpy` on overlapping memory is read as an ascending copy; the missing return values of writeBuffer are ignored.
- StringBuffers.StringBuffer.RetrieveAsString: needs a length within the contents, as the code reads that many bytes.
- StringBuffers.StringBuffer.RetrieveUntil: needs a position within the contents; the code's own check ends in a stray semicolon and does nothing.
- StringBuffers.StringBuffer.ReadBufferTo: the null address, which returns -1 and changes nothing.
- TcpConnections.TcpConnection: the receiving half, epoll updates and the socket's error result of -1, and a closed callback that uses the connection again.
- Base64: 32-bit lengths.
- SplitStrings.SplitString: requires a separator that is not empty, since otherwise the code does not return.
- Logging, timestamps, URL and hex helpers, uuids, servers, acceptors and pools of loops: plumbing.
