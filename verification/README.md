# conex, verified

A Dafny model of the parts of conex, a reactor-style C++ network library, that carry its hardest
promises: the asynchronous log, the timer queue, the output path of a connection, the HTTP request parser and
response printer, the event loop's task queue, the byte buffer, the epoll interest set and decimal output.
Everything is modelled as the code is written, including branches that do something other than one would
expect.

`dafny verify dfyconfig.toml` checks the whole project. The flags
`--resource-limit 2000000 --verification-time-limit 0` bound each proof.

## How it is built

Each component has two layers. A specification layer describes it on values: a state, its atomic steps, and
lemmas about all runs (lists of steps in any order). A class layer is the code itself: fields updated in
place, arrays, loops, and methods whose contracts say which step of the specification they took. Theorems
about runs are proved on the first layer; the second connects them to the code. For the log, the timer queue
and the connection a method `Drive` performs any list of steps on the object and ends in exactly the state of
the specification's run, so every theorem about runs is one about the code. The steps themselves are pinned a
second time in terms that do not name them: over runs by the events (`TimersAreAsCreated`, `QuitIff`,
`OffLoopSendsRunInOrder`, `WriterStopsIff`, `QueuedOnlyWhenFull`), and for single calls by what they do to the
fields (`AppendEffect`, `NextHasItsEffect`, the contracts of `Append`, `AddTimer`, `SendMessage`, `Perform`).

| file | source | contents |
|---|---|---|
| Bytes.dfy | Buffer.h | bytes, big-endian integers, searches |
| Buffer.dfy | Buffer.h, Buffer.cc | the growing byte array refines a byte queue |
| LogStream.dfy | LogStream.cc, LogStream.h | decimal conversion and the fixed log buffer |
| LogFile.dfy | LogFile.cc | the short-write loop |
| AsyncLogging.dfy | AsyncLogging.cc | producers and writer as a protocol over buffers of lines |
| AsyncLogger.dfy | AsyncLogging.cc | the same with pointers, ownership and a heap of buffer objects |
| EventLoop.dfy | EventLoop.cc | task queue, wakeups, the loop |
| EPoller.dfy | EPoller.cc, Channel.h | interest masks and the kernel's set |
| TcpConnection.dfy | TcpConnection.cc | the output path against an adversarial kernel |
| TimerQueue.dfy | TimerQueue.cc, Timer.h | the ordered set, the timerfd, ownership and schedules |
| HttpRequest.dfy | HttpRequest.cc | the request and header trimming |
| HttpContext.dfy | HttpContext.cc | the parser, its termination, chunking and round trip |
| HttpResponse.dfy | HttpResponse.cc | the printer, read back by the parser |

## Decisions

- The assert at HttpRequest.cc:12 stops the process: CMakeLists.txt does not define NDEBUG. The model has an
  aborted state for it, and `AbortsIff` says when it is reached. The other asserts are preconditions where a
  caller can violate them (Buffer.h:88, Buffer.h:274) and are proved where the component itself must keep them.
- The timers and the log buffers live in an explicit heap keyed by address, so that delete, aliasing and
  dangling pointers can be spoken of; an allocation is given any address that is not in use. Using a timer that
  is gone is a fault, after which nothing is promised; a stale pointer whose address has been given to a new
  timer is a pointer to that one.
- The kernel is adversarial: `write`, `readv` and `fwrite` take or deliver any amount, `poll` may return at any
  time, and a wait may end at any time. `epoll_ctl` succeeds on legal operations. The eventfd refuses to pass
  its maximum. The timerfd and `time::now()` share one discrete clock that does not go back, although the
  source mixes a wall clock with CLOCK_MONOTONIC.
- Concurrency is at the level of critical sections and of single steps of a thread between them. Push and
  wakeup of a foreign thread are separate steps; the check-then-set in `shutdown` and `forceClose` is one, and so
  are the test of `quit_` and the step before it.
- A run of a connection starts when `connectEstablished` has just returned. The tasks that a connection
  queues run in queue order, which is what the event loop's theorems give (`ExactlyOnceInOrder`,
  `EarlierPushRunsFirst`).
- A run of the log starts with `running_` true, at the head of the writer's loop.
- The history variables of the specifications (what was appended, pushed, accepted, fired) are not read by the
  code they describe.

## Where the code differs from what one expects

- TcpConnection.cc:129-145 sits inside the no-backlog branch, so a send that finds a backlog is dropped;
  TcpConnection.cc:273 assigns, so draining a backlog ends the connection's sending. `OneBacklogThenSilence`
  is the consequence.
- A send queued from another thread is dropped if `shutdown` runs before it (`ShutdownOvertakesQueuedSend`).
- TimerQueue.cc:89-91 trusts its pointer: it may be to a timer that has fired and been freed, to one that the
  dispatch loop still holds, or to one whose insertion is still queued. `CancelSafeIff` and
  `SoundIffDisciplined` give the exact condition under which cancelling is safe, `FreedTimersCanBeUsed` runs
  that break it. That every timer is freed at most once holds under that condition (`EveryTimerOwnedOnce`).
- HttpContext.cc:58-71 loops forever on a missing or rejected request line unless an assert stops it, and a
  call from kGotAll never ends (`ReturnsIff`, `AbortsIff`). No call returns false.
- HttpResponse.cc:28-29 prints no line end between Content-Length and Connection, and
  HttpResponse.cc:15-17 no space between code and message (`KeepAliveMerges`, `StatusLineWellFormedIff`).
- LogFile.cc:11 never advances `n`. `IntactIffOneRetry` gives the exact condition under which lines survive.
- AsyncLogging.cc:94-97 erases buffers under overload, and there is no final swap after `stop`
  (`Conservation`, `NothingLostIff`, `AtWriterExit`).
- A task queued on the loop thread before `loop()` does not wake the loop, and a `quit()` before it is forgotten
  (`LostWakeupIff`, `QuitBeforeLoopIsForgotten`).
- EventLoop.cc:125 and EPoller.cc:32-36 re-register a descriptor that is closed a second time
  (`RegisteredIff`, `DisableAllParity`).

## Model

| member | source | states |
|---|---|---|
| `LogProtocol.NoAssertFails` | AsyncLogging.cc:68-126 | In every interleaving of producers and writer, each assert that the writer's next step meets holds: both spares present and empty and nothing left to write at the loop head, a non-empty batch after the swap, and enough buffers to hand back for every missing spare. |
| `LogProtocol.Conservation` | AsyncLogging.cc:34-101 | In every interleaving: written or erased buffers, then the rest of the batch, then erased-but-not-yet-forgotten buffers, then the queue, then the current buffer are together exactly the appended lines that fit a buffer, in lock order; the file is the written ones; and a buffer was erased if and only if it stood at position 2 or above in a batch of more than 25. |
| `LogProtocol.NothingLostIff` | AsyncLogging.cc:81-101 | File, unwritten batch, queue and current buffer are exactly the accepted lines if and only if every buffer at an erased place was empty. |
| `LogProtocol.NothingLostWithoutOverload` | AsyncLogging.cc:81-101 | If no swap takes more than 25 buffers, file, unwritten batch, queue and current buffer are exactly the accepted lines in lock order. |
| `LogProtocol.RoundWritesWhatItTook` | AsyncLogging.cc:68-125 | In any run, a whole round of the writer adds to the file, in order, everything that was queued or current when it took the lock, or the first two buffers of more than 25; it leaves the shared buffers empty and the writer at its loop head with both spares. |
| `LogProtocol.QueuedOnlyWhenFull` | AsyncLogging.cc:37-50 | In every run, between neighbours of the queue and the current buffer, and of the batch the writer took: an appended line did not fit behind the earlier buffer's contents, and it opens the later one unless no buffer could hold it. |
| `LogProtocol.AppendEffect` | AsyncLogging.cc:37-50 | In any run, a line that leaves the current buffer below 4000000 bytes goes there and nothing else changes; any other line queues exactly the current buffer and starts the next one, if a buffer can hold it. |
| `LogProtocol.AtWriterExit` | AsyncLogging.cc:68-127 | Once the writer has left its loop the log is stopped, and what is missing from written and erased buffers is exactly the queue and the current buffer: there is no final swap. |
| `LogProtocol.WriterStopsIff` | AsyncLogging.cc:27-83 | The log runs exactly until stop is called; at the loop head the writer leaves exactly if stop was called, and otherwise waits or swaps as the queue is empty or not. |
| `LogProtocol.FileIsOrderedSubsequence` | AsyncLogging.cc:94-101 | Overload included, the file is a subsequence of the appended lines: none torn, repeated or reordered. |
| `LogProtocol.HistoryIsTheAppends` | AsyncLogging.cc:34-36 | The history the theorems speak of is the list of append calls of the run, in lock order. |
| `LogProtocol.RunKeepsInv` | AsyncLogging.cc:34-126 | The invariant of every run: conservation, spares by writer position, a null next buffer only with a non-empty queue, and a current buffer strictly below its size. |
| `LogProtocol.NextKeepsInv` | AsyncLogging.cc:34-126 | Every step of a producer or of the writer keeps that invariant. |
| `Ownership.RotateOwns` | AsyncLogging.cc:41-48 | Queueing the current buffer and taking the next one, or a new one, keeps every buffer owned by exactly one place. |
| `Ownership.SwapOwns` | AsyncLogging.cc:81-89 | The swap keeps every buffer owned by exactly one place and neither creates nor drops one. |
| `Ownership.TrimOwns` | AsyncLogging.cc:94-97 | Erasing from position 2 on keeps unique ownership and releases exactly the erased buffers. |
| `Ownership.RecycleOwns` | AsyncLogging.cc:102-123 | Resizing, handing spares back and clearing keep unique ownership and release exactly the batch buffers that did not become spares. |
| `Ownership.PairwiseDistinct` | AsyncLogging.cc:41-48 | Uniquely owned buffers are pairwise different objects: current, next, queued, to-write and both spares never alias. |
| `AsyncLogs.RotateView` | AsyncLogging.cc:41-48 | On the heap of buffer objects the rotation is the protocol's rotation, whether the new buffer is the next one or a fresh allocation. |
| `AsyncLogs.SwapView` | AsyncLogging.cc:81-89 | On the heap the pointer swap is the protocol's swap step. |
| `AsyncLogs.EraseView` | AsyncLogging.cc:94-97 | On the heap the erase frees exactly the buffers from position 2 on and is the protocol's trim. |
| `AsyncLogs.HandBackOwns` | AsyncLogging.cc:102-123 | After the hand-back the heap holds exactly the owned buffers, so nothing leaks or dangles. |
| `AsyncLogs.HandBackView` | AsyncLogging.cc:102-123 | On the heap resetting the handed-back buffers and freeing the others is the protocol's hand-back. |
| `AsyncLogs.AppendToObject` | LogStream.h:25-32 | On a FixedBuffer object of the large size, append adds a line exactly when the protocol says it fits, whole and after the others. |
| `AsyncLogs.AsyncLogging.constructor` | AsyncLogging.cc:7-19 | The log and its writer, just before the loop, are in the protocol's initial state with four distinct empty buffers. |
| `AsyncLogs.AsyncLogging.Append` | AsyncLogging.cc:34-52 | A line that leaves the current object below 4000000 bytes is added to it and no pointer moves; otherwise exactly the current pointer is queued, the next object or a new one becomes current and gets the line if it can hold it. One protocol append step, unique ownership kept. |
| `AsyncLogs.AsyncLogging.AppendToNext` | AsyncLogging.cc:41-50 | The else branch to its end: exactly the current pointer is queued, the line goes to the next object or a new one. |
| `AsyncLogs.AsyncLogging.Rotate` | AsyncLogging.cc:41-48 | The else branch moves pointers only: the current one is queued, the next one or a new object takes its place, next is null. |
| `AsyncLogs.AsyncLogging.PutLine` | AsyncLogging.cc:37-38 | The line goes whole into the current buffer, or not at all, and into no other buffer. |
| `AsyncLogs.AsyncLogging.Stop` | AsyncLogging.cc:27-30 | Only the running flag changes. |
| `AsyncLogs.AsyncLogging.WriterEnter` | AsyncLogging.cc:68-126 | When stopped the writer leaves its loop and flushes; otherwise the head asserts hold, and it waits when nothing is queued and takes over the queue and the current buffer when something is. |
| `AsyncLogs.AsyncLogging.WriterWake` | AsyncLogging.cc:77-90 | However the wait ends, the writer takes over the queue and the current buffer, and the spares go where buffers are missing. |
| `AsyncLogs.AsyncLogging.Swap` | AsyncLogging.cc:81-89 | The pointer moves of the critical section are the protocol's swap. |
| `AsyncLogs.AsyncLogging.Trim` | AsyncLogging.cc:92-97 | The batch is non-empty; of more than 25 buffers exactly the first two stay, of fewer all of them, and no object outside the batch is freed. |
| `AsyncLogs.AsyncLogging.BeginWriting` | AsyncLogging.cc:98 | The write loop starts at the first buffer. |
| `AsyncLogs.AsyncLogging.Erase` | AsyncLogging.cc:94-97 | Frees exactly the buffers behind the first two. |
| `AsyncLogs.AsyncLogging.WriteOne` | AsyncLogging.cc:98-101 | One buffer's bytes go to the file as the short-write loop sends them, whatever fwrite does; whether all so far needed at most one retry is recorded, and while that holds the file is exactly the written lines. |
| `AsyncLogs.AsyncLogging.RecordWrite` | AsyncLogging.cc:98 | The write loop moves on to the next buffer. |
| `AsyncLogs.AsyncLogging.Recycle` | AsyncLogging.cc:102-125 | Spares are restored, the rest is freed, the file is flushed: one protocol step, both asserts proved. |
| `AsyncLogs.AsyncLogging.HandBack` | AsyncLogging.cc:102-123 | The missing spares come back emptied from the back of the two kept buffers. |
| `AsyncLogs.AsyncLogging.TakeSpares` | AsyncLogging.cc:102-123 | The pointers and the heap after the resize, the hand-backs and the clear. |
| `AsyncLogs.AsyncLogging.ForgetBatch` | AsyncLogging.cc:123 | The batch is over and the writer is back at the loop head. |
| `AsyncLogs.AsyncLogging.SwapPointers` | AsyncLogging.cc:81-89 | The batch is the queue and the current pointer; the first spare becomes current; the second becomes next exactly when next was null. |
| `AsyncLogs.AsyncLogging.Step` | AsyncLogging.cc:34-126 | Whatever the event, the object takes the protocol's step on it. |
| `AsyncLogs.AsyncLogging.Drive` | AsyncLogging.cc:34-126 | Any interleaving of calls and writer steps, with any fwrite results, leaves the object in the state that the protocol's run gives; as long as no buffer needed a second retry the file's bytes are that run's lines. |
| `LogFiles.IntactIffOneRetry` | LogFile.cc:7-22 | When the retry loop ends with nothing remaining it has sent as many bytes as the line has, but lines of that length are sure to arrive intact exactly when at most one retry was needed, because the offset n never advances. |
| `LogFiles.WholeWithOneRetry` | LogFile.cc:7-22 | With at most one retry the bytes sent are the line. |
| `LogFiles.GarbledByTwoRetries` | LogFile.cc:7-22 | For any longer schedule of short writes there is a line of that length that arrives changed. |
| `LogFiles.RetriedLength` | LogFile.cc:9-22 | The retries send at most what remains, and all of it exactly when the loop ends because nothing remains. |
| `LogFiles.NothingAfterZero` | LogFile.cc:12-20 | A retry that writes nothing ends the loop: later writes make no difference. |
| `LogFiles.RetriedTurn` | LogFile.cc:9-21 | One turn of the loop sends the bytes at the fixed offset n, as many as the write took, and goes on with that many fewer remaining. |
| `LogFiles.RetriedEnds` | LogFile.cc:9-20 | Nothing is sent once nothing remains or a write made no progress. |
| `LogFiles.LogFile.FileAppend` | LogFile.cc:5-23 | The loop over short writes appends exactly the bytes of the first write and its retries. |
| `LogFiles.LogFile.Append` | LogFile.cc:42-51 | The line is sent, and every flushEveryN-th call flushes and restarts the count. |
| `LogFiles.LogFile.Flush` | LogFile.cc:37-41 | Everything accepted so far is flushed; nothing is added. |
| `TimerSet.Insert` | TimerQueue.cc:79 | Exactly the new entry is added. |
| `TimerSet.InsertSorted` | TimerQueue.cc:79-82 | Insertion keeps the set ordered, and the new entry is first exactly when it is below all others. |
| `TimerSet.EraseSorted` | TimerQueue.cc:90 | Erasure keeps the set ordered and removes exactly that entry; the earliest deadline does not move forward. |
| `TimerSet.ExpiredExactly` | TimerQueue.cc:119-130 | The lower bound at (now + 1ns, null) cuts the set exactly between deadlines up to now and later ones. |
| `TimerProtocol.EveryTimerOwnedOnce` | TimerQueue.cc:75-130 | In every run whose cancellations are permitted (see SoundIffDisciplined) no freed object has been used; each entry is (deadline, pointer to a live uncancelled timer with that deadline); each live timer is in exactly one of: a queued insertion, the set, the unfinished part of the batch; and each timer ever created is live or has been freed exactly once. |
| `TimerProtocol.NextKeepsOwnership` | TimerQueue.cc:75-130 | Every permitted step keeps that ownership. |
| `TimerProtocol.NextKeepsTally` | TimerQueue.cc:77-112 | Every step keeps the tally: a timer is live at one address or freed once, never both. |
| `TimerProtocol.NoFault` | TimerQueue.cc:75-113 | A permitted step never uses a freed object. |
| `TimerProtocol.SoundIffDisciplined` | TimerQueue.cc:86-113 | For every run: no freed object is used and ownership holds at every moment if and only if each cancellation, when it happens, is of a live timer that is neither an unfinished batch member nor waiting to be inserted. |
| `TimerProtocol.CancelRemovesItsEntry` | TimerQueue.cc:86-93 | Cancelling removes the timer's own entry and no other. |
| `TimerProtocol.CancelSafeIff` | TimerQueue.cc:86-93 | For any pointer, freed ones included: what cancelTimer needs (an object to mark, read and free, and no holder left behind) is there, and the queue stays sound, if and only if the timer is live, not an unfinished batch member and not waiting to be inserted. |
| `TimerProtocol.SelfCancelFaults` | TimerQueue.cc:99-112 | A callback that cancels its own timer makes the next statement of the dispatch loop read a freed object. |
| `TimerProtocol.FreedTimersCanBeUsed` | TimerQueue.cc:86-113 | Runs from the start that use a freed object: a callback cancels its own timer; a caller cancels a timer that has fired; a caller cancels twice. |
| `TimerProtocol.NoTimerForgotten` | TimerQueue.cc:35-117 | With permitted cancellations: outside handleRead a non-empty set has a timerfd that is readable, or armed for no later than the earliest deadline or 1ms after the last arming; once that time has come it is readable. |
| `TimerProtocol.NextKeepsArmed` | TimerQueue.cc:79-116 | Every step keeps the arming invariant. |
| `TimerProtocol.FireTakesExactlyTheDue` | TimerQueue.cc:98-130 | With permitted cancellations: handleRead takes exactly the entries with deadline up to now, in order, and leaves exactly the others. |
| `TimerProtocol.EachFiredOncePerRound` | TimerQueue.cc:99-113 | With permitted cancellations: one handleRead runs each timer of its batch exactly once, in batch order. |
| `TimerProtocol.NextKeepsRound` | TimerQueue.cc:99-113 | Every step keeps that. |
| `TimerProtocol.NeverEarlyNeverDrifts` | TimerQueue.cc:75-110 | With permitted cancellations, in terms of the arguments of the addTimer calls: no callback starts before its deadline; a periodic timer's deadline after k finished firings is the one it was added with plus k intervals; any other timer keeps the one it was added with. |
| `TimerProtocol.TimersAreAsCreated` | TimerQueue.cc:75-85 | In every run each live timer has the interval, and as its first deadline the time, of the addTimer call with its number, and an insertion still to run carries that time. |
| `TimerProtocol.PeriodicComesBackIff` | TimerQueue.cc:105-112 | With permitted cancellations: when the dispatch loop is done with a timer it is back in the set, one interval later, if and only if its interval is positive; otherwise it is freed; no other timer changes. |
| `TimerProtocol.NextKeepsSchedule` | TimerQueue.cc:98-113 | Every step keeps every timer on its schedule. |
| `TimerProtocol.RunKeepsInv` | TimerQueue.cc:75-130 | All five invariants hold along every run whose cancellations are permitted. |
| `TimerProtocol.FiringsBounded` | Timer.h:48-51 | With permitted cancellations: by any time T a periodic timer added with deadline D and interval I has fired at most floor((T - D) / I) + 1 times, and never before D. |
| `TimerQueues.TimerQueue.TimerfdSet` | TimerQueue.cc:35-58 | The timerfd is armed for the deadline, or 1000000ns from now if that is later, and is not readable until then. |
| `TimerQueues.TimerQueue.AddTimer` | TimerQueue.cc:75-85 | A new object with the deadline and interval given. On the loop thread the set grows by exactly that deadline and object, and the timerfd is re-armed for it exactly when it is the earliest; from another thread its insertion is queued with that deadline and nothing else changes. |
| `TimerQueues.AddKeepsInv` | TimerQueue.cc:75-85 | addTimer, with or without its insertion run at once, keeps the invariants. |
| `TimerQueues.TimerQueue.RunInsert` | TimerQueue.cc:78-83 | The insertion closure, with the deadline it captured. |
| `TimerQueues.TimerQueue.CancelTimer` | TimerQueue.cc:86-93 | On any pointer: the queue is sound afterwards if and only if the timer was live, not an unfinished batch member and not waiting; a live object is freed, once, and exactly its entry leaves the set. |
| `TimerQueues.TimerQueue.RunCancel` | TimerQueue.cc:88-92 | The cancellation closure on any pointer; one to an object that is gone is a fault. |
| `TimerQueues.TimerQueue.GetExpired` | TimerQueue.cc:119-130 | The set is split at the lower bound and the front returned: exactly the entries due, leaving exactly the others. |
| `TimerQueues.TimerQueue.HandleRead` | TimerQueue.cc:94-118 | A whole round is a run of the protocol: fire, each entry's callback with whatever it adds, cancels or waits for, and the final re-arming; with permitted cancellations it ends and leaves the queue sound. |
| `TimerQueues.TimerQueue.DispatchOne` | TimerQueue.cc:99-113 | One turn of the dispatch loop is the two steps around its callback. |
| `TimerQueues.TimerQueue.FinishOne` | TimerQueue.cc:105-112 | After its callback a periodic timer goes back into the set with its next deadline and any other is freed; one that is gone is a fault. |
| `TimerQueues.TimerQueue.EndRound` | TimerQueue.cc:115-116 | The timerfd is re-armed for the earliest remaining deadline. |
| `TimerQueues.TimerQueue.constructor` | TimerQueue.cc:60-68 | An empty queue with a disarmed timerfd. |
| `TimerQueues.TimerQueue.NewTimer` | TimerQueue.cc:77-78 | A live, uncancelled timer with the deadline and interval given, whose insertion with that deadline is still to run. |
| `TimerQueues.TimerQueue.StartRound` | TimerQueue.cc:96-99 | The timerfd is read, the clock is looked at once and the due entries are taken. |
| `TimerQueues.TimerQueue.TakeDue` | TimerQueue.cc:96-99 | Timerfd, clock and getExpired, as the protocol's fire step. |
| `TimerQueues.TimerQueue.RunCallback` | TimerQueue.cc:101-104 | The callback of the batch member at hand is called; reading a member that is gone is a fault. |
| `TimerQueues.TimerQueue.DispatchAll` | TimerQueue.cc:99-113 | The dispatch loop handles each batch member once, in order, as one run of the protocol. |
| `TimerQueues.TimerQueue.Step` | TimerQueue.cc:75-130 | Whatever the event, the object takes the protocol's step on it. |
| `TimerQueues.TimerQueue.Drive` | TimerQueue.cc:75-130 | Any run of the object, whatever it cancels, is the protocol's run; with permitted cancellations it ends sound and, outside handleRead, with a readable or timely armed timerfd. |
| `TimerQueues.RoundKeepsInv` | TimerQueue.cc:94-118 | A round with permitted cancellations runs to its end and leaves the queue sound. |
| `TimerQueues.EntryKeepsInv` | TimerQueue.cc:99-113 | Nothing in a batch member's turn uses a freed object, whatever permitted things its callback does. |
| `ConnProtocol.OutputConserved` | TcpConnection.cc:93-148 | In every run bytes taken by the kernel followed by the output buffer are exactly the concatenation of accepted messages; the buffer is a tail of the last one; and write-complete callbacks queued, when that callback is set, equal the accepted messages fully delivered. |
| `ConnProtocol.OneBacklogThenSilence` | TcpConnection.cc:104-145 | At most one message is ever buffered; before it the kernel has every accepted byte; from it on no later send is accepted; and a drained backlog has left the connected state. |
| `ConnProtocol.GracefulHalfClose` | TcpConnection.cc:170-286 | While not disconnected the channel is writing exactly when the output buffer is non-empty; when SHUT_WR has been issued every accepted byte was handed over before, nothing is written after, and the state never moves back. |
| `ConnProtocol.HalfCloseIsIssued` | TcpConnection.cc:170-276 | In every run a connection that is disconnecting with nothing left to write has issued SHUT_WR, or the task that will, or a forced close, is still queued. |
| `ConnProtocol.SendContributesIff` | TcpConnection.cc:93-148 | A sendInLoop contributes its message exactly when connected, with no backlog, without a broken pipe, and not for an empty message that would block; otherwise it changes nothing. |
| `ConnProtocol.SendsContributeIff` | TcpConnection.cc:68-148 | In every state of a run, a send on the loop thread, and a queued one when its turn comes, contribute their message under exactly that condition. |
| `ConnProtocol.OffLoopSendsRunInOrder` | TcpConnection.cc:79-87 | In every run the messages of queued sends whose turn has come, then those still queued, are exactly the messages that other threads sent while the connection was connected, in order. |
| `ConnProtocol.OffLoopSendsAccepted` | TcpConnection.cc:79-147 | As long as the connection stays connected without a backlog, and no queued message meets a broken pipe or, empty, a socket that would block, each of those messages is accepted when its turn comes: accepted ones and queued ones are all of them, in order. |
| `ConnProtocol.TasksAdded` | TcpConnection.cc:79-210 | An event takes at most the first queued task and adds behind the others, a message only for a send from another thread. |
| `ConnProtocol.ShutdownOvertakesQueuedSend` | TcpConnection.cc:79-183 | A first send queued from another thread and followed by shutdown before it runs is dropped: the connection never writes a byte. |
| `ConnProtocol.ClosesAreClosings` | TcpConnection.cc:205-286 | handleClose runs once for each hang-up or read of zero bytes and for each queued forced close that finds the connection open. |
| `ConnProtocol.ForcedCloseTakesEffect` | TcpConnection.cc:195-211 | From any state that is not closed, forceClose leads to disconnecting, and to disconnected once the loop has run what was queued before it and one task more, whatever write returns. |
| `ConnProtocol.NextKeepsInv` | TcpConnection.cc:68-286 | Every call, queued task and handler keeps the connection invariant, whatever write returns. |
| `ConnProtocol.SendKeepsInv` | TcpConnection.cc:93-148 | sendInLoop keeps it. |
| `ConnProtocol.DrainKeepsInv` | TcpConnection.cc:247-280 | handleWrite keeps it, the assignment in its last condition included. |
| `ConnProtocol.HistoryGrows` | TcpConnection.cc:68-286 | Along every run histories only grow, nothing is accepted after a backlog or outside the connected state, and nothing is written after SHUT_WR. |
| `ConnEffects.NextHasItsEffect` | TcpConnection.cc:68-286 | What each call, queued task and handler does to state, writability, output buffer, task queue, socket and SHUT_WR, stated on those alone. |
| `ConnEffects.DrainHasItsEffect` | TcpConnection.cc:247-280 | handleWrite: the socket takes a prefix of the output buffer; when that empties it, writability goes, the callback is queued, the state is disconnecting and SHUT_WR is issued. |
| `ConnEffects.SendHasItsEffect` | TcpConnection.cc:93-148 | sendInLoop: connected and without a backlog, the socket takes a prefix and exactly the rest is buffered with writability on and the high-water callback queued at its mark; otherwise nothing happens. |
| `TcpConnections.TcpConnection.constructor` | TcpConnection.cc:56-61 | After connectEstablished the descriptor is registered for reading and the run is at its start. |
| `TcpConnections.TcpConnection.SendMessage` | TcpConnection.cc:68-88 | On the loop thread the effect of sendInLoop; from another thread, if connected, the message joins the end of the task queue and nothing else changes; if not connected, nothing changes. |
| `TcpConnections.TcpConnection.SendInLoop` | TcpConnection.cc:93-148 | Connected and without a backlog, the socket takes a prefix of the message and exactly the rest is buffered; otherwise nothing changes. The invariant is kept. |
| `TcpConnections.TcpConnection.WriteOrKeep` | TcpConnection.cc:104-146 | What the kernel takes is a prefix of the message and exactly the rest is buffered, with writability requested and the high-water callback queued when its mark is reached. |
| `TcpConnections.TcpConnection.KeepRest` | TcpConnection.cc:129-145 | The buffering branch. |
| `TcpConnections.TcpConnection.Shutdown` | TcpConnection.cc:170-184 | Only a connected connection reacts: it is disconnecting, and SHUT_WR is issued at once, if not writing, or its task queued. |
| `TcpConnections.TcpConnection.ShutdownInLoop` | TcpConnection.cc:185-194 | SHUT_WR exactly when not disconnected and not writing. |
| `TcpConnections.TcpConnection.ForceClose` | TcpConnection.cc:195-204 | Unless disconnected: disconnecting, with the forced close queued behind what is there. |
| `TcpConnections.TcpConnection.HandleClose` | TcpConnection.cc:281-286 | handleClose as one protocol step: disconnected, no interest left on the channel, whatever was buffered never sent. |
| `TcpConnections.TcpConnection.HandleWrite` | TcpConnection.cc:247-280 | The socket takes a prefix of the output buffer, whatever write returns; an emptied buffer ends writability, queues the callback and issues SHUT_WR. |
| `TcpConnections.TcpConnection.WriteOut` | TcpConnection.cc:254-279 | The kernel takes a prefix of the output buffer, which is retrieved; nothing else is lost. |
| `TcpConnections.TcpConnection.Drained` | TcpConnection.cc:264-277 | With nothing left: writability is dropped, the callback queued, the state assigned kDisconnecting and SHUT_WR issued. |
| `TcpConnections.TcpConnection.RunQueued` | TcpConnection.cc:79-210 | The oldest queued task leaves the queue and has its effect: a message is sent, SHUT_WR issued, or the connection closed. |
| `TcpConnections.TcpConnection.RunTask` | TcpConnection.cc:81-209 | What each kind of queued task does. |
| `TcpConnections.TcpConnection.Perform` | TcpConnection.cc:68-286 | Whatever the event, the object takes the protocol's step on it. |
| `TcpConnections.TcpConnection.Drive` | TcpConnection.cc:68-286 | After any run of the object the bytes that the socket took, then the output buffer, are the accepted messages; once SHUT_WR was issued the socket has them all; and the descriptor is registered with the kernel if and only if the number of closes is even. |
| `TcpConnections.TcpConnection.RegisteredIff` | TcpConnection.cc:281-286 | The descriptor is registered exactly after an even number of closes: a second one re-registers it. |
| `ParserModel.AcceptsExactly` | HttpContext.cc:3-51 | processRequestLine accepts exactly the lines method SP target SP HTTP/1.0 or HTTP/1.1 with one of five methods and a target without spaces (section 3.1.1 of RFC 7230), from any request. |
| `ParserModel.LineParts` | HttpContext.cc:9-45 | What an accepted line leaves in the request. |
| `ParserModel.TargetIsCut` | HttpContext.cc:16-26 | The target is cut at its first question mark; without one it is the path and the query stays what it was. |
| `ParserModel.ReturnsIff` | HttpContext.cc:54-104 | A call comes back if and only if: from kExpectRequestLine, the bytes hold a CRLF and the line before the first one is in the grammar; from kExpectHeaders and kExpectBody, always; from kGotAll, never. |
| `ParserModel.NeverReturns` | HttpContext.cc:55-71 | Without an acceptable line, and from kGotAll, no number of turns changes the state or consumes a byte. |
| `ParserModel.AbortsIff` | HttpRequest.cc:10-40 | On a new request the assert of setMethod stops the process exactly when a complete line is rejected after its method was recognised. |
| `ParserModel.ReturnMeansTrue` | HttpContext.cc:103 | Every call that returns returns true, in the one state that the header phase determines. |
| `ParserModel.HeadersReturn` | HttpContext.cc:73-101 | From the header phase the loop ends after at most one turn per readable byte and two more, where HeaderPhase says. |
| `ParserModel.CallReturns` | HttpContext.cc:54-103 | The loop of a call that can return reaches the state AfterCall. |
| `ParserModel.HeaderLineStep` | HttpContext.cc:75-88 | One header line, as the loop and as the header phase see it. |
| `ParserModel.LastLineStep` | HttpContext.cc:83-101 | The first line without a colon, empty or not, ends the headers and what is left becomes the body. |
| `ParserModel.HeaderTurn` | HttpContext.cc:73-88 | A turn in the header phase does not change where the call will end. |
| `ParserModel.ChunksDoNotMatter` | HttpContext.cc:58-101 | With a request line already accepted, any cutting of the following bytes into calls, between CR and LF or inside a header too, as long as the header section ends only in the last piece, gives the request, state and buffer of one call on all the bytes. |
| `ParserModel.ScanSplit` | Buffer.h:58-62 | Scanning header lines can stop at any byte and resume. |
| `ParserModel.HeaderPhaseSplit` | HttpContext.cc:73-101 | The header phase can stop anywhere and resume; once it has ended more bytes would only lengthen the body. |
| `ParserModel.LastDuplicateWins` | HttpRequest.cc:90 | Of fields with the same name the last one's value stays. |
| `ParserModel.FieldLine` | HttpRequest.cc:77-91 | A printed field comes back as that name and value. |
| `ParserModel.FieldsRoundTrip` | HttpContext.cc:73-101 | Printed fields, a blank line and a body come back as exactly those headers and that body (section 3.2 of RFC 7230). |
| `ParserModel.RequestRoundTrip` | HttpContext.cc:3-104 | Parsing a printed request gives its method, path, query, version, headers and body, empties the buffer and reaches kGotAll. |
| `Contexts.HttpContext.ProcessRequestLine` | HttpContext.cc:3-51 | The method's effect on the request and its result are those of RequestLine. |
| `Contexts.HttpContext.SetTarget` | HttpContext.cc:17-26 | Path up to the question mark, query from it on; without one the old query stays. |
| `Contexts.HttpContext.SetVersion` | HttpContext.cc:28-45 | Eight bytes, HTTP/1. and a final 1 or 0. |
| `Contexts.HttpContext.ParseRequest` | HttpContext.cc:52-104 | The loop over the real buffer, on exactly the inputs for which it returns, ends in AfterCall and returns true. |
| `Contexts.HttpContext.TurnHeader` | HttpContext.cc:73-94 | One turn in the header phase on the real buffer. |
| `Contexts.HttpContext.TurnRequestLine` | HttpContext.cc:58-70 | One turn at the request line on the real buffer. |
| `Contexts.HttpContext.TakeLine` | HttpContext.cc:63-69 | An accepted line is consumed with its CRLF and the header phase begins. |
| `Contexts.HttpContext.constructor` | HttpContext.h:25-28 | At the request line, with a new request. |
| `Contexts.HttpContext.Reset` | HttpContext.h:32-37 | The parser starts over with a new request. |
| `Requests.MethodRoundTrip` | HttpRequest.cc:13-68 | Five tokens name the methods, one to one, and nothing else is accepted. |
| `Requests.FieldValueExact` | HttpRequest.cc:80-89 | Blank space around a trimmed value goes, and nothing else. |
| `Requests.TrimBothEnds` | HttpRequest.cc:80-89 | The two trimming loops. |
| `Requests.SpaceCharacters` | HttpRequest.cc:80-89 | The six characters that are trimmed. |
| `Requests.HttpRequest.SetMethod` | HttpRequest.cc:10-40 | The method named by the token, and whether there is one; the assert is the precondition. |
| `Requests.HttpRequest.AddHeader` | HttpRequest.cc:77-91 | The field before the colon maps to the trimmed rest of the line. |
| `Requests.HttpRequest.constructor` | HttpRequest.cc:5-9 | No method, no version, nothing else. |
| `Requests.HttpRequest.Swap` | HttpRequest.cc:102-111 | Two requests exchange all seven parts. |
| `ResponseModel.HeaderSectionRoundTrip` | HttpResponse.cc:20-39 | The header phase reads appendToBuffer's output after the status line as one mode field overridden by the headers, with exactly the body, in whatever order the map is walked. |
| `ResponseModel.ClosingHeaders` | HttpResponse.cc:20-23 | With closeConnection set the headers read back are Connection: close overridden by the response's own, and the body is exact. |
| `ResponseModel.KeepAliveMerges` | HttpResponse.cc:24-30 | Otherwise the missing line end makes one Content-Length field whose value runs on into Connection: Keep-Alive: it is not a number, and no Connection field arrives unless the response adds one. |
| `ResponseModel.StatusLineSplitsOff` | HttpResponse.cc:14-18 | A reader that cuts at the first CRLF gets the status line and the header section apart, for a message without CRLF. |
| `ResponseModel.StatusLineWellFormedIff` | HttpResponse.cc:14-18 | For a three-digit code the status line has the form of section 3.1.2 of RFC 7230 exactly when the message itself starts with the space. |
| `ResponseModel.StatusTextFits` | HttpResponse.cc:14-15 | The 32-byte buffer never truncates the status text. |
| `ResponseModel.StatusReadsBack` | HttpResponse.cc:14-18 | A reader that takes the digits after "HTTP/1.1 " and decodes them gets the status code, 0 or any three digits, and what follows up to the line end is exactly the message. |
| `ResponseModel.ListingMerges` | HttpResponse.cc:31-37 | Printing a map in any order and reading it back merges it. |
| `Responses.HttpResponse.AppendToBuffer` | HttpResponse.cc:12-40 | The output buffer grows by exactly the printed response, every header once; a reader of the added bytes gets the status code and the message back. |
| `Responses.HttpResponse.AppendHeaders` | HttpResponse.cc:31-37 | The loop over the map prints each entry exactly once. |
| `Responses.HttpResponse.AppendMode` | HttpResponse.cc:20-30 | The lines that depend on closeConnection, the snprintf truncation included. |
| `Responses.HttpResponse.AppendStatus` | HttpResponse.cc:14-18 | The status text, the message and the line end are what is added. |
| `Responses.HttpResponse.AppendFields` | HttpResponse.cc:20-37 | The mode lines and every header. |
| `Responses.HttpResponse.AppendLine` | HttpResponse.cc:33-36 | One header line. |
| `Responses.HttpResponse.AppendBody` | HttpResponse.cc:38-39 | The blank line and the body. |
| `Responses.HttpResponse.SetContentType` | HttpResponse.cc:8-11 | A Content-Type header. |
| `Responses.HttpResponse.constructor` | HttpResponse.h:27-32 | Unknown status, no headers, no body. |
| `Responses.HttpResponse.AddHeader` | HttpResponse.cc:4-7 | The key maps to the value. |
| `LoopProtocol.ExactlyOnceInOrder` | EventLoop.cc:92-144 | In every interleaving executed tasks, the rest of the batch and the queue are together the tasks that the run's events push, in lock order, so each runs once and in push order. |
| `LoopProtocol.HistoryIsThePushes` | EventLoop.cc:92-109 | The push history is what the events of the run push. |
| `LoopProtocol.EarlierPushRunsFirst` | EventLoop.cc:131-144 | When a task runs, all tasks pushed before it have run, so a queued cancellation never meets an insertion queued before it by the same thread. |
| `LoopProtocol.NoLostWakeup` | EventLoop.cc:50-118 | When the loop is in poll with tasks queued, the eventfd is positive or another thread is between its push and its wakeup, unless the loop thread queued before loop(). |
| `LoopProtocol.StrandedIff` | EventLoop.cc:92-109 | That exception, exactly: before the first round nothing is on its way to wake the loop if and only if no other thread has pushed or quit. |
| `LoopProtocol.LostWakeupIff` | EventLoop.cc:50-118 | The loop is in poll with tasks queued and nothing coming to wake it if and only if nothing has been swapped yet, something was pushed and no other thread has pushed or quit. |
| `LoopProtocol.EarlyPushCanStrand` | EventLoop.cc:98-108 | A run in which a task queued before loop() sits in the queue with the loop in poll and no wakeup coming. |
| `LoopProtocol.NextRoundDrains` | EventLoop.cc:131-144 | All that was queued at any moment has run, in order, by the end of the next round that starts after it. |
| `LoopProtocol.QuitBeforeLoopIsForgotten` | EventLoop.cc:50-54 | However often quit() was called before loop(), by whatever thread, loop() clears the flag and changes nothing else; the wakeups those calls owe or have made remain. |
| `LoopProtocol.QuitIff` | EventLoop.cc:50-69 | After loop() has started, the flag is set exactly when some event since is a quit() that could happen, by another thread or on the loop thread. |
| `LoopProtocol.RoundIsLastIff` | EventLoop.cc:54-69 | The round that ends leaves loop() exactly when quit() has been called since it started, and otherwise goes back to poll. |
| `LoopProtocol.ContinueKeepsInv` | EventLoop.cc:50-153 | The loop's invariant holds along every interleaving. |
| `EventLoops.EventLoop.QueueInLoop` | EventLoop.cc:92-109 | The push, and the wakeup exactly when the caller is another thread or tasks are running. |
| `EventLoops.EventLoop.HandleRead` | EventLoop.cc:145-153 | The counter is reset. |
| `EventLoops.EventLoop.DoPendingTasks` | EventLoop.cc:131-144 | Exactly the tasks swapped out run, in order, whatever they and other threads push meanwhile, as one run of the protocol. |
| `EventLoops.EventLoop.TakeTasks` | EventLoop.cc:133-138 | The queue is swapped out whole. |
| `EventLoops.EventLoop.FinishTasks` | EventLoop.cc:143 | The flag is cleared; the loop goes on exactly when it was not told to quit. |
| `EventLoops.EventLoop.RunBatch` | EventLoop.cc:139-142 | The loop over the swapped-out tasks calls each once, in order, as one run of the protocol. |
| `EventLoops.EventLoop.constructor` | EventLoop.cc:27-45 | Nothing queued, nothing counted, not started. |
| `EventLoops.EventLoop.WriteWakeup` | EventLoop.cc:110-118 | One is added to the eventfd unless it is at its maximum. |
| `EventLoops.EventLoop.RunTurn` | EventLoop.cc:139-142 | One task is called, and what goes on meanwhile does not disturb the batch. |
| `EventLoops.EventLoop.Perform` | EventLoop.cc:64-118 | One push, quit or wakeup by another thread or by the code the loop thread is running: a push adds its task, a quit sets the flag, another thread's push or quit owes one wakeup and a wakeup pays it. |
| `EventLoops.EventLoop.RunOnce` | EventLoop.cc:54-61 | One pass is a run of the protocol, of events that the pass's script names, runs at least everything that was queued when poll returned, and is the last one exactly when quit() was called before or during it. |
| `EventLoops.EventLoop.HandleActive` | EventLoop.cc:56-59 | Poll returns and the channels are handled. |
| `EventLoops.EventLoop.BeginLoop` | EventLoop.cc:53 | The quit flag is cleared. |
| `EventLoops.EventLoop.Loop` | EventLoop.cc:50-63 | The whole loop is a run of the protocol, so its theorems hold of the object; it makes a further pass exactly when no event of the passes so far is a quit(), and one pass is enough for everything queued before it. |
| `Buffers.Buffer.MakeSpace` | Buffer.h:292-306 | Growing or sliding, the readable bytes stay the same and enough room is made; the assert of the sliding path holds. |
| `Buffers.Buffer.constructor` | Buffer.h:29-37 | Empty, with the prepend area and the asked-for room. |
| `Buffers.Buffer.MoveDown` | Buffer.h:299-301 | The overlapping forward copy moves every byte intact. |
| `Buffers.Buffer.Append` | Buffer.h:141-169 | The bytes go to the end of the contents; the capacity stays at most the larger of 8 plus the initial size and twice the peak readable size plus 7. |
| `Buffers.Buffer.HasStored` | Buffer.h:144-169 | Copying into the tail and moving the writer index appends exactly those bytes. |
| `Buffers.Buffer.Prepend` | Buffer.h:272-278 | The bytes go in front of the contents; the assert is the precondition. |
| `Buffers.Buffer.Retrieve` | Buffer.h:86-93 | The first bytes of the contents go. |
| `Buffers.Buffer.RetrieveAsString` | Buffer.h:123-129 | Result and remaining contents are the old contents. |
| `Buffers.Buffer.RetrieveAll` | Buffer.h:114-118 | Empty, with the prepend area restored. |
| `Buffers.Buffer.AppendInt` | Buffer.h:171-190 | The big-endian bytes of the integer go to the end. |
| `Buffers.Buffer.PrependInt` | Buffer.h:251-270 | They go in front. |
| `Buffers.Buffer.ReadInt` | Buffer.h:192-249 | Exactly the encoding of the result leaves the front. |
| `Buffers.Buffer.ReadFd` | Buffer.cc:24-47 | What the kernel delivered, over the tail and the overflow area, is appended whole; an error changes nothing. |
| `Buffers.Buffer.ReceiveSpilled` | Buffer.cc:42-45 | The two parts join without loss when more arrived than the tail holds. |
| `Buffers.Buffer.WriteFd` | Buffer.cc:48-56 | The kernel takes a prefix of the contents and the buffer is unchanged. |
| `Buffers.Drive` | Buffer.h:86-306 | Any sequence of appends, prepends, integer appends, prepends and reads, reads from a descriptor that fill and spill, failed reads, partial and full retrievals leaves the buffer with the contents of a plain byte queue after the same operations, less those whose assert does not hold, and has taken the same bytes; only prepends, oversized reads and takes can be refused, and takes exactly when too little is there. |
| `Buffers.FirstInFirstOut` | Buffer.h:86-249 | As long as nothing is put in front, what came out, then what is left, is what was there, then what went in. |
| `Buffers.Perform` | Buffer.h:86-306 | One operation, refused exactly when its assert does not hold or the kernel offers more than it was given room for. |
| `Buffers.TakeOff` | Buffer.h:86-129 | A retrieval takes the first bytes of the queue. |
| `Buffers.PutOn` | Buffer.h:251-278 | A prepend puts bytes in front. |
| `Buffers.PutBack` | Buffer.h:141-190 | An append or a read from a descriptor puts bytes at the end; a failed read changes nothing. |
| `Buffers.ReadBack` | Buffer.h:171-249 | Integers at the front of the buffer are read in order, and what follows them stays. |
| `Buffers.AppendAll` | Buffer.h:171-190 | Integers of any mix of widths, appended one after the other. |
| `Buffers.PrependAll` | Buffer.h:251-278 | Integers prepended one after the other, last one first, within the prepend area. |
| `Buffers.IntegersRoundTrip` | Buffer.h:171-278 | Integers of any mix of widths, prepended and appended to an empty buffer, are all read back unchanged, front to back. |
| `Buffers.ReadOne` | Buffer.h:192-249 | Reading undoes appending. |
| `Bytes.IntegerRoundTrip` | Buffer.h:171-249 | Big-endian two's complement encoding and decoding are inverse, both ways. |
| `Bytes.IntegerByte` | Buffer.h:171-249 | Each byte of an encoded integer is the one of that weight, most significant first, in two's complement. |
| `Bytes.FindCRLF` | Buffer.h:58-62 | The first CRLF, or none when there is none. |
| `Bytes.FindCRLFStable` | Buffer.h:58-62 | A CRLF already found stays the first when more bytes arrive. |
| `Bytes.FindCRLFAfterLine` | Buffer.h:58-62 | The first CRLF after a line without one is the one that ends it. |
| `Bytes.Find` | HttpContext.cc:7 | The first position of the byte, or the end. |
| `Numerals.NumeralIsCanonical` | LogStream.cc:15-34 | What convert writes is a decimal numeral without leading zeros and the only one with that value. |
| `Numerals.NumeralMeansItsValue` | LogStream.cc:15-34 | It decodes to the value and has a minus sign exactly for negative values. |
| `Numerals.NumeralLength` | LogStream.cc:39-47 | Twenty characters suffice for every 64-bit value, signed or unsigned. |
| `Numerals.NumeralLengthTight` | LogStream.cc:39-47 | The smallest signed and the largest unsigned value need all twenty. |
| `Numerals.DigitTable` | LogStream.cc:11-24 | The table indexed with a remainder of either sign gives the digit of its magnitude. |
| `Numerals.TruncOnMagnitudes` | LogStream.cc:22-23 | Truncating division and remainder act on magnitudes, for the minimum value too. |
| `Numerals.Convert` | LogStream.cc:16-34 | Exactly the numeral and a terminator are written, in at most 21 bytes, and no other byte is touched. |
| `Numerals.EmitDigits` | LogStream.cc:21-25 | The do-while writes the digits, least significant first. |
| `Numerals.EmitDigit` | LogStream.cc:22-24 | One turn of the do-while. |
| `Numerals.TakeDigit` | LogStream.cc:22-24 | Remainder, quotient and table give the last digit and the rest, for a value of either sign. |
| `Numerals.EmitSigned` | LogStream.cc:21-30 | Digits, then the sign of a negative value. |
| `Numerals.Flip` | LogStream.cc:32 | Reversing what the loop wrote gives the numeral. |
| `Numerals.ReverseInPlace` | LogStream.cc:32 | The range is reversed in place and nothing else changes. |
| `LogBuffers.FixedBuffer.Append` | LogStream.h:25-32 | All of the bytes, when strictly more room is left than the cast length, or none; the cursor stays strictly inside. The precondition is that the copy stays inside (GuardProtectsIff). |
| `LogBuffers.GuardProtectsIff` | LogStream.h:25-32 | The guard keeps the copy inside the buffer if and only if the length fits an int or its cast is at least the room left. |
| `LogBuffers.FixedBuffer.constructor` | LogStream.h:21-23 | Empty. |
| `LogBuffers.FixedBuffer.Add` | LogStream.h:49-52 | Bytes already in place join the contents. |
| `LogBuffers.FixedBuffer.Reset` | LogStream.h:53-56 | Empty. |
| `LogBuffers.LogStream.FormatInteger` | LogStream.cc:39-47 | The whole numeral, or nothing when fewer than 32 bytes are left; the stream stays below 4000 bytes. |
| `LogBuffers.LogStream.AppendText` | LogStream.h:131-135 | The whole text or nothing; the stream stays below 4000 bytes. |
| `Interest.EveryOperationIsLegal` | EPoller.cc:29-60 | From construction on, over any sequence of calls, every epoll operation chosen is legal, a channel is registered exactly when it says so and with exactly its mask, and other descriptors are untouched. |
| `Interest.CallKeepsAgreement` | EPoller.cc:29-60 | One call keeps that. |
| `Interest.MaskBits` | Channel.h:45-54 | Each call sets or clears its own interest and leaves the other alone. |
| `Masks.EventBits` | Channel.cc:8-10 | The masks are made of the bits of EPOLLIN, EPOLLPRI and EPOLLOUT. |
| `Interest.DisableAllParity` | EPoller.cc:32-46 | n calls of disableAll leave a registered descriptor registered exactly when n is even, with an empty mask. |
| `Interest.DisableAllFlips` | EPoller.cc:32-46 | Each disableAll flips whether the descriptor is registered. |
| `Channels.Channel.constructor` | Channel.h:45-59 | A new channel is not registered and wants nothing. |
| `Channels.Channel.Update` | EPoller.cc:29-60 | The operation chosen is the legal one and the flag follows it. |
| `Channels.EPoller.EpollCtl` | EPoller.cc:54 | A legal operation changes the kernel's set as asked. |
| `Channels.Channel.EnableReading` | Channel.h:45 | Reading on, writing as it was, kernel in agreement. |
| `Channels.Channel.DisableReading` | Channel.h:46 | Reading off, writing as it was, kernel in agreement. |
| `Channels.Channel.EnableWriting` | Channel.h:47 | Writing on, reading as it was, kernel in agreement. |
| `Channels.Channel.DisableWriting` | Channel.h:48 | Writing off, reading as it was, kernel in agreement. |
| `Channels.Channel.DisableAll` | Channel.h:49 | Both off, kernel in agreement. |

## Left out

- TimerProtocol.EveryTimerOwnedOnce: that a timer is freed at most once is stated for runs in which no freed, waiting or batch-held timer is cancelled; `SoundIffDisciplined` shows that the condition cannot be weakened. The other theorems about timer runs have the same hypothesis.
- TimerQueues.TimerQueue.HandleRead: the round with forbidden cancellations inside its callbacks is covered step by step by `Drive`, not by this method.
- TimerProtocol.CancelSafeIff: queued cancellation closures have no place of their own in the state; a cancellation is the moment its closure runs, and `EarlierPushRunsFirst` orders it after insertions queued before it.
- Contexts.HttpContext.ParseRequest: has no behaviour to state for inputs on which the call never returns, so they are excluded by its precondition; `NeverReturns` and `AbortsIff` cover them.
- ParserModel.ChunksDoNotMatter: says nothing about a body that arrives in pieces, because the parser takes whatever is readable as the body and ignores Content-Length.
- TcpConnections.TcpConnection.HandleClose: the close callback and the destruction of the connection are not modelled.
- EventLoops.EventLoop.Loop: runs for a given number of passes, because the source's loop has no bound; poll, dispatch of ready channels and the contents of tasks are the events given for each pass.
- Responses.HttpResponse.AppendToBuffer: walks the headers in an arbitrary order; the key order of `std::map` is not modelled.
- Requests.HttpRequest.AddHeader: `isspace` is that of the C locale on bytes below 128; other bytes are not spaces.
- LogBuffers.FixedBuffer.Append: lengths for which the source's copy would leave the buffer are excluded by its precondition; `GuardProtectsIff` says which.
- Buffers.Buffer.ReadFd: a buffer whose tail is 65536 bytes or more offers no overflow area, as in the source; sizes are unbounded integers, so `size_t` overflow does not occur.
- The dangling pointer that `HttpRequest::methodString` returns; only the token it names is modelled.
- The assert at AsyncLogging.cc:60, which races with `stop`; restarting a stopped log; the destructor.
- `Buffer::swap`, `findEOL`, `retrieveUntil` and the start-offset variants of the searches, which would only add easy members.
- Floating-point and pointer output of LogStream, which rest on `snprintf`; log lines of 2^31 bytes and more.
- The input side of a connection beyond `Buffer::readFd`: the message callback, `stopRead`, `startRead`, `handleError`.
- `Channel::handleEvents`, the tie of a channel to its owner and the growth of the epoll event list.
- `HttpServer` and its 400 answer, which `ReturnMeansTrue` shows is never sent.
- `TcpServer`, `TcpServerSingle`, `TcpClient`, `Acceptor`, `Connector`, `EventLoopThread`, `CountDownLatch`, `InetAddress`: system-call wrappers and callback wiring.
- `ThreadPool`: its workers exit at once, since its running flag is never set.
- `any.h`, `Mime.h`, `Timestamp.h`, `Logger`: casts, file lookups and time formatting.
- Data races on plain flags below the level of the steps above.
