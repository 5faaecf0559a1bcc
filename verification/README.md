# Verification of the call centre and of the bundled code it leans on

This project models three parts of the repository in Dafny and proves properties of them.

* **The call centre.** HTTP sessions push calls into a bounded waiting queue, an operator thread
  pops them and hands them to free operators, and timers remove calls that wait too long or end
  conversations. `TimerQueue` is the queue as a value, with the completion handlers the io_context
  has queued but not yet run; `IncomingCallsQueue`, `TSQueue` and `Operators` are the classes,
  updated in place and proved against it; `CallSession.AddToQueue` is the session's side; `Engine`
  puts sessions, clock, handlers and operator thread together as a step system in which every
  critical section is one step, and the theorems in `EngineTheorems`, `EngineRuns` and
  `EngineDrain` hold of every state and every run of any interleaving. Undefined behaviour and uncaught exceptions are an explicit `fault`, at
  which a run ends; that they do not happen is proved, not assumed. Phone numbers, which are the
  queue's keys, have their own modules.
* **The asynchronous logging pipeline of spdlog.** The ring buffer, the blocking queue over it (as
  a class and as a step system with both condition variables, spurious wakeups and time-outs), the
  thread pool with its shutdown, and the rotating file sink over an abstract directory.
* **Algorithms of fmt.** 128-bit multiplication and division by multiplication, the removal of
  trailing zeros, the two paths of the format-string parser, and the ISO 8601 week of a date.

Where the code does less than its comments or names promise, the code is kept and the exact
condition is proved:

* A handler of a timer that had already expired when its call was popped is guarded by phone number
  only. It is harmless as long as no number is accepted again while an old successful handler for it
  is queued, and accepting one is exactly what makes a handler erase through a dead iterator
  (`TimerQueue.AcceptIsSafeIff`, `EngineTheorems.EarlyReuseFaultsIff`, with a run in
  `EngineTheorems.EarlyReuseExample`).
* The 64-bit `divide_by_10_to_kappa_plus_1` is the quotient by 1000 except for numbers that end in
  999 and are at least 2^71/152 (`WideArithmetic.DivideBy1000`, with an input in
  `WideArithmetic.DivideBy1000Fails`).
* The 64-bit `remove_trailing_zeros` truncates the quotient by 10^8 to 32 bits. It is right exactly
  when 10^8 does not divide n or the quotient is below 2^32, and does not return when the truncated
  quotient is zero (`TrailingZeros.RemoveTrailingZeros64`, with inputs in
  `TrailingZeros.WrongResultExample` and `TrailingZeros.LoopsForeverExample`).
* The ISO week functions are right for every date from year 1 on. Before that, 53rd weeks are
  misreported, because the division truncates (`IsoWeek.IsoWeekIff`, `IsoWeek.NegativeYearExample`).
* The pool's destructor needs a queue with room for a message: with capacity 0 it never joins its
  workers (`ThreadPool.NoRoomNoShutdown`).

## Model

| member | source | states |
|---|---|---|
| TimerQueue.EmptyValid | src/IncomingCallsQueue.cpp:7-17 | a new queue satisfies the invariant: free slots and map values partition the slots, keys are the waiting numbers, each waiting call has one live timeout |
| TimerQueue.PushValid | src/IncomingCallsQueue.cpp:34-69 | push keeps the invariant and never takes a slot from an empty free queue |
| TimerQueue.PushCancelsNothing | src/IncomingCallsQueue.cpp:56-63 | the slot that push re-arms is idle: no handler is aborted and every armed timer stays as it was |
| TimerQueue.PopValid | src/IncomingCallsQueue.cpp:71-88 | pop throws exactly on an empty list; otherwise map.at succeeds and the invariant is kept |
| TimerQueue.ExpireValid | src/IncomingCallsQueue.cpp:57-63 | the expiry of an armed timer keeps the invariant: its timeout is now a queued handler |
| TimerQueue.RunHandlerValid | src/IncomingCallsQueue.cpp:121-152 | running a queued handler keeps the invariant, and is undefined behaviour exactly for a handler that outlived its node while its number waits again |
| TimerQueue.HandlerEffect | src/IncomingCallsQueue.cpp:134-148 | a handler that is not stale removes exactly the node it was armed for, or nothing at all |
| TimerQueue.AcceptIsSafeIff | src/IncomingCallsQueue.cpp:134-136 | accepting a number creates a stale handler if and only if a successful handler for it is still queued |
| TimerQueue.PopKeepsNoneStale | src/IncomingCallsQueue.cpp:71-88 | pop makes no handler stale |
| TimerQueue.ExpireKeepsNoneStale | src/IncomingCallsQueue.cpp:57-63 | an expiry makes no handler stale |
| TimerQueue.RunHandlerKeepsNoneStale | src/IncomingCallsQueue.cpp:121-152 | running a handler faults on nothing and makes no other handler stale, when none was |
| IncomingCalls.IncomingCallsQueue.constructor | src/IncomingCallsQueue.cpp:10-16 | the loop fills timers and free slots: the new object is the empty queue |
| IncomingCalls.IncomingCallsQueue.Create | src/IncomingCallsQueue.cpp:7-17 | length_error exactly for a capacity outside 1..100000 |
| IncomingCalls.IncomingCallsQueue.Push | src/IncomingCallsQueue.cpp:34-69 | the four structures change in place as the queue value's push says, with the same status, and stay valid |
| IncomingCalls.IncomingCallsQueue.Enqueue | src/IncomingCallsQueue.cpp:47-63 | the accepting part of push: slot, list, map and timer together |
| IncomingCalls.IncomingCallsQueue.Pop | src/IncomingCallsQueue.cpp:71-88 | returns the oldest call and changes the structures as the queue value's pop says; out_of_range and no change when empty |
| IncomingCalls.IncomingCallsQueue.CancelTimer | src/IncomingCallsQueue.cpp:83 | a pending wait becomes an aborted handler; an idle timer is left alone |
| IncomingCalls.IncomingCallsQueue.OnCallReset | src/IncomingCallsQueue.cpp:121-152 | a handler that is not stale times out its call, with status and CDR record, or changes nothing; no other call object is touched |
| IncomingCalls.IncomingCallsQueue.TimeOut | src/IncomingCallsQueue.cpp:138-151 | the part behind the guard: map entry, node and slot go together, the call is completed and logged, no other call is touched |
| Calls.Call.constructor | src/Call.cpp:8-11 | a new call has status OK and no operator |
| Calls.Call.SetOperatorResponseData | src/Call.cpp:13-17 | records the operator and keeps the status |
| Calls.Call.SetCompleteData | src/Call.cpp:19-23 | records the status and keeps the operator |
| CallSession.AddToQueue | src/Session.cpp:112-139 | a duplicate or an overload is completed and logged with that status and leaves the queue alone; an accepted call is last in the list with a live timeout and is not logged |
| ThreadSafeQueue.TSQueue.PushBack | src/ThreadSafeQueue.h:35-41 | appends |
| ThreadSafeQueue.TSQueue.PopFront | src/ThreadSafeQueue.h:66-73 | removes and returns the first element; out_of_range exactly when empty |
| OperatorPool.Operators.constructor | src/Operators.cpp:8-17 | all operators are free, in order, with quiet timers |
| OperatorPool.Operators.Create | src/Operators.cpp:8-17 | fails exactly when the waiting queue cannot be built |
| OperatorPool.Operators.AddCall | src/Operators.cpp:43-67 | gives the oldest waiting call to the operator free the longest; an empty queue changes nothing |
| OperatorPool.Operators.OnEndCall | src/Operators.cpp:69-83 | frees the operator of the call at the back, completes and logs the call with OK; an aborted wait changes nothing |
| EngineTheorems.ReachableInv | src/IncomingCallsQueue.cpp:34-152 | every reachable state satisfies the invariant of queue, sessions, operators and log |
| EngineTheorems.Conservation | src/IncomingCallsQueue.cpp:34-88 | accepted calls are the disjoint union of waiting, held by the operator thread, in conversation, finishing, recorded OK and timed out; all other created calls are with their session or were refused, never both |
| EngineTheorems.SingleOutcome | src/IncomingCallsQueue.cpp:142-151 | no call has two CDR records, and the status of its record is OK, TIMEOUT or a refusal exactly as the call was popped, accepted but not popped, or not accepted |
| EngineRuns.RefusalsAreJustified | src/IncomingCallsQueue.cpp:36-45 | a record says OVERLOAD if and only if the push of its call found the queue full and the number not waiting, and ALREADY_IN_QUEUE if and only if it found the number waiting |
| EngineTheorems.QuiescentAllRecorded | src/Operators.cpp:69-83 | once nothing is in flight every created call has exactly one record |
| EngineDrain.StepDrains | src/Operators.cpp:19-83 | every step but an arrival brings a rank of the state down |
| EngineDrain.DrainBound | src/Operators.cpp:19-83 | a run without arrivals is at most as long as the rank |
| EngineDrain.SomethingToDo | src/IncomingCallsQueue.cpp:121-152 | while a call is in flight and nothing has failed, some step other than an arrival is possible |
| EngineDrain.AfterTheLastArrival | src/Session.cpp:112-139 | from every reachable state, once arrivals stop, boundedly many steps are left, and where they end every call ever created has exactly one record; without early reuse nothing fails on the way |
| EngineTheorems.FirstComeFirstServed | src/IncomingCallsQueue.cpp:77-78 | popped calls followed by waiting ones are the accepted ones without the timed-out ones, in order of acceptance |
| EngineTheorems.SlotsAndTimeouts | src/IncomingCallsQueue.cpp:36-54 | in every reachable state the slots are partitioned, waiting and free add up to the capacity, keys are the waiting numbers, and every waiting call has exactly one live timeout |
| EngineTheorems.AcceptNeverCancels | src/IncomingCallsQueue.cpp:56-63 | in every reachable state, arming the slot of an accepted call cancels no wait |
| EngineTheorems.OperatorAllocation | src/Operators.cpp:43-83 | free, just taken and talking operators partition 0..count_op-1, a conversation has its operator to itself, no conversation was aborted, and pop_front never finds the pool empty |
| EngineTheorems.AddCallArmsQuietTimer | src/Operators.cpp:56-62 | AddCall never re-arms a pending operator timer, so the error branch of OnEndCall is not reached |
| EngineRuns.LostRaceIsHarmless | src/Operators.cpp:19-54 | if other threads empty the queue after the operator thread has seen a call and before it pops, it returns to waiting with its operators in order, none given away, no conversation started, and every call it had seen waiting recorded as timed out |
| EngineRuns.LostRaceExample | src/Operators.cpp:19-54 | for every number a run in which the race is lost, with the pool as before and the timeout in the log |
| EngineRuns.AddCallIsThreeSteps | src/Operators.cpp:43-67 | AddCall without interruption is its three steps in the step system, with the effect the class method promises |
| EngineRuns.OnEndCallIsTwoSteps | src/Operators.cpp:69-83 | the same for OnEndCall and its two steps |
| EngineRuns.OutsideWorldIsFree | src/IncomingCallsQueue.cpp:56-63 | the runs include every arrival, every expiry of a pending timer and every order of the handlers |
| EngineTheorems.OnlyStaleHandlersFault | src/IncomingCallsQueue.cpp:121-152 | a reachable step fails if and only if it runs a stale handler |
| EngineTheorems.NoEarlyReuseNoFault | src/IncomingCallsQueue.cpp:134-148 | runs that never accept a number while an old successful handler for it is queued never fail |
| EngineTheorems.EarlyReuseFaultsIff | src/IncomingCallsQueue.cpp:134-148 | with no stale handler before a step, some handler can fail after it if and only if the step accepted a number early |
| EngineTheorems.EarlyReuseExample | src/IncomingCallsQueue.cpp:134-148 | for every number the nine steps, from the first call's arrival to its late handler, are a run that fails |
| EngineTheorems.LateHandlerHarmless | src/IncomingCallsQueue.cpp:134-148 | without stale handlers, a handler whose call was popped changes nothing and one whose call waits times out exactly that call |
| EngineSteps.StepKeeps | src/Operators.cpp:19-83 | every step of every thread keeps the invariant |
| UrlDecoding.UrlDecode | src/Session.cpp:184-193 | the search-and-replace loop ends and equals left-to-right replacement without overlaps |
| UrlDecoding.DecodedHasNone | src/Session.cpp:184-193 | no "%20" is left |
| UrlDecoding.DecodeIsIdempotent | src/Session.cpp:184-193 | decoding twice is decoding once |
| UrlDecoding.DecodeEncode | src/Session.cpp:184-193 | decoding undoes the encoding of spaces in any text without a literal "%20" |
| UrlDecoding.DecodeFirst | src/Session.cpp:184-193 | the first "%20" of a string becomes a space and what stands before it stays |
| PhoneNumber.CapturesAreUnique | src/Session.cpp:195-210 | however a matcher splits a subject, the four groups are the same |
| PhoneNumber.SplitIsCut | src/Session.cpp:195-210 | the groups are the subject's digits cut from the right into 4, 3, 3 and the country code |
| PhoneNumber.ScanIsMatch | src/Session.cpp:195-210 | a deterministic scanner accepts exactly what the pattern matches, with the same captures |
| PhonePattern.MatchesWithCountry | src/Session.cpp:200 | for any way of writing eleven digits in groups of one, three, three and four: the string matches if and only if it starts with a slash, white space and perhaps a plus, and the gaps are of the characters "-. (", "-. )" and "-. ", with white space at the end |
| PhonePattern.MatchesWithoutCountry | src/Session.cpp:200 | the same for ten digits, where the white space may run on into the first gap |
| PhonePattern.EveryMatchIsWritten | src/Session.cpp:200 | every string that matches is written in one of these two ways |
| PhonePattern.InternationalForm | src/Session.cpp:200 | "/+c (aaa) eee-llll" is accepted for all digits |
| PhonePattern.BracketsWithoutSpaces | src/Session.cpp:200 | "/c(aaa)eeellll" is accepted for all digits |
| PhoneNumber.PreparePhoneNumber | src/Session.cpp:168-181 | appends 7 for no country code or 8, else the code, then the other three groups |
| PhoneNumber.IsValidPhoneNumber | src/Session.cpp:195-210 | accepts exactly the decoded queries the pattern matches and appends their normal form; otherwise the output is untouched |
| PhoneNumber.CanonicalShape | src/Session.cpp:168-181 | a normal form is eleven digits and does not start with 8 |
| PhoneNumber.CanonicalIsFixed | src/Session.cpp:168-210 | a normal form dialled again is accepted and is its own normal form |
| PhoneNumber.SameNumberIff | src/Session.cpp:168-181 | two numbers share a normal form if and only if their ten national digits agree and their country codes do, none, 7 and 8 being one code |
| CircularQueue.CircularQ.constructor | libs/include/spdlog/details/circular_q.h:26-29 | an empty ring with one spare cell |
| CircularQueue.CircularQ.Disabled | libs/include/spdlog/details/circular_q.h:24 | a queue that holds nothing |
| CircularQueue.CircularQ.MoveFrom | libs/include/spdlog/details/circular_q.h:36-110 | the contents move over and the source is disabled |
| CircularQueue.CircularQ.PushBack | libs/include/spdlog/details/circular_q.h:44-54 | appends to the bounded sequence; when full the oldest item goes and the overrun counter counts it |
| CircularQueue.CircularQ.Front | libs/include/spdlog/details/circular_q.h:59-61 | the oldest item |
| CircularQueue.CircularQ.PopFront | libs/include/spdlog/details/circular_q.h:81 | removes the oldest item |
| CircularQueue.CircularQ.Size | libs/include/spdlog/details/circular_q.h:64-70 | the length of the contents |
| CircularQueue.CircularQ.At | libs/include/spdlog/details/circular_q.h:74-77 | the i-th item of the contents, around the end of the buffer |
| CircularQueue.CircularQ.IsEmpty | libs/include/spdlog/details/circular_q.h:83 | head equals tail exactly when there is nothing |
| CircularQueue.CircularQ.IsFull | libs/include/spdlog/details/circular_q.h:85-91 | one free cell left exactly when the contents reach the capacity; never in a disabled queue |
| CircularQueue.CircularQ.ResetOverrunCounter | libs/include/spdlog/details/circular_q.h:95 | the counter is zero and the contents stay |
| BlockingQueueClass.MpmcBlockingQueue.constructor | libs/include/spdlog/details/mpmc_blocking_q.h:26-27 | an empty queue of that capacity |
| BlockingQueueClass.MpmcBlockingQueue.Enqueue | libs/include/spdlog/details/mpmc_blocking_q.h:31-38 | appends once there is room; the ring buffer changes as the critical section of the step system does |
| BlockingQueueClass.MpmcBlockingQueue.EnqueueNowait | libs/include/spdlog/details/mpmc_blocking_q.h:41-47 | appends at once, dropping the oldest of a full queue and counting the overrun; the ring buffer changes as the critical section of the step system does |
| BlockingQueueClass.MpmcBlockingQueue.EnqueueIfHaveRoom | libs/include/spdlog/details/mpmc_blocking_q.h:49-64 | appends if there is room, else counts a discard; the ring buffer changes as the critical section of the step system does |
| BlockingQueueClass.MpmcBlockingQueue.DequeueFor | libs/include/spdlog/details/mpmc_blocking_q.h:68-79 | takes the oldest item, or nothing from an empty queue; the ring buffer changes as the critical section of the step system does |
| BlockingQueue.StepKeepsWakeups | libs/include/spdlog/details/mpmc_blocking_q.h:31-90 | every step keeps: while a consumer sleeps the stored items are covered by notifications and woken consumers, while a producer sleeps the free places are |
| BlockingQueue.NoSleeperCouldProceed | libs/include/spdlog/details/mpmc_blocking_q.h:31-90 | in every interleaving no wakeup is lost; when the queue has settled, consumers sleep only on an empty queue and producers only on a full one |
| BlockingQueue.StepKeepsFifo | libs/include/spdlog/details/mpmc_blocking_q.h:31-90 | every step keeps: removed items followed by stored ones are the written ones, with both counters exact |
| BlockingQueue.BoundedFifo | libs/include/spdlog/details/mpmc_blocking_q.h:31-90 | in every interleaving the queue is a FIFO within its bound, written = dequeued + stored + overrun, and rejections are counted or about to be |
| BlockingQueue.OverrunDropsOldest | libs/include/spdlog/details/mpmc_blocking_q.h:41-47 | a writer that does not wait drops exactly the oldest stored item, and only from a full queue; without any room it drops its own item |
| BlockingQueue.EnqueueEffect | libs/include/spdlog/details/mpmc_blocking_q.h:31-38 | a call of enqueue appends with room and sleeps without |
| BlockingQueue.NowaitEffect | libs/include/spdlog/details/mpmc_blocking_q.h:41-47 | a call of enqueue_nowait always writes; a full queue loses its oldest item |
| BlockingQueue.IfRoomEffect | libs/include/spdlog/details/mpmc_blocking_q.h:49-64 | a call of enqueue_if_have_room leaves a full queue as it is and rejects its item |
| BlockingQueue.DequeueEffect | libs/include/spdlog/details/mpmc_blocking_q.h:68-90 | a call of dequeue takes the oldest item, and on an empty queue sleeps; only the timed one can wake by itself |
| BlockingQueue.TimedDequeueGivesUp | libs/include/spdlog/details/mpmc_blocking_q.h:68-79 | a timed dequeue on an empty queue can end with everything as before |
| BlockingQueue.OnlyNowaitOverruns | libs/include/spdlog/details/mpmc_blocking_q.h:31-64 | runs without calls of enqueue_nowait overrun nothing: every item that leaves the queue was dequeued |
| BlockingQueue.OnlyIfRoomRejects | libs/include/spdlog/details/mpmc_blocking_q.h:31-64 | runs without calls of enqueue_if_have_room reject nothing |
| BlockingQueue.SchedulerIsFree | libs/include/spdlog/details/mpmc_blocking_q.h:31-90 | the runs include every call, every order of the mutex, every choice of a notified sleeper and spurious wakeups of every sleeper |
| ThreadPool.InitPoolInv | libs/include/spdlog/details/thread_pool-inl.h:16-33 | a new pool satisfies the invariant |
| ThreadPool.CreatePool | libs/include/spdlog/details/thread_pool-inl.h:21-25 | fails exactly for 0 threads and for more than 1000 |
| ThreadPool.ActionKeeps | libs/include/spdlog/details/thread_pool-inl.h:80-124 | every action of workers, posters and destructor keeps the invariant; in particular no terminate message is overrun or taken twice |
| ThreadPool.SomeoneIsAlive | libs/include/spdlog/details/thread_pool-inl.h:45-50 | while terminate message k is being posted at most k-1 workers have exited |
| ThreadPool.AllExited | libs/include/spdlog/details/thread_pool-inl.h:45-56 | when all workers have exited the queue is empty, every message was dequeued or overrun, and each worker took exactly one terminate message |
| ThreadPool.ShutdownNeverStuck | libs/include/spdlog/details/thread_pool-inl.h:45-56 | until the workers are joined some step other than a spurious wakeup is possible |
| ThreadPool.ShutdownBound | libs/include/spdlog/details/thread_pool-inl.h:45-56 | the number of shutdown steps is bounded by the state and the number of spurious wakeups |
| ThreadPool.ShutdownCompletes | libs/include/spdlog/details/thread_pool-inl.h:45-56 | from any run before it, the destructor of a pool with room joins all workers after boundedly many steps, with nothing lost |
| ThreadPool.NoRoomNoShutdown | libs/include/spdlog/details/thread_pool-inl.h:45-56 | with capacity 0 no run ever joins the workers |
| ThreadPool.ShutdownExample | libs/include/spdlog/details/thread_pool-inl.h:45-56 | the eight steps in which a pool with one worker shuts down |
| ThreadPool.PoolIsFree | libs/include/spdlog/details/thread_pool-inl.h:80-94 | workers may take messages, threads may post with every policy and the destructor may start whenever nothing in their own code holds them up |
| ThreadPool.PolicyOnFullQueue | libs/include/spdlog/details/thread_pool-inl.h:80-90 | on a full queue a post blocks, replaces the oldest message or is rejected, as its policy says |
| ThreadPool.BlockingLosesNothing | libs/include/spdlog/details/thread_pool-inl.h:80-90 | runs whose posts all block lose nothing: no overrun, no rejection, and when all workers have exited every message was dequeued |
| LogFileNames.SplitByExtension | libs/include/spdlog/details/file_helper-inl.h:130-148 | cuts exactly before the last dot of a name that has an extension, and nowhere in hidden files or after a dot at either end; the two parts are the name again |
| LogFileNames.CalcFilenameInjective | libs/include/spdlog/sinks/rotating_file_sink-inl.h:54-64 | different indices are different files |
| LogFileNames.NumberBeforeExtension | libs/include/spdlog/sinks/rotating_file_sink-inl.h:54-64 | the number goes between name and extension, or to the end of a name without extension |
| LogFileNames.ExtensionIsKept | libs/include/spdlog/sinks/rotating_file_sink-inl.h:54-64 | a numbered file keeps its extension |
| LogFileNames.FilenameExample | libs/include/spdlog/sinks/rotating_file_sink-inl.h:52-64 | "logs/mylog.txt" with 3 is "logs/mylog.3.txt" |
| LogFileNames.HiddenFileExample | libs/include/spdlog/details/file_helper-inl.h:130-148 | "logs/.hidden" has no extension |
| RotatingSink.RotationKeepsSuffix | libs/include/spdlog/sinks/rotating_file_sink-inl.h:73-131 | after any messages 1 to max_files+1 files hold a suffix of everything logged, all of it while there are fewer files, and a file exceeds max_size only through a single message |
| RotatingSink.NothingRotatesEarly | libs/include/spdlog/sinks/rotating_file_sink-inl.h:73-90 | after any messages each file but the newest is not empty and had no room for the first message of the next |
| RotatingSink.RotatingFileSink.constructor | libs/include/spdlog/sinks/rotating_file_sink-inl.h:44-45 | the base file is opened for appending and its size is known |
| RotatingSink.RotatingFileSink.Create | libs/include/spdlog/sinks/rotating_file_sink-inl.h:27-50 | fails exactly for max_size 0 or too many files; opens the base file and rotates once if asked to and it is not empty |
| RotatingSink.RotatingFileSink.Rotate | libs/include/spdlog/sinks/rotating_file_sink-inl.h:103-131 | in any directory every index moves up by one, the highest is replaced, the base file is new and no other file is touched |
| RotatingSink.RotatingFileSink.RotatedHolds | libs/include/spdlog/sinks/rotating_file_sink-inl.h:103-131 | on consecutively numbered files that is the list rotation |
| RotatingSink.RotatingFileSink.RenameFile | libs/include/spdlog/sinks/rotating_file_sink-inl.h:136-141 | the target gets the source's content and the source is gone |
| RotatingSink.RotatingFileSink.SinkIt | libs/include/spdlog/sinks/rotating_file_sink-inl.h:73-90 | appends the message, rotating first exactly when it would exceed max_size in a file that is not empty; the files on disk follow the list |
| RotatingSink.LogAll | libs/include/spdlog/sinks/rotating_file_sink-inl.h:27-131 | a sink that starts without log files and logs any messages leaves the files of the list model, so the directory holds a suffix of everything logged and no file was closed early |
| Words.RotrParts | libs/include/spdlog/fmt/bundled/format-inl.h:137-144 | rotation moves the low bits to the top and everything else down |
| WideArithmetic.Umul128 | libs/include/spdlog/fmt/bundled/format-inl.h:156-172 | the two words of the result are the full product, and no product and no sum on the way exceeds 64 bits |
| WideArithmetic.Umul128Upper64 | libs/include/spdlog/fmt/bundled/format-inl.h:178-187 | floor(x*y / 2^64) |
| WideArithmetic.AddLow | libs/include/spdlog/fmt/bundled/format.h:401-424 | addition modulo 2^128 with the carry found by comparison |
| WideArithmetic.Umul192Upper128 | libs/include/spdlog/fmt/bundled/format-inl.h:191-196 | floor(x*y / 2^64) for 128-bit y, without overflow |
| WideArithmetic.Umul96Upper64 | libs/include/spdlog/fmt/bundled/format-inl.h:200-202 | floor(x*y / 2^32) for 32-bit x |
| WideArithmetic.MagicDivision | libs/include/spdlog/fmt/bundled/format-inl.h:279-288 | multiplying by ceil(2^k/d) and dropping k bits divides by d if and only if the accumulated error stays below 2^k |
| WideArithmetic.DivideBy100 | libs/include/spdlog/fmt/bundled/format-inl.h:280-283 | floor(n/100) for every 32-bit n |
| WideArithmetic.DivideBy1000 | libs/include/spdlog/fmt/bundled/format-inl.h:285-288 | floor(n/1000) if and only if n does not end in 999 or 152*n < 2^71 |
| WideArithmetic.DivideBy1000Fails | libs/include/spdlog/fmt/bundled/format-inl.h:285-288 | 18446744073709550999 is divided wrongly |
| TrailingZeros.StrippedIsUnique | libs/include/spdlog/fmt/bundled/format-inl.h:1150-1223 | a number has only one form n*10^s with n not divisible by 10 |
| TrailingZeros.InverseTest | libs/include/spdlog/fmt/bundled/format-inl.h:1158-1164 | for any word size, the product with a modular inverse, rotated, is at most max/D if and only if D divides n, and is then the quotient |
| TrailingZeros.InversesOf25 | libs/include/spdlog/fmt/bundled/format-inl.h:1153-1207 | what mod_inv_5 * mod_inv_5 wraps to in 32 and in 64 bits |
| TrailingZeros.Test32By100 | libs/include/spdlog/fmt/bundled/format-inl.h:1153-1159 | the 32-bit test by 100 |
| TrailingZeros.Test32By10 | libs/include/spdlog/fmt/bundled/format-inl.h:1163-1164 | the 32-bit test by 10 |
| TrailingZeros.Test64By100 | libs/include/spdlog/fmt/bundled/format-inl.h:1206-1212 | the 64-bit test by 100 |
| TrailingZeros.Test64By10 | libs/include/spdlog/fmt/bundled/format-inl.h:1216-1217 | the 64-bit test by 10 |
| TrailingZeros.FractionTest | libs/include/spdlog/fmt/bundled/format-inl.h:1176-1181 | the fraction bits of n*m/2^90 are below m if and only if 10^8 divides n, and the quotient is then exact |
| TrailingZeros.FractionBits | libs/include/spdlog/fmt/bundled/format-inl.h:1181-1183 | the masks and shifts of the source read those bits |
| TrailingZeros.Strip32 | libs/include/spdlog/fmt/bundled/format-inl.h:1188-1200 | the 32-bit loop and its last test leave no zero and count what they removed |
| TrailingZeros.Strip64 | libs/include/spdlog/fmt/bundled/format-inl.h:1206-1222 | the same for 64 bits |
| TrailingZeros.ZeroIsNeverLeft | libs/include/spdlog/fmt/bundled/format-inl.h:1189-1194 | at zero the loop passes its test and stays at zero |
| TrailingZeros.RemoveTrailingZeros32 | libs/include/spdlog/fmt/bundled/format-inl.h:1151-1170 | for every n > 0 the result is the stripped form of n |
| TrailingZeros.RemoveTrailingZeros64 | libs/include/spdlog/fmt/bundled/format-inl.h:1173-1223 | the result is the stripped form if and only if 10^8 does not divide n or the quotient is below 2^32; the loop does not end exactly when the truncated quotient is zero |
| TrailingZeros.WrongResultExample | libs/include/spdlog/fmt/bundled/format-inl.h:1173-1223 | (2^32+1)*10^8 ends with a wrong result |
| TrailingZeros.LoopsForeverExample | libs/include/spdlog/fmt/bundled/format-inl.h:1173-1223 | 2^32*10^8 does not end |
| FormatNumbers.ParseNonnegativeInt | libs/include/spdlog/fmt/bundled/core.h:2335-2356 | consumes the maximal digit run and returns its exact value if it has at most ten digits and fits an int, else the error value, although the accumulator wraps |
| FormatNumbers.RunIsMaximal | libs/include/spdlog/fmt/bundled/core.h:2345 | the end of a maximal digit run is unique |
| FormatParser.ParseExplicitArgId | libs/include/spdlog/fmt/bundled/core.h:2403-2431 | reads an index or a name and where it ends, and rejects everything else |
| FormatParser.ParseReplacementField | libs/include/spdlog/fmt/bundled/core.h:2633-2671 | asks the handler exactly what the field says, in order, and continues behind it, with each error in its place |
| FormatParser.DropReplacementField | libs/include/spdlog/fmt/bundled/core.h:2633-2671 | a field does not depend on empty texts reported before it |
| FormatParser.ParseShort | libs/include/spdlog/fmt/bundled/core.h:2681-2698 | the one-pass loop means what the format string means |
| FormatParser.Find | libs/include/spdlog/fmt/bundled/core.h:2317-2331 | the first occurrence in the range, or none |
| FormatParser.Write | libs/include/spdlog/fmt/bundled/core.h:2699-2714 | passes on a stretch without opening braces as the character-wise reading would |
| FormatParser.ParseLong | libs/include/spdlog/fmt/bundled/core.h:2699-2723 | the searching path means the same, for every format string and every handler that stops on errors: the same texts, questions and errors in the same order, empty texts aside |
| FormatParser.ParseFormatString | libs/include/spdlog/fmt/bundled/core.h:2673-2724 | so the length that selects the path does not matter |
| FormatReplay.ParseIsAnswered | libs/include/spdlog/fmt/bundled/core.h:2633-2724 | for every format string and handler the parse ends in the state to which the handler's own answers lead, each field and specifier goes with the id answered to its question, and nothing follows an error |
| FormatReplay.AutomaticNumbering | libs/include/spdlog/fmt/bundled/core.h:2652-2660 | with a counting handler "{}" n times ends its fields with 0, 1, ... n-1 |
| FormatReplay.TwoFieldsExample | libs/include/spdlog/fmt/bundled/core.h:2652-2660 | "{}{}" ends its fields with 0 and 1 |
| FormatReplay.UnmatchedClosingBrace | libs/include/spdlog/fmt/bundled/core.h:2690-2692 | a closing brace that is not doubled is an error, and the text before it is lost |
| FormatReplay.BadFieldStart | libs/include/spdlog/fmt/bundled/core.h:2421-2424 | an opening brace at the end, or before anything that starts no id, is an error |
| FormatReplay.BadIndex | libs/include/spdlog/fmt/bundled/core.h:2408-2420 | an index must end at a colon or a closing brace, and a leading zero ends at once |
| FormatReplay.HugeIndex | libs/include/spdlog/fmt/bundled/core.h:2409-2412 | an index too large for an int stands for 2147483647 |
| FormatReplay.NameNotClosed | libs/include/spdlog/fmt/bundled/core.h:2656-2667 | a name that does not end at a colon or a closing brace is an error after the handler was asked |
| FormatReplay.SpecsNotClosed | libs/include/spdlog/fmt/bundled/core.h:2661-2664 | specifiers not followed by a closing brace are an error |
| FormatRoundTrip.ArgIdReadBack | libs/include/spdlog/fmt/bundled/core.h:2403-2440 | a printed index or name is read back unchanged |
| FormatRoundTrip.ParsePrinted | libs/include/spdlog/fmt/bundled/core.h:2673-2724 | printing texts and fields, with or without format specifiers, and parsing the result hands the handler exactly these texts, fields and specifiers |
| FormatRoundTrip.EscapedTextComesBack | libs/include/spdlog/fmt/bundled/core.h:2660-2714 | any text with its braces doubled comes out unchanged and nothing is asked of the handler |
| IsoWeek.FirstDayAdvances | libs/include/spdlog/fmt/bundled/chrono.h:1017-1026 | the day count of the calendar advances by the length of each year |
| IsoWeek.LongYears | libs/include/spdlog/fmt/bundled/chrono.h:1017-1026 | a year has 53 Thursdays if it starts or ends on one, else 52 |
| IsoWeek.IsoYearWeeksIff | libs/include/spdlog/fmt/bundled/chrono.h:1017-1026 | iso_year_weeks is the number of Thursdays of the year if and only if the year is positive or neither starts nor ends on a Thursday |
| IsoWeek.WeekOfThursday | libs/include/spdlog/fmt/bundled/chrono.h:1027-1030 | the week number places the Thursday in the last week of the year before, the w-th of the year or the first of the year after |
| IsoWeek.FinalWeekIs53 | libs/include/spdlog/fmt/bundled/chrono.h:1027-1030 | a week is a 53rd one exactly when its Thursday is the 365th or 366th day of its year or falls into a year before that starts or ends on a Thursday |
| IsoWeek.IsoWeekIff | libs/include/spdlog/fmt/bundled/chrono.h:1031-1044 | both functions together give year and week of the Thursday of the same week if and only if the year is positive or the date is in no such final week |
| IsoWeek.WeekOfDate | libs/include/spdlog/fmt/bundled/chrono.h:1027-1044 | every real date has a week, numbered between 1 and the number of weeks of its ISO year |
| IsoWeek.DayFromWeek | libs/include/spdlog/fmt/bundled/chrono.h:1031-1044 | ISO year, week and weekday determine the day |
| IsoWeek.NegativeYearExample | libs/include/spdlog/fmt/bundled/chrono.h:1017-1044 | 31 December of year -2, in a 53rd week, is reported in week 1 of the next year |

## Left out

- IncomingCalls.IncomingCallsQueue.OnCallReset: requires a handler that is not stale, because the source's erase through a dead iterator has no defined effect; TimerQueue.RunHandlerValid and EngineTheorems.OnlyStaleHandlersFault cover the stale case.
- OperatorPool.Operators.AddCall: requires a free operator and runs as if alone; the interleaving of its three critical sections with other threads is the steps of Engine.
- EngineTheorems.Conservation: runs are those before shutdown, without Operators::Stop, awake and clear, which put a null entry into the list, a second operator 0 into the pool, or empty only the list.
- BlockingQueueClass.MpmcBlockingQueue.Enqueue: starts where the wait on the condition variable has ended; waiting and waking are steps of BlockingQueue.
- BlockingQueue.BoundedFifo: without resets of the two counters.
- ThreadPool.ShutdownCompletes: with no posts concurrent with the destructor, and counting spurious wakeups instead of excluding them; fairness of the scheduler is not modelled.
- RotatingSink.RotatingFileSink.RenameFile: renaming always succeeds, as for Rotate.
- RotatingSink.RotatingFileSink.Rotate: file-system failures, the retry after a failed rename and the truncation that follows it are not modelled.
- FormatParser.ParseFormatString: for error handlers that stop the parse, as the library's do; the parsing of format specifiers themselves is the handler's answer, and passing on text cannot fail.
- FormatRoundTrip.ParsePrinted: for handlers that take exactly the specifiers that were printed; what a handler that takes more or less does next depends on the handler.
- HTTP, sockets, response building, configuration and `main`.
- Wake-up liveness of the two `wait` functions: emptiness is checked outside the mutex the notification takes, so only "a return saw a non-empty queue" is used.
- References returned by `front` and `back` after their lock is released, and everything below the mutexes.
- Real clocks, random durations and the wrap-around of call ids: expiry may come at any time and ids are unbounded.
- Timer error codes other than success and aborted, which only write a log line.
- CDR text, log calls, time formatting, colours and all other sinks.
- The backtracking of std::regex: a match is any split of the subject that fits the pattern.
- The MinGW variants of the blocking queue's methods.
- The branches of umul128 and operator+= that use compiler intrinsics.
- Dragonbox's to_decimal with its power tables, and small helpers that enumeration settles.
