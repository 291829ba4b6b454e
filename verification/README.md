# A verified model of the furi core and of three utility libraries

This project models five parts of the firmware and proves what they promise.

* **The heap** (`furi/core/memmgr_heap.c`). `HeapAllocator.Allocator` keeps memory as cells: a raw byte, a link word or a
  size word. Its methods do the pointer surgery of the source: walking the free list, splitting, marking, joining with
  either neighbour. Each is proved against `HeapModel`, which knows nothing but the set of live blocks: the free list is
  *defined* as the gaps between them. `HeapTheorems` states what follows for single calls and for whole runs.
  Word size, alignment and heap area are parameters.
* **The event loop** (`furi/core/event_loop.c`, with message queues and semaphores as sources). `EventLoopModel` is a
  state machine over the atomic steps of all threads; `EventLoopInvariant` proves that every step keeps the invariant;
  `EventLoopTheorems` draws the conclusions over all runs and interleavings, and `EventLoopDispatch` says over runs when
  the callback of a subscription begins and why an item waits. `EventLoopObject.EventLoop` is the source's
  own code: its fields, a waiting list linked through the items (`WaitingLists`), and the functions from
  `furi_event_loop_process_event` up to `furi_event_loop_run`. What other threads and callbacks do comes from a schedule
  that is consulted between any two steps. The object carries its history, which is proved to be a run of the machine,
  so every theorem about runs holds of every execution of the code; its methods need only their place in the code, that
  an item or timer they touch exists follows from the invariant.
* **Its timers** (`furi/core/event_loop_timer.c`). `EventLoopTimers` works on unbounded time, which runs on while a timer is
  started or fired; `EventLoopTimerList.TimerLoop` does the same with 32-bit wrapping ticks and in-place lists, and is
  proved to refine it. `EventLoopTimerRuns` says over runs what the caller of a start, stop or free is promised.
  `EventLoopTimerLink` puts the timed list into the loop, where only the timer that is due fires, and
  proves that every run of that loop is a run of the state machine, so that the theorems about runs hold of it.
* **Digital signals** (`lib/digital_signal`). `Waveform` and `DigitalSignals` are the run-length construction with rounding,
  `Flattening`, `Transmissions` and `DigitalSequences` the flattening of many signals into one stream, `TimerRings` the
  ring read by the DMA.
* **Bits, checks and dates** (`lib/bit_lib`, `lib/datetime`). `BitLib` changes byte buffers in place against a view of the
  buffer as one bit sequence; `Parity` and `CrcTheory` hold the laws; `Crc` has the two loops; `Calendar` and `DateTimes`
  convert in both directions. A check value is characterised as the remainder of a polynomial division (`CrcRemainder`),
  a date by a closed formula of days and by a clock that ticks every second.

Where a promise is not kept for every input, the model keeps the code as it is and the exact condition is proved:

* Every edge of a signal lies within half a timer tick of its exact time precisely when every run, together with the
  remainder carried into it, fits 32 bits (`Waveform.AccurateIffRunsFit`). No run shorter than half a tick, or within
  half a tick of 2^32, is enough (`Waveform.ModerateRunsFit`). Two calls for which it fails are
  `DigitalSignals.ShortPeriodWraps`: the second period is shorter than what the first one owes, wraps, and is stored as a
  very long one.
* A polynomial detects all bursts as long as its register precisely when its low bit is set
  (`CrcTheory.DetectsBurstsIff`).
* The timer list is in order of remaining time, clipped at zero, at every moment of every run (`EventLoopTimers.RunKeepsOk`),
  which is what sleeping and firing rely on. Order of true deadline is kept by an action exactly when it does not put a
  timer behind one that is due after it but has expired, too (`EventLoopTimers.ActInDeadlineOrderIff`); a timer that is
  put in the list no later than its own deadline never does that (`EventLoopTimers.PromptInsertion`). The order is lost
  when ticks come between reading the start time or elapsed time and the critical section that inserts
  (`EventLoopTimers.LateStart`, `EventLoopTimers.LatePeriod`).
* The end of a transmission is noticed only when the ring holds an end marker. A new sequence has none until something is
  enqueued, so its first transmission waits for the timeout if it sends no value
  (`DigitalSequences.FirstTransmissionHangs`); `DigitalSequences.DigitalSequence.Transmit` gives the exact condition.
* A notification bit that the loop takes is acted on or kept, unless Stop was taken too, with one exception: a thread flag
  that comes with a pended callback and with neither an event nor a timer request is lost
  (`EventLoopDispatch.TakenFlagIsLostIff`, `EventLoopDispatch.LostThreadFlag`).
* An even or odd parity bit makes the number of ones in its block even or odd, unless the block is longer than 32 bits and
  has an odd number of ones before its last 32 (`Parity.FramedOnes`).
* The names Even and Odd mean opposite things when parity is added and when it is tested
  (`Parity.TestNamesAreSwapped`).

A transmission of signals built by adding periods sends one value per maximal run but the last
(`Flattening.BuiltSignalsLast`, `DigitalSequences.AddedSignalsAreBuilt`). The encoding alone would allow a stored value of
zero, for which a run can be split in two (`Flattening.ZeroRunIsSplit`); `Flattening.EmittedIsStreamIff` says exactly when.

`dafny verify dfyconfig.toml` takes all modules together.

## Model

| member | source | states |
|---|---|---|
| HeapTheorems.FreeIffNotLive | furi/core/memmgr_heap.c:613-669 | free and live blocks tile the region: a byte is in the free list exactly when no live block has it |
| HeapGaps.GapsBounds | furi/core/memmgr_heap.c:613-669 | the free list is address-ordered, inside the region, no two free blocks touch, none overlaps a live block |
| HeapTheorems.MaximalRunsUnique | furi/core/memmgr_heap.c:613-669 | two such lists covering the same bytes are equal, so the gaps are the only list of maximal free runs |
| HeapTheorems.SameBlocksSameList | furi/core/memmgr_heap.c:492-520 | the free list depends only on the set of live blocks |
| HeapTheorems.RunsAgree | furi/core/memmgr_heap.c:311-529 | two runs that end with the same live blocks end with the same free list, whatever the order of operations |
| HeapGaps.TakeGap | furi/core/memmgr_heap.c:384-424 | allocating the front of a free block leaves the rest of it, or nothing, in its place in the list |
| HeapGaps.GiveBack | furi/core/memmgr_heap.c:613-669 | releasing a block changes the list by joining it with whichever neighbours it touches: none, left, right or both |
| HeapModel.MallocKeepsOk | furi/core/memmgr_heap.c:366-437 | allocation keeps alignment, room for headers, packing and the accounts |
| HeapModel.FreeKeepsOk | furi/core/memmgr_heap.c:492-520 | release keeps them too |
| HeapModel.BytesConserved | furi/core/memmgr_heap.c:401-436 | free bytes plus live bytes are the whole region |
| Remainders.RoundingByRemainder | furi/core/memmgr_heap.c:324-351 | rounding up to the alignment, as the padding does with a remainder test, and rounding down agree with remainder arithmetic |
| HeapTheorems.LargestIsMaximum | furi/core/memmgr_heap.c:672-710 | the reported largest block is attained and bounds every free block |
| HeapTheorems.SucceedsIffLargestFits | furi/core/memmgr_heap.c:367-387 | a request succeeds exactly when it is non-zero and its padded size is at most the largest free block; as blocks are aligned, exactly when the request and one header are |
| HeapTheorems.ServedIffRoom | furi/core/memmgr_heap.c:324-387 | a request is served exactly when it is not zero and some free block has room for it and one header: padding refuses nothing and adds nothing that could make it fail |
| HeapTheorems.ServedFromLowestFit | furi/core/memmgr_heap.c:384-395 | a served request gets the front of the lowest-addressed free block that fits |
| HeapTheorems.EarlyTestsAreHarmless | furi/core/memmgr_heap.c:367-373 | the tests against the free byte count and the allocated bit never reject a request that could be served |
| HeapTheorems.AllocationHolds | furi/core/memmgr_heap.c:384-437 | a new allocation is aligned, inside the heap and disjoint from all live ones; it is cut from the first free block with room for the request and a header, to the least multiple of the alignment that holds both, or is that whole block when at most two headers would be left over; afterwards the live blocks are the old ones and this one |
| HeapTheorems.ReleasesExactly | furi/core/memmgr_heap.c:472-529 | a release takes away the live block whose payload was named and no other |
| HeapTheorems.MallocThenFree | furi/core/memmgr_heap.c:401-519 | releasing the block just allocated restores the same live blocks and the identical free list |
| HeapTheorems.RunsKeepAccounts | furi/core/memmgr_heap.c:401-436 | over every run the invariant holds, allocations minus releases is the live count, and the recorded minimum is the least free count seen |
| HeapTheorems.MinimumEver | furi/core/memmgr_heap.c:427-430 | after any run from start-up the recorded minimum is one of the free byte counts seen, and none was smaller |
| HeapTheorems.FreeingAllRestoresTheHeap | furi/core/memmgr_heap.c:492-520 | releasing all live blocks in any order restores the single initial block |
| HeapTheorems.InitOk | furi/core/memmgr_heap.c:567-610 | the initial heap satisfies the invariant and is one free block |
| HeapMemory.RegionIsWhole | furi/core/memmgr_heap.c:567-597 | the first block begins at the first aligned address of the area, the end marker lies at the last one that leaves it room, and a header is two words rounded up to the alignment |
| HeapMemory.LinkedAfterTake | furi/core/memmgr_heap.c:389-424 | relinking the node before a served block leaves memory holding the list with that block cut or dropped |
| HeapMemory.LinkedAfterGive | furi/core/memmgr_heap.c:613-669 | the stores of a release leave memory holding the coalesced list |
| HeapMemory.ServedInMemory | furi/core/memmgr_heap.c:384-437 | after the stores of an allocation, memory holds exactly the heap the model says follows, and every other payload byte is unchanged |
| HeapMemory.FreeInMemory | furi/core/memmgr_heap.c:492-520 | after the stores of a release, memory holds the live blocks without the released one, and every other payload byte is unchanged |
| HeapMemory.PayloadWritesKeepHeap | furi/core/memmgr_heap.c:94-108 | an application that writes only its own payloads cannot disturb any header or link |
| HeapAllocator.Allocator.HeapInit | furi/core/memmgr_heap.c:567-610 | lays out head, end marker and the initial block so that memory holds the initial heap |
| HeapAllocator.Allocator.PadRequest | furi/core/memmgr_heap.c:324-351 | adds the header and rounds up; zero when the request is zero or the sum leaves 32 bits |
| HeapAllocator.Allocator.FindBlock | furi/core/memmgr_heap.c:380-387 | the walk finds the first free block that fits and the node before it, or the end marker |
| HeapAllocator.Allocator.TakeBlock | furi/core/memmgr_heap.c:389-437 | unlinks, splits when more than two headers remain, marks allocated; touches no other cell |
| HeapAllocator.Allocator.Malloc | furi/core/memmgr_heap.c:311-469 | the new heap is the model's, the pointer is the chosen block's payload, the requested bytes are zero, no byte of another live payload changes; a non-zero request fails exactly when no free block has room for it and a header |
| HeapAllocator.Allocator.InsertBlockIntoFreeList | furi/core/memmgr_heap.c:613-669 | walks to the place by address and joins with either neighbour; only the two headers involved are written |
| HeapAllocator.Allocator.JoinBlock | furi/core/memmgr_heap.c:628-668 | the four merge cases, header by header |
| HeapAllocator.Allocator.Free | furi/core/memmgr_heap.c:472-529 | null does nothing; otherwise the heap is the model's after release, the released payload is zero, and no byte of another live payload changes |
| HeapAllocator.Allocator.WritePayload | furi/core/memmgr_heap.c:94-108 | a byte that the application stores in a payload it holds changes that cell only and keeps the heap valid |
| HeapAllocator.Allocator.GetHeapStats | furi/core/memmgr_heap.c:672-720 | largest and smallest free block and their number over the actual free list; available bytes are its sum, the minimum is the model's, allocations less releases is the live count |
| HeapAllocator.Allocator.WalkStats | furi/core/memmgr_heap.c:680-703 | the loop's running maximum and minimum over the linked list are those of the free list |
| EventLoopInvariant.InitialInv | furi/core/event_loop.c:54-71 | a fresh loop satisfies the invariant |
| EventLoopInvariant.SubscriptionsStep | furi/core/event_loop.c:316-562 | every step of every thread keeps tree, link slots, waiting list and items consistent: one slot per subscription, waiting items subscribed and listed once |
| EventLoopInvariant.WakeStep | furi/core/event_loop.c:143-310 | every step keeps "queued work has its bit set or in hand" |
| EventLoopInvariant.ReadinessStep | furi/core/event_loop.c:104-191 | every step keeps "a true level is noticed or about to be notified" |
| EventLoopInvariant.StepKeepsInv | furi/core/event_loop.c:143-310 | every enabled step keeps the whole invariant |
| EventLoopTheorems.ReachableStatesOk | furi/core/event_loop.c:208-264 | every reachable state satisfies it; none is one of the modelled crashes |
| EventLoopTheorems.NoMissedReadiness | furi/core/event_loop.c:104-191 | for a level-triggered subscription, in every interleaving, a true level with no operation between change and notification means the item waits or its dispatch has not passed its last check |
| EventLoopTheorems.NoLostWakeUp | furi/core/event_loop.c:143-253 | until a Stop bit is taken, a non-empty waiting list, timer queue or pending queue has its bit set, taken and not yet drained or restored, or about to be set by the loop's own thread |
| EventLoopTheorems.SleepsOnlyWhenIdle | furi/core/event_loop.c:208-264 | the loop blocks with no bits only when all three queues are empty and no true level is un-notified |
| EventLoopTheorems.FreedItemsAreUnreachable | furi/core/event_loop.c:500-530 | whatever step frees an item, nothing leads to it afterwards, so it is freed once and never used again |
| EventLoopTheorems.DispatchedItemStays | furi/core/event_loop.c:118-141 | no step frees the item being dispatched, even when its callback unsubscribes it |
| EventLoopTheorems.CancelledItemIsFreed | furi/core/event_loop.c:172-191 | an item unsubscribed from its own callback is freed by the step that ends its dispatch |
| EventLoopTheorems.WaitingItemAdvances | furi/core/event_loop.c:143-156 | a waiting item leaves only into dispatch or by unsubscription, never moves back, and each pop moves it forward |
| EventLoopTheorems.ServedWithinPosition | furi/core/event_loop.c:143-191 | an item at position k is dispatched or unsubscribed within k + 1 pops |
| EventLoopTheorems.StopTakesEffectAtOnce | furi/core/event_loop_timer.c:53-144 | after a timer's stop or free call in any run its callback never runs again unless a later start is processed |
| EventLoopInvariant.NeverStuck | furi/core/event_loop.c:208-264 | under the invariant the loop's thread always has an enabled next step until it stops: no freed item, missing timer or missing object is ever met |
| EventLoopTheorems.RisingLevelIsNotified | furi/core/message_queue.c:57-141 | an operation that makes a level true notifies the event of that level |
| EventLoopTheorems.NotifiedItemWaits | furi/core/event_loop.c:587-601 | a notification puts the item subscribed to that event last in the waiting list, unless it is there already, and sets the Event bit; no other item enters, leaves or moves |
| EventLoopTheorems.UnsubscribeUndoesSubscribe | furi/core/event_loop.c:316-482 | unsubscribing restores the tree, links, items and waiting list from before subscribing |
| EventLoopTheorems.TakenBitsAreKept | furi/core/event_loop.c:222-253 | without Stop, each of Event, Timer and Pending that was taken is acted on at once or kept to be restored |
| EventLoopTheorems.PendedCallbacksInOrder | furi/core/event_loop.c:193-310 | over every run, the k-th callback that begins to run is the k-th that was pended, and those that have not begun are queued in that order |
| EventLoopTheorems.TrueLevelIsPutBack | furi/core/event_loop.c:104-191 | a level still true after the callback puts the item back in the waiting list with the Event bit set |
| EventLoopDispatch.CalledIffReady | furi/core/event_loop.c:96-141 | over every run, from a subscription on and as long as its item is not freed: its callback begins only when the loop decides on the item after taking it off the list, and then exactly if it was subscribed as edge-triggered or the level it was subscribed to is true |
| EventLoopDispatch.LevelMeansProgress | furi/core/message_queue.c:216-228 | the In level is true exactly when a get succeeds, the Out level exactly when a put does, so a level-triggered callback never begins on an operation that would fail |
| EventLoopDispatch.WaitsOrIsDecided | furi/core/event_loop.c:143-191 | an item at position k that stays subscribed is, until the loop decides on it, on the list with at most k pops so far, or taken off by one of the first k + 1 |
| EventLoopDispatch.EdgeItemIsCalled | furi/core/event_loop.c:96-102 | a notified edge-triggered subscription has its callback begun, or is unsubscribed, within k + 1 pops: otherwise it still waits after at most k, or the loop's next step begins the callback |
| EventLoopDispatch.PutBackIffLevelHolds | furi/core/event_loop.c:104-116 | over every run, after a callback the item is put back exactly if it is level-triggered and its level is still true |
| EventLoopDispatch.WaitsForAReason | furi/core/event_loop.c:96-191 | over every run, an item gets on the waiting list only by a notification of the object and direction it is subscribed to, or, when level-triggered, by being subscribed to a true level or by a check after its callback that found the level true; an edge-triggered item is never put back |
| EventLoopDispatch.StopIsObeyed | furi/core/event_loop.c:222-288 | over every run, a stop request is not lost: ever after its bit is set or taken or the loop has stopped, and a loop that chooses a branch with the bit taken stops |
| EventLoopDispatch.TakenFlagIsLostIff | furi/core/event_loop.c:229-253 | without Stop, a taken bit is neither acted on nor kept exactly if it is a thread flag that came with Pending and with neither Event nor Timer |
| EventLoopDispatch.LostThreadFlag | furi/core/event_loop.c:244-247 | a run from start-up in which that happens |
| WaitingLists.LinkedAfterPush | furi/core/event_loop.c:543-558 | linking an item in before the head appends it to the ring, both ways |
| WaitingLists.LinkedAfterUnlink | furi/core/event_loop.c:466-470 | unlinking takes exactly that item out of the ring and leaves its pointers null |
| WaitingLists.WaitingList.WaitingIffListed | furi/core/event_loop.c:560-562 | an item's pointers are set exactly while it is in the list |
| WaitingLists.WaitingList.PushBack | furi/core/event_loop.c:549-551 | the items are the old ones and the new one last |
| WaitingLists.WaitingList.Unlink | furi/core/event_loop.c:466-470 | the items are the old ones without that one |
| WaitingLists.WaitingList.PopFront | furi/core/event_loop.c:148-151 | returns the first item and leaves the others in order |
| EventLoopObject.EventLoop.constructor | furi/core/event_loop.c:54-71 | a fresh loop is valid, in an initial state, with an empty history |
| EventLoopObject.EventLoop.HistoryIsRun | furi/core/event_loop.c:208-264 | the history of every valid loop is a run of the machine from start-up to the present state |
| EventLoopObject.EventLoop.Promises | furi/core/event_loop.c:104-310 | at every point of every execution: no crash, no missed readiness, no sleep on queued work, and every item whose pointers are set is a subscribed, allocated one |
| EventLoopObject.EventLoop.Gap | furi/core/event_loop.c:587-601 | whatever other threads and the application do between two steps keeps the loop valid and, outside application code, leaves its place, its item and its bits in hand alone |
| EventLoopObject.EventLoop.ProcessEvent | furi/core/event_loop.c:118-141 | callback and level check, with interference anywhere, end with a status for that same item; within the call the loop decided on the item, and began its callback exactly if the item was edge-triggered or its level was true at that moment |
| EventLoopObject.EventLoop.ActOnStatus | furi/core/event_loop.c:178-188 | an item freed here is neither allocated nor in the waiting list afterwards |
| EventLoopObject.EventLoop.ProcessWaitingList | furi/core/event_loop.c:172-191 | the first waiting item is dispatched, its callback begun exactly if it was ready; afterwards every allocated item is subscribed, so none waits to be freed, and the Event bit is set while items wait |
| EventLoopObject.EventLoop.ProcessTimerQueue | furi/core/event_loop_timer.c:89-116 | ends with an empty request queue |
| EventLoopObject.EventLoop.TimeOutWait | furi/core/event_loop.c:222-228 | the wait times out only with all three queues empty |
| EventLoopObject.EventLoop.RunOnce | furi/core/event_loop.c:222-253 | one round of the loop, in every branch and with interference anywhere, is part of a run and ends at the wait, stopped, or among pending callbacks |
| EventLoopObject.EventLoop.RunLoop | furi/core/event_loop.c:208-264 | so does any number of rounds from start-up |
| EventLoopTimers.InsertLands | furi/core/event_loop_timer.c:26-51 | a timer lands after all that have no more time left and before all that have more: first in, first out among equals |
| EventLoopTimers.InsertKeepsOrder | furi/core/event_loop_timer.c:26-51 | the list stays in order of remaining time, without repetition, gaining exactly the new timer |
| EventLoopTimers.SortedByDeadline | furi/core/event_loop_timer.c:17-38 | order of remaining time means that a timer not yet due has its deadline before all behind it |
| EventLoopTimers.ActKeepsOk | furi/core/event_loop_timer.c:26-144 | creating, requesting, serving a request, firing and the passing of time, ticks inside serving and firing included, all keep the list in order of remaining time |
| EventLoopTimers.FrontIsEarliest | furi/core/event_loop_timer.c:118-128 | no timer has less time left than the front; nothing is due exactly when nothing is expired |
| EventLoopTimers.WaitTimeIsLeast | furi/core/event_loop_timer.c:78-87 | the front's remaining time is the least remaining time, so a shorter sleep makes no timer late |
| EventLoopTimers.RunKeepsOk | furi/core/event_loop_timer.c:26-144 | over every run of calls, requests served one by one, firing and passing time, the list is in order of remaining time in every state and at every later moment |
| EventLoopTimers.InsertInDeadlineOrderIff | furi/core/event_loop_timer.c:26-51 | an insertion keeps the order of true deadlines exactly when no listed timer is due after the new one and has expired |
| EventLoopTimers.ActInDeadlineOrderIff | furi/core/event_loop_timer.c:89-144 | so does an action, for the moment at which it inserts |
| EventLoopTimers.PromptInsertion | furi/core/event_loop_timer.c:26-51 | inserting no later than the timer's own deadline is enough |
| EventLoopTimers.RunInDeadlineOrder | furi/core/event_loop_timer.c:89-144 | over every run without such a late insertion the list stays in order of true deadline |
| EventLoopTimers.LateStart | furi/core/event_loop_timer.c:97-103 | a tick between reading the start time and inserting puts a timer due at 10 behind one due at 11 |
| EventLoopTimers.LatePeriod | furi/core/event_loop_timer.c:131-136 | two ticks between reading the elapsed time and inserting put a timer due at 11 behind one due at 12 |
| EventLoopTimers.FiresInOrder | furi/core/event_loop_timer.c:118-144 | over every run, a timer does not fire before one ahead of it in the list, equal deadlines included, unless a request for either is processed |
| EventLoopTimers.NoDrift | furi/core/event_loop_timer.c:131-136 | a firing moves a periodic deadline by a whole number of intervals, to strictly after the moment at which the elapsed time was read and at most one interval away from it |
| EventLoopTimers.DrainedQueue | furi/core/event_loop_timer.c:89-116 | draining, with any delays before and inside its rounds, leaves no request and keeps the invariant |
| EventLoopTimers.DrainedTimer | furi/core/event_loop_timer.c:89-116 | draining does to each timer what its own latest request says: a start makes it run for the interval filed, from the moment its own request is taken; a stop makes it idle; a free removes it |
| EventLoopTimers.DrainLeaves | furi/core/event_loop_timer.c:89-116 | and nothing to a timer without a request |
| EventLoopTimerRuns.FiresOnTime | furi/core/event_loop_timer.c:22-144 | over every run: a timer whose start call asked for v ticks and whose request is taken at time T does not fire before T + v; until it fires it is active, expired exactly from T + v on, and from then on the loop finds a timer due |
| EventLoopTimerRuns.OneShotFiresOnce | furi/core/event_loop_timer.c:138-140 | a one-shot timer fires at most once for each start |
| EventLoopTimerRuns.PeriodicKeepsTheBeat | furi/core/event_loop_timer.c:131-136 | a periodic timer goes on until another request of it is taken, always due at T + v * k for some k from 1 on |
| EventLoopTimerRuns.NextBeatFollows | furi/core/event_loop_timer.c:131-136 | when it fires, its next beat is the first one after the moment at which the elapsed time was read |
| EventLoopTimerRuns.StoppedOrFreed | furi/core/event_loop_timer.c:105-111 | over every run, a timer whose stop request was taken stays allocated and does not run or fire until another request of it is taken; one whose free request was taken is gone |
| EventLoopTimerRuns.RequestsTakenInOrder | furi/core/event_loop_timer.c:53-90 | over every run, of two timers whose last requests both wait, the one that asked first has its request taken first |
| EventLoopTimerList.ElapsedExact | furi/core/event_loop_timer.c:12-14 | wrapped subtraction is exact within one turn of the counter |
| EventLoopTimerList.TimerLoop.TrueTimes | furi/core/event_loop_timer.c:12-24 | the 32-bit elapsed, remaining and expired computations give the true values |
| EventLoopTimerList.TimerLoop.ScheduleTimer | furi/core/event_loop_timer.c:26-51 | the walk from the back, comparing remaining times in 32 bits, inserts by true remaining time |
| EventLoopTimerList.TimerLoop.GetWaitTime | furi/core/event_loop_timer.c:78-87 | the least true remaining time over all active timers, or forever; at the end of that wait a timer is due, and at no earlier tick |
| EventLoopTimerList.TimerLoop.EnqueueRequest | furi/core/event_loop_timer.c:53-72 | files the request and the interval asked for, unlinking an older one |
| EventLoopTimerList.TimerLoop.Restart | furi/core/event_loop_timer.c:189-196 | a start request with the interval the timer last ran with |
| EventLoopTimerList.TimerLoop.ProcessTimerQueue | furi/core/event_loop_timer.c:89-116 | refines draining over unbounded time, with ticks before and inside every round; every pending start then runs for the interval that was filed, from the time its request was taken |
| EventLoopTimerList.TimerLoop.ProcessExpiredTimers | furi/core/event_loop_timer.c:118-144 | refines firing over unbounded time, with ticks between its three readings of the counter and whole-interval rescheduling in 32 bits |
| EventLoopTimerLink.StepAgrees | furi/core/event_loop_timer.c:53-144 | every step of the loop with the timed list, where the timer that is due fires, is a step of the state machine with the same effect |
| EventLoopTimerLink.TimedRunsAreRuns | furi/core/event_loop.c:208-264 | every run of that loop is a run of the state machine and a run of the timed list |
| EventLoopTimerLink.StoppedTimerIsNeverDue | furi/core/event_loop_timer.c:53-144 | after a stop or free call in any run of that loop, the timer that is due is never that one until a later start is processed |
| EventLoopTimerLink.NeverStuck | furi/core/event_loop.c:208-264 | that loop can always take its next step until it stops: when a wait has timed out, either the due timer fires or the tick is processed |
| Waveform.RunsKeepWaveform | lib/digital_signal/digital_signal.c:80-95 | run-length compression keeps the level at every time |
| Waveform.RunsKeepDuration | lib/digital_signal/digital_signal.c:80-95 | and the total duration |
| Waveform.RunsAlternate | lib/digital_signal/digital_signal.c:87-88 | the last level follows from the start level and the number of runs |
| Waveform.AccurateIffRunsFit | lib/digital_signal/digital_signal.c:40-78 | every edge lies within half a tick exactly when every run, with the remainder carried into it, fits 32 bits; the remainder is then how far the last edge is off |
| Waveform.ModerateRunsFit | lib/digital_signal/digital_signal.c:44-57 | runs of at least half a tick, and half a tick short of 2^32, all fit |
| Waveform.AccurateAtEveryEdge | lib/digital_signal/digital_signal.c:40-78 | accuracy of a signal is accuracy of every prefix of it |
| DigitalSignals.DigitalSignal.AccurateIff | lib/digital_signal/digital_signal.c:40-95 | a signal object is accurate at every edge exactly when its runs fit |
| DigitalSignals.ShortPeriodWraps | lib/digital_signal/digital_signal.c:40-58 | two calls after which it is not |
| DigitalSignals.DigitalSignal.SetStartLevel | lib/digital_signal/digital_signal.c:28-32 | the whole waveform is inverted when the level changes; stored values stay |
| Waveform.InvertedLevel | lib/digital_signal/digital_signal.c:28-32 | inverting a waveform keeps all durations and turns its level over at every time |
| DigitalSignals.DigitalSignal.AddPeriod | lib/digital_signal/digital_signal.c:40-58 | appends one period to the logged waveform; fails exactly when full or when the converted duration is shorter than two ticks |
| DigitalSignals.DigitalSignal.ExtendLastPeriod | lib/digital_signal/digital_signal.c:60-78 | lengthens the last run; the stored value is what converting the whole run at once would have given |
| DigitalSignals.DigitalSignal.AddPeriodWithLevel | lib/digital_signal/digital_signal.c:80-95 | the stored signal is the run-length compression of all inputs at their levels; succeeds exactly when there is room and the converted duration is at least two ticks; accurate at every edge exactly when every run fits |
| Flattening.RemaindersConserved | lib/digital_signal/digital_sequence.c:361-365 | carried remainder plus paid corrections is the sum of all remainders; the carry stays below half a tick and within 32 bits |
| Flattening.OutputFollowsLevel | lib/digital_signal/digital_sequence.c:189-195 | the alternating output follows the intended level throughout |
| Transmissions.SignalsInTurn | lib/digital_signal/digital_sequence.c:296-368 | the intended level is that of the signals one after another: from the moment signal j begins, after the durations and corrections of those before it, it is signal j's own alternating waveform, its first duration lengthened by its correction |
| Transmissions.OutputIsSignals | lib/digital_signal/digital_sequence.c:283-376 | so is the output that changes its level after each value of the stream, up to the last run, which is held |
| Flattening.SignalRuns | lib/digital_signal/digital_sequence.c:304-345 | a signal adds its periods as runs, the first joining the run before it when the levels agree |
| Flattening.PeriodStep | lib/digital_signal/digital_sequence.c:304-345 | one round of the inner loop computes the next run, sends it, carries it or holds it, and its value fits |
| Flattening.PlanAll | lib/digital_signal/digital_sequence.c:296-368 | following the loops, round by round, sends exactly the emitted values |
| Flattening.EmittedIsStreamIff | lib/digital_signal/digital_sequence.c:296-368 | what is sent is one value per maximal run but the last, exactly when no run of length zero meets a signal that starts at its level |
| Flattening.BuiltSignalsLast | lib/digital_signal/digital_signal.c:54-56 | signals built by adding periods meet that condition |
| DigitalSequences.AddedSignalsAreBuilt | lib/digital_signal/digital_signal.c:54-76 | every signal object that holds a period is such a signal |
| Flattening.ZeroRunIsSplit | lib/digital_signal/digital_sequence.c:312-345 | a remark on the encoding: stored values of zero, which no call produces, would be split |
| DigitalSequences.DigitalSequence.RegisterSignal | lib/digital_signal/digital_sequence.c:115-124 | registers within the bank, fails outside |
| DigitalSequences.DigitalSequence.AddSignal | lib/digital_signal/digital_sequence.c:126-132 | appends while there is room, fails otherwise |
| DigitalSequences.DigitalSequence.Transmit | lib/digital_signal/digital_sequence.c:283-376 | clean exactly when every wait leaves 1 to 125 values unread, the last one loads the end marker, and there is a marker to load; then the DMA plays exactly the emitted values in order, which for signals built by adding periods are one per maximal run but the last |
| DigitalSequences.FirstTransmissionHangs | lib/digital_signal/digital_sequence.c:198-226 | a single held period on a new sequence waits for the timeout, the same transmission repeated does not |
| TimerRings.TimerRing.DmaRead | lib/digital_signal/digital_sequence.c:134-142 | returns the next enqueued value in order |
| TimerRings.TimerRing.EnqueuePeriod | lib/digital_signal/digital_sequence.c:228-275 | appends to the queue and keeps the end marker after the newest value; clean exactly when the wait, if the DMA runs, ends with 1 to 125 values unread |
| TimerRings.TimerRing.Finish | lib/digital_signal/digital_sequence.c:198-226 | the end marker is met, and then every value has been played, exactly when something was written to the ring and the DMA makes more transfers before the timeout than values are unread; otherwise a prefix has been played |
| Bits.OfSetBit | lib/bit_lib/bit_lib.c:14-20 | changing a bit in its byte changes that bit of the buffer and no other |
| BitLib.SetBit | lib/bit_lib/bit_lib.c:14-20 | the buffer is the old one with that bit replaced |
| BitLib.GetBit | lib/bit_lib/bit_lib.c:32-34 | reads the addressed bit |
| BitLib.GetBits | lib/bit_lib/bit_lib.c:36-47 | the result's low bits are the addressed bits, its other bits zero; an unaligned field needs one more readable byte |
| BitLib.SetBits | lib/bit_lib/bit_lib.c:22-30 | the stretch holds the byte's low bits, the rest is unchanged |
| BitLib.PushBit | lib/bit_lib/bit_lib.c:5-12 | the whole buffer moves up one bit |
| BitLib.AddParity | lib/bit_lib/bit_lib.c:183-220 | the destination stretch is the source in blocks, each followed by its parity bit; all else unchanged; returns its length |
| BitLib.ParityOf | lib/bit_lib/bit_lib.c:201-215 | the bit computed from the 32-bit parity word is the block's parity bit |
| BitLib.RemoveBitEveryNth | lib/bit_lib/bit_lib.c:222-248 | in-place compaction through the 8-bit buffer equals filtering the original bits; bits outside the result are unchanged |
| BitLib.FrameAndStrip | lib/bit_lib/bit_lib.c:183-248 | adding parity and then removing every parity bit in place leaves the source bits in the destination, and all around the framed stretch unchanged |
| BitLib.ReverseBits | lib/bit_lib/bit_lib.c:261-272 | the stretch is reversed, all else unchanged |
| Parity.RemoveUndoesAdd | lib/bit_lib/bit_lib.c:183-248 | removing every n-th bit undoes adding parity, for every kind and every block length |
| Parity.WithParityLength | lib/bit_lib/bit_lib.c:216-219 | adding parity gives whole blocks |
| Parity.TestNamesAreSwapped | lib/bit_lib/bit_lib.c:132-215 | added even or odd parity passes the test for the other name and fails its own unless empty |
| Parity.OddOnesCounts | lib/bit_lib/bit_lib.c:201-215 | the parity used is whether the number of ones is odd |
| Parity.FramedOnes | lib/bit_lib/bit_lib.c:183-220 | a block with its even (odd) parity bit has an even (odd) number of ones exactly if the bits before its last 32 have an even number; a block of at most 32 bits has none before them |
| CrcTheory.FeedLinear | lib/bit_lib/bit_lib.c:407-412 | the register is linear in start value and message |
| CrcTheory.FeedInjective | lib/bit_lib/bit_lib.c:407-412 | with the polynomial's low bit set, equal results from equal bits mean equal registers |
| CrcTheory.FeedAligned | lib/bit_lib/bit_lib.c:374-383 | adding a byte to the register and shifting is the same as taking its bits in one by one |
| CrcTheory.BurstDetected | lib/bit_lib/bit_lib.c:362-418 | messages that differ only within a window no longer than the register end in different registers, from any start |
| CrcTheory.DetectsBurstsIff | lib/bit_lib/bit_lib.c:362-418 | that holds exactly for polynomials whose low bit is set |
| CrcRemainder.RegisterIsRemainder | lib/bit_lib/bit_lib.c:407-412 | the register is the remainder of a division: message with zeros appended and start value added to its front, by the polynomial with its leading term, over carry-less sums; a quotient exists |
| CrcRemainder.RemainderIsUnique | lib/bit_lib/bit_lib.c:407-412 | quotient and remainder of that division are unique |
| CrcRemainder.RemainderIff | lib/bit_lib/bit_lib.c:407-412 | so a register is the remainder exactly if it is what feeding the message leaves |
| Crc.CheckIffRemainder | lib/bit_lib/bit_lib.c:392-418 | a value is the check value exactly if it presents that remainder: message bits from each byte's high or low end, output bits in order or reversed, mask added |
| Crc.EmptyMessage | lib/bit_lib/bit_lib.c:362-418 | the check value of no data is the start value, reversed if asked, with the mask added |
| Crc.MaskIsAdded | lib/bit_lib/bit_lib.c:416-416 | the final mask is added to the check value without one |
| Crc.StartDifference | lib/bit_lib/bit_lib.c:392-418 | for two start values the results differ by what their difference becomes over as many zeros as there are message bits, whatever the data and the mask |
| Crc.ReflectedInput | lib/bit_lib/bit_lib.c:405-405 | reflecting the input is checking bytes reversed beforehand |
| Crc.ReflectedOutput | lib/bit_lib/bit_lib.c:414-416 | reflecting the output reverses the unmasked check value |
| Crc.Reverse16Bits | lib/bit_lib/bit_lib.c:334-353 | the masks and shifts reverse the sixteen bits |
| Crc.Reverse8Bits | lib/bit_lib/bit_lib.c:405-405 | the high byte of the reversed word is the reversed byte |
| Crc.Crc16 | lib/bit_lib/bit_lib.c:392-418 | the loop computes the check value: the one 16-bit value that presents, reversed if asked and with the mask added, the remainder of the message by the polynomial, the start value added to the front of the message |
| Crc.Crc8 | lib/bit_lib/bit_lib.c:362-390 | likewise, eight bits wide, with the byte-wise form of the loop |
| Crc.Crc16DetectsBursts | lib/bit_lib/bit_lib.c:392-418 | bursts of up to sixteen consumed bits always change the CRC-16, for any start, reflection and final mask |
| Crc.Crc8DetectsBursts | lib/bit_lib/bit_lib.c:362-390 | bursts of up to eight bits always change the CRC-8 |
| Calendar.DateOfIsReal | lib/datetime/datetime.c:72-97 | every count of seconds names an existing date whose timestamp is that count |
| Calendar.DateOfTimestamp | lib/datetime/datetime.c:40-110 | every existing date from 1970 on is the date of its own timestamp |
| Calendar.MonthOfPlace | lib/datetime/datetime.c:85-91 | the month search stays within 1 to 12 and finds the month the day falls in |
| Calendar.YearOfPlace | lib/datetime/datetime.c:80-83 | the year search finds the year the day falls in |
| Calendar.YearsInClosedForm | lib/datetime/datetime.c:12-17 | the days before any year, with every fourth a leap year but of the centuries only every fourth |
| Calendar.MonthsInClosedForm | lib/datetime/datetime.c:13-15 | the days before months 1 and 2 are 0 and 31, and before month m from 3 to 13 they are 59, one more in leap years, plus (153 * (m - 3) + 2) / 5 |
| Calendar.DayNumberIsCivil | lib/datetime/datetime.c:40-70 | the day number of any date is one closed formula of its year, month and day, with no table |
| Calendar.DatesTick | lib/datetime/datetime.c:72-97 | the dates of successive timestamps are those of a clock that starts at 1970-01-01 00:00:00 and ticks every second, each month ending where the closed formula begins the next |
| DateTimes.DatetimeToTimestamp | lib/datetime/datetime.c:40-70 | modulo 2^32 the timestamp of the fields, which is the closed formula, and exactly it for existing dates below 2^31; no counter or product overflows |
| DateTimes.TimestampToDatetime | lib/datetime/datetime.c:72-97 | writes the fields of the date, and the weekday, for every 32-bit timestamp: an existing date and time whose seconds by the closed formula are the timestamp |
| DateTimes.FindMonth | lib/datetime/datetime.c:85-91 | the table is only read at months 1 to 12 |
| DateTimes.TimestampsSurvive | lib/datetime/datetime.c:40-97 | below 2^31, to a date and back gives the same timestamp |
| DateTimes.DatesSurvive | lib/datetime/datetime.c:40-97 | below 2^31, an existing date to a timestamp and back gives the same date and time |
| DateTimes.WeekdayAdvances | lib/datetime/datetime.c:78-78 | weekdays follow one another, from the Thursday of 1 January 1970 |

## Left out

- The heap: canary links (an exclusive or with a random word), per-thread tracing, the statistics printout, `realloc` and
  `calloc`, and `vPortHeapResetState`. Out of memory and a zero request are a failed result, not a crash.
  The two counters of successful calls are unbounded.
- Masking an address with the complement of the alignment minus one is modelled as rounding down; the two agree for the
  powers of two that the source uses.
- HeapAllocator.Allocator.Free: the caller owes the null pointer or a live payload, which is what the assertions of the
  source check in part; a double release is not modelled.
- The event loop: the Once flag, because unsubscription then runs before the current item is set; mutexes, stream
  buffers and event flags as sources; allocation and release of loops, objects and links; more than one loop; states
  after a Stop bit is taken. A queue is its number of messages, and a failed operation is no step. Callbacks are
  arbitrary sequences of the modelled application steps.
- The list library behind the waiting list (`m-i-list.h`) is not part of this model; its push, pop and unlink are written
  out as pointer changes on a ring through a head, which is how the loop uses them.
- EventLoopTheorems.NoLostWakeUp: does not cover thread flags (`EventLoopDispatch.TakenFlagIsLostIff` says when one is
  lost), nor anything after Stop.
- EventLoopObject.EventLoop.RunLoop: a wait that times out fires the timer it is given, if that is active; that the loop
  fires the one that is due is in `EventLoopTimerLink`. The number of rounds and of
  pending callbacks in a row is a parameter, because callbacks may pend callbacks forever.
- EventLoopTimers.ActKeepsOk: assumes that no active timer is left unserved for 2^32 ticks, and that periodic timers
  have a positive interval (an interval of zero is a division by zero in the source). A wait may time out at any moment.
- Digital signals: GPIO, timer and DMA registers (the timer's reload register also holds the end marker from the start of
  the timer until the first transfer), interrupt masking, and the duration of merged periods in timer ticks
  (stored values are ticks minus one and are added as they are). The carried remainder is not corrected when negative,
  so it is bounded below only by half a tick per signal.
- DigitalSequences.DigitalSequence.Transmit: empty signals and signals that were never registered are not modelled; each
  run that is sent must stay below the end marker 2^32 - 1 and the last one within 32 bits, and there are at most 2749658
  signals, so that the signed remainder cannot overflow. One enqueue is atomic, apart from the DMA transfers made while
  it waits. How many transfers fit into a wait is a parameter.
- Bit library: the wider forms of `bit_lib_get_bits`, which put together bytes read by the modelled one,
  `bit_lib_copy_bits`, the number conversions, bit counting and printing. Testing parity is a function on the bits of
  each block, not on the word that the source reads them into. Position and length arguments are unbounded.
- BitLib.AddParity: source and destination are different buffers.
- BitLib.ReverseBits: an empty stretch is not modelled; the source computes its last index by unsigned wrap-around.
- DateTimes.DatetimeToTimestamp: years after 2038, where the signed product of the source overflows, and months beyond
  the tables are not modelled. `datetime_validate_datetime` is not part of this model.
- Thin wrappers, logging, records, threads, tooling scripts and everything else in the repository.
