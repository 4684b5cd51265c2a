# A verified model of the ring buffer and its thread-safe wrapper

The model has two layers, and a theorem that composes them.

**The buffer** (`include/ring_buffer.h`). `RingModel` gives the state as a value and every operation
on it, branch by branch: slots that are raw storage or hold an object, head, tail, count, the full
flag and the overwrite mark. `RingBuffers` is the buffer itself: a class over an array, updated in
place with the machine's index arithmetic, each method proved to do what the value model says.
`BoundedQueue` is the reference: a plain sequence that drops its first item when one more is added
at capacity. The header promises that reference ("if the buffer is full, the oldest element will be
overwritten"). The code keeps the promise on some runs only: an overwrite moves the head but not the
tail, so the tail falls behind the end of the window by one place per overwrite. The model follows
the code. `Refinement` proves how far the tail falls behind on every run, and that the window follows
the reference exactly on the runs in which each insertion into a buffer with room comes after a
multiple of `capacity` overwrites since the last clear; results agree with the reference for as long
as a run keeps to that. A clear ends every departure, whatever the run before it. The repository's own
test notes that the overwriting implementation misbehaves (`test/ring_buffer_tests.cc:84-87`).

`LaggingQueue` says what the buffer is on every other run too. Its reference has no indices: it is a
row of places, oldest element first, into which an insertion with room goes some places behind the
end. Every operation on every usable buffer does to it what the code does, and every call of every run,
in step or not, returns what it returns there.

The repository's README also promises safe copying (its line 18). A copy takes the first `count`
slots of its source but keeps the head. For a source whose objects are exactly its elements the
promise holds if and only if the head is 0 or the source is full or empty; `CopyMove` proves that,
and says what a caller must count to know the head.

Nor does the code always keep its slots' lifetimes: once the tail has fallen behind, an insertion may
construct over an object, and a removal or a clear may destroy a slot without one. `ObjectRuns` proves
on which runs that never happens, by counts a caller can keep.

**The wrapper** (`include/thread_safe_ring_buffer.h`). `Monitor` is a step relation over any number
of threads: program points, the owner of the mutex, sleepers on the two condition variables,
notifications of one or of all, spurious wake-ups and time-outs. The shared buffer is the value
model of the first layer. The timed calls are modelled as the code runs them: their lock lives in
the `if`, so they test their guard under the mutex, release it, and change the buffer and notify
without it. That unlocked change is taken as one step, which is an idealisation: in C++ it is a data
race. `CriticalSections` ties the protocol's guards and changes to the buffer that is updated in
place.

`Calls` says what each call promises: its change, its result, and whom it wakes. From every state with
a free mutex, a call's own thread keeps that promise from the call to the return, goes to sleep exactly
while what it waits for is missing, and after a time-out returns its failure; no timed call fails earlier.

What a thread may call is its *rights*. The theorems about runs say for which rights they hold, and
the main ones hold if and only if:

- no run overwrites if and only if a thread that inserts with a time-out is the only one that inserts;
- no timed removal finds the buffer empty after its guard if and only if it is the only thread that
  removes or clears, or nobody inserts;
- every run is linearizable if and only if both hold; the fully locked calls always satisfy both. A
  run is linearizable if some choice of effect points explains the calls, returns and results that the
  callers see: where the rights are not safe, a run is given that no choice explains;
- no wake-up is lost if and only if nobody can sleep on a condition variable while another thread
  supplies it without the mutex, and no watcher (`wait_until_*`) can take a wake-up from somebody
  else. Equivalently: whatever comes to a standstill, nobody is left asleep beside what it waits for.

The last point has a consequence that the header does not mention: a blocking producer beside a
consumer that uses `pop_front_with_timeout` can go to sleep beside a free slot; and at every capacity,
beside that many such consumers, it can go to sleep beside an empty buffer and then sleeps for as long
as the others only look for elements, unless it is woken spuriously.

| file | content |
|---|---|
| `Indices.dfy` | index arithmetic over a 64-bit size type |
| `RingModel.dfy`, `BoundedQueue.dfy` | the buffer as a value, and the reference |
| `Refinement.dfy` | drift law, refinement, `back` |
| `LaggingQueue.dfy` | the buffer on every run, drifted or not |
| `Lifetimes.dfy`, `ObjectRuns.dfy` | construction and destruction of objects in slots: one operation, whole runs |
| `SlidingWindow.dfy` | filling, sliding, draining, clearing |
| `CopyMove.dfy` | copying and moving whole buffers |
| `RingBuffer.dfy` | the buffer and its iterators, updated in place |
| `Monitor.dfy` | the wrapper's protocol |
| `Calls.dfy` | what whole calls promise, time-outs, clearing |
| `CriticalSections.dfy` | the protocol's guards and changes on the buffer in place |
| `History.dfy` | histories, linearizability, conservation |
| `Safety.dfy`, `Scripts.dfy`, `Races.dfy` | both halves of the linearizability conditions |
| `Tallies.dfy`, `Wakeups.dfy`, `LostWakeups.dfy` | both halves of the wake-up condition |
| `Progress.dfy` | no stuck state |

`dafny verify dfyconfig.toml` verifies the project.

## Model

| member | source | states |
|---|---|---|
| Indices.IndexSumsExactIff | include/ring_buffer.h:523-546 | the 64-bit `(head + index) % capacity` is the mathematical slot for all positions if and only if the capacity is at most 2^63 |
| Indices.NextIndexIsMachine | include/ring_buffer.h:678-717 | up to that capacity the wrapped increment is the next index, going round |
| Indices.SlotIndexIsMachine | include/ring_buffer.h:601-612 | up to that capacity the wrapped sum of head and offset is the slot `offset` places on |
| RingModel.Ring.Next | include/ring_buffer.h:353-436 | every operation, in step or not, keeps head, tail and overwrite position below the capacity, count at most capacity, and full exactly when the count is the capacity |
| Refinement.DriftLaw | include/ring_buffer.h:678-717 | in every reachable state: bounds, full flag, free slots, `tail + overwrites since clear` congruent to `head + count`, and the tail is at the window's end if and only if the capacity divides those overwrites |
| Refinement.EmplaceIsPush | include/ring_buffer.h:400-416 | destroying and constructing in place leaves the same state as assigning |
| Refinement.OverwriteSlides | include/ring_buffer.h:353-361 | an insertion into a full buffer drops the first element and appends the new one |
| Refinement.AppendsIffAligned | include/ring_buffer.h:361-367 | an insertion into a buffer with room appends if and only if the tail is at the window's end; otherwise the window ends in a slot without object |
| Refinement.RefinesIffInStep | include/ring_buffer.h:353-612 | the window follows the bounded queue through a whole run if and only if every insertion into a buffer with room comes after a multiple of `capacity` overwrites since the last clear |
| Refinement.ResultsAgree | include/ring_buffer.h:353-612 | on every run, each push, emplace, pop, front, `operator[]`, size, empty, full, available and clear before which all insertions were in step returns what the queue returns, and so does each `back` that is itself in step; when all insertions are in step, the live slots at the end are exactly the queue's items |
| Refinement.BackReadsNewestIff | include/ring_buffer.h:474-514 | `back` reads the newest slot if and only if the newest element came in by an overwrite or the capacity divides the overwrites since clear |
| Refinement.DriftWitness | include/ring_buffer.h:696-703 | capacity 3, push 1 to 4, pop, push 5: the window is 3, 5 and a slot without object |
| LaggingQueue.ViewNext | include/ring_buffer.h:353-436 | every operation on every usable buffer, drifted or not, does to it what it does to the index-free lagging queue, in every storage slot |
| LaggingQueue.ViewAnswer | include/ring_buffer.h:424-596 | and returns what it returns there |
| LaggingQueue.BufferIsLaggingQueue | include/ring_buffer.h:353-612 | so on every run at all every call returns what the lagging queue returns, and every storage slot ends up as it does there |
| LaggingQueue.LagIsOverwrites | include/ring_buffer.h:696-717 | the lag is the overwrites since the last clear, modulo the capacity |
| LaggingQueue.OverwriteMovesUp | include/ring_buffer.h:353-361 | an insertion into any full buffer: every element moves up by one, the oldest is gone, and the last one and `back` are the new value |
| LaggingQueue.InsertGoesBehind | include/ring_buffer.h:361-367 | an insertion into any buffer with room: the value goes `lag` places behind the place after the last element, counting round, `back` finds it, and every other element stays |
| LaggingQueue.BackReadsBehind | include/ring_buffer.h:474-514 | in every reachable buffer with elements `back` is the newest element after an overwrite, and else the one `overwrites % capacity` places before the newest, or, if that is before the oldest, a slot outside the window |
| Lifetimes.TouchesAccount | include/ring_buffer.h:353-436 | the constructions, assignments, moves and destructions of an operation account for its whole effect on storage and count |
| Lifetimes.StepLawfulIff | include/ring_buffer.h:353-436 | when the live slots are the window, an operation touches only slots in the state it needs, if and only if it is not an insertion into a buffer with room whose tail lies inside the window |
| Lifetimes.TailInWindowIff | include/ring_buffer.h:696-717 | in a buffer with room the tail lies inside the window if and only if the overwrites since clear leave a remainder between 1 and the size |
| Lifetimes.StepLawfulByCounting | include/ring_buffer.h:353-436 | the same condition on an operation, from what a caller can count |
| Lifetimes.RunAccounts | include/ring_buffer.h:353-436 | over every run constructions minus destructions is the change of the count |
| Lifetimes.RunValues | include/ring_buffer.h:353-436 | over every run each inserted value is constructed or assigned once, in order, assigned exactly where `push_back` meets a full buffer, and each removal returns what it moves out of a slot |
| Lifetimes.DestructionsEffect | include/ring_buffer.h:601-612 | the clearing loop destroys each window slot exactly once |
| ObjectRuns.LawfulIffObjectsSafe | include/ring_buffer.h:353-612 | on every run, in step or not, each touch constructs on raw storage only and assigns, moves out of and destroys objects only, if and only if at every call the counts say so: with `d` the overwrites since clear and `p`, `q` the removals and insertions since the last overwrite or clear, all modulo the capacity, an insertion into room needs `q < d` to imply `size < d`, a removal needs `p < q` to imply `d < size`, and a clear of elements needs `d` or `q` to be 0 |
| ObjectRuns.LifetimesLawfulIff | include/ring_buffer.h:337-344 | the same of a run followed by the destructor; every such life balances constructions and destructions, and a lawful one leaves no object |
| ObjectRuns.ClearLeavesNothingByCounting | include/ring_buffer.h:601-612 | after a run that was lawful so far, clearing leaves storage without any object, as in a new buffer, if and only if the buffer is empty or `d` or `q` is 0 |
| ObjectRuns.LifetimeDiscipline | include/ring_buffer.h:337-344 | so a run in step followed by the destructor is lawful, balanced, and leaves no object |
| ObjectRuns.LawfulOutOfStep | include/ring_buffer.h:353-436 | being in step is sufficient for lawful touches, not necessary: capacity 2, three pushes, two pops and two pushes out of step construct on raw slots only, and end full of objects in the wrong order |
| SlidingWindow.SlidingWindowAfter | include/ring_buffer.h:353-514 | after any number of insertions into a buffer with no elements at slot 0 (new, or just cleared, whatever objects the clear left): the last `capacity` values in order, the j-th in slot `j % capacity`, `front` the oldest, `back` the newest |
| SlidingWindow.SlidingWindowAfterClear | include/ring_buffer.h:601-612 | the same after any run at all and a clear |
| SlidingWindow.DrainReturnsItems | include/ring_buffer.h:424-436 | popping until empty returns exactly the elements in order, wherever the tail stands |
| SlidingWindow.ClearStartsAfresh | include/ring_buffer.h:601-612 | clearing a buffer that holds its elements gives an empty one at slot 0 with no overwrites counted, where the sliding window starts again |
| SlidingWindow.ClearResynchronises | include/ring_buffer.h:601-612 | after any run, in step or not, and a clear, every later run returns what it returns on a new buffer and ends with the same window |
| CopyMove.CopyEqualIff | include/ring_buffer.h:218-234 | a copy of a source whose objects are its elements has the same elements if and only if head is 0 or the source is full or empty; otherwise some copied slot held no object |
| CopyMove.CopyEqualByCounting | include/ring_buffer.h:218-234 | after a run in step, a copy has its source's elements if and only if the removals and overwrites since clear are a multiple of the capacity, or the source is full or empty |
| CopyMove.CopyEqualExactly | include/ring_buffer.h:218-234 | of any source, drifted or not: the windows are equal if and only if no object of the source's window lies beyond the first `count` slots |
| CopyMove.DriftedCopyWitness | include/ring_buffer.h:218-234 | capacity 3, push 1 to 4, pop, push 5, pop, pop: neither head 0 nor full nor empty, and yet the copy's window is the source's, a slot without object |
| CopyMove.CopyBackIff | include/ring_buffer.h:218-234 | a copy keeps the drift law but forgets the overwrite mark, so its `back` reads the newest slot if and only if the source was in step |
| CopyMove.CopyRefines | include/ring_buffer.h:218-234 | such a copy then behaves like the bounded queue, call by call and in what it holds, as long as insertions are in step |
| CopyMove.CopyIsLagging | include/ring_buffer.h:218-234 | a copy of any source, drifted or not, goes on as the lagging queue in which only the first `count` storage slots hold objects |
| CopyMove.MoveIsLagging | include/ring_buffer.h:239-256 | a moved buffer goes on as its source's lagging queue, under the mark it was given |
| CopyMove.CopyWitness | include/ring_buffer.h:229-233 | capacity 3, push 1, push 2, pop: the copy has lost its element |
| CopyMove.MoveHoldsIff | include/ring_buffer.h:239-256 | a moved buffer holds the same items; it obeys the drift law with the mark it was given if and only if the mark is off, the buffer is empty, or it is full and the mark names its newest slot |
| CopyMove.MoveBackIff | include/ring_buffer.h:301-332 | after a move `back` reads the newest slot if and only if the target's kept mark names it, or there is no mark and the source was in step |
| CopyMove.MoveAssignWitness | include/ring_buffer.h:301-332 | move assignment from capacity 1 to a buffer of capacity 3 that has just overwritten its last slot: `back` reads a slot that does not exist |
| RingBuffers.RingBuffer.constructor | include/ring_buffer.h:197-213 | a new buffer is empty, at slot 0, with its own storage |
| RingBuffers.RingBuffer.Create | include/ring_buffer.h:197-213 | capacity 0 is refused, and only capacities that cannot be allocated fail otherwise |
| RingBuffers.RingBuffer.IncrementHead | include/ring_buffer.h:678-691 | the in-place update is the model's |
| RingBuffers.RingBuffer.OverwriteAdvanceHead | include/ring_buffer.h:696-703 | the in-place update is the model's |
| RingBuffers.RingBuffer.IncrementTail | include/ring_buffer.h:708-717 | the in-place update is the model's |
| RingBuffers.RingBuffer.PushBack | include/ring_buffer.h:353-390 | the whole new state, and what it means on any buffer: full, every element moves up and the value is last; with room, it goes behind by the lag and the others stay; `back` is the value; and where the objects are the elements the result is the queue with the item added if and only if the buffer was full or aligned |
| RingBuffers.RingBuffer.EmplaceBack | include/ring_buffer.h:400-416 | the whole new state, the same as for `PushBack`, and the same meaning on any buffer |
| RingBuffers.RingBuffer.PopFront | include/ring_buffer.h:424-436 | throws on empty and changes nothing, else hands out the front slot and destroys it; on the lagging queue, the first place goes and the others move up |
| RingBuffers.RingBuffer.Front | include/ring_buffer.h:444-466 | throws on empty, else the head slot |
| RingBuffers.RingBuffer.Back | include/ring_buffer.h:474-514 | throws on empty, else the overwrite position or the slot before the tail: what the lagging queue reads, in step or not |
| RingBuffers.RingBuffer.At | include/ring_buffer.h:523-546 | throws past the count, else the slot `index` places after the head |
| RingBuffers.RingBuffer.Available | include/ring_buffer.h:593-596 | free slots and elements add up to the capacity, and none is free exactly when full |
| RingBuffers.RingBuffer.Clear | include/ring_buffer.h:601-612 | every window slot destroyed, indices and flags reset, the overwrite mark kept |
| RingBuffers.RingBuffer.Copy | include/ring_buffer.h:218-234 | own storage, the first `count` slots of the source, everything else raw |
| RingBuffers.RingBuffer.CopyAssign | include/ring_buffer.h:261-296 | self-assignment changes nothing; else old elements destroyed, fresh storage, source unchanged |
| RingBuffers.RingBuffer.Move | include/ring_buffer.h:239-256 | storage and state change owner, the source is empty with capacity 0 |
| RingBuffers.RingBuffer.MoveAssign | include/ring_buffer.h:301-332 | the same after destroying the target's elements once, with the target's overwrite mark kept |
| RingBuffers.Swap | include/ring_buffer.h:239-332 | exchanging by one move construction and two move assignments: contents and storage change sides and each buffer keeps its own overwrite mark, so `back` then reads the newest slot if and only if that mark names it, or there is none and the elements came aligned |
| RingBuffers.SwapTwice | include/ring_buffer.h:239-332 | exchanging twice changes nothing, marks and storage included |
| RingBuffers.RingBuffer.Execute | include/ring_buffer.h:353-612 | any one operation on the buffer in place is the model's step, with the model's result |
| RingBuffers.Interleave | include/ring_buffer.h:353-612 | two buffers with separate storage under any interleaving: each goes through exactly its own operations and returns what these return |
| RingBuffers.CopiesAreIndependent | include/ring_buffer.h:218-234 | whatever is later done to copy and source in any order, each goes through its own operations only, from the copied and from the source's old state |
| RingBuffers.AssignedIsIndependent | include/ring_buffer.h:261-296 | the same after copy assignment |
| RingBuffers.RingBuffer.Traverse | include/ring_buffer.h:619-672 | from begin to end takes `count` steps, never leaves the range, and visits the elements in order |
| RingBuffers.Iterator.Dereference | include/ring_buffer.h:90-93 | the element `operator[]` gives at the iterator's index |
| RingBuffers.Iterator.PostIncrement | include/ring_buffer.h:106-111 | advances and returns a separate iterator at the old place |
| Monitor.MutualExclusion | include/thread_safe_ring_buffer.h:77-150 | in every reachable state at most one thread is between taking and releasing the mutex |
| Histories.TookEffectInside | include/thread_safe_ring_buffer.h:77-227 | every returned call took effect at one moment between call and return, with the result it returned |
| Histories.Conservation | include/thread_safe_ring_buffer.h:77-227 | accepted values are the removed or cleared ones followed by the contents, in order |
| Histories.AddsFit | include/thread_safe_ring_buffer.h:77-196 | in whatever explains a run without removals, at most `capacity` insertions return as done |
| Safety.NothingLost | include/thread_safe_ring_buffer.h:77-249 | with a lone timed inserter, or none: no insertion meets a full ring, drift stays 0, and nothing is lost, duplicated or reordered in any run |
| Safety.NeverFindsEmpty | include/thread_safe_ring_buffer.h:236-249 | with a lone timed remover, or none: a removal past its guard finds an element in every run |
| Safety.SafeRunsLinearize | include/thread_safe_ring_buffer.h:77-413 | under safe rights every run is linearizable to the bounded queue, explained by the points at which its calls take effect |
| Races.NeverOverwritesIff | include/thread_safe_ring_buffer.h:160-196 | no run overwrites if and only if a timed inserter is the only inserter |
| Races.NeverFindsEmptyIff | include/thread_safe_ring_buffer.h:236-249 | no timed removal finds the ring empty if and only if it is the only remover, or nobody inserts |
| Races.LinearizableIffSafe | include/thread_safe_ring_buffer.h:77-413 | the calls, returns and results of every run of any number of threads can be explained by some choice of effect points if and only if both conditions hold |
| Wakeups.NoLostWakeup | include/thread_safe_ring_buffer.h:77-249 | under wakeful rights, while somebody sleeps, the supply is at most the woken threads that are yet to use some of it (watchers do not count) plus the notifications still owed; or, for free slots, a clear is about to wake everybody |
| LostWakeups.WakeupsKeptIff | include/thread_safe_ring_buffer.h:77-413 | no run loses a wake-up if and only if the rights are wakeful, for both condition variables and every capacity |
| LostWakeups.UnlockedSupplierLosesWakeup | include/thread_safe_ring_buffer.h:236-249 | a thread about to sleep beside an unlocked timed call can be left asleep beside a free slot or an element |
| LostWakeups.WatcherLosesWakeup | include/thread_safe_ring_buffer.h:396-413 | a watcher can take the only wake-up and leave another thread asleep |
| LostWakeups.TimedRemovalStrandsInserter | include/thread_safe_ring_buffer.h:236-249 | at every capacity, a blocking inserter beside that many timed removers can be left asleep beside an empty buffer for as long as new calls only look for elements and there is no spurious wake-up |
| Progress.InternalStepLowers | include/thread_safe_ring_buffer.h:77-413 | every step but a new call, a spurious wake-up or a time-out lowers a well-founded rank, so calls cannot go round for ever |
| Progress.StandstillIff | include/thread_safe_ring_buffer.h:77-413 | no such step is possible if and only if every thread is idle, asleep, or kept out of an owned mutex |
| Progress.Settle | include/thread_safe_ring_buffer.h:77-413 | from every orderly state some run of such steps ends at a standstill |
| Progress.NobodyMissedIff | include/thread_safe_ring_buffer.h:77-413 | no run comes to a standstill with somebody asleep beside what it waits for, if and only if the rights are wakeful |
| Progress.AlwaysDrains | include/thread_safe_ring_buffer.h:77-227 | from every reachable state of locked callers with one polling remover, some run without spurious wake-ups ends with all calls returned and the buffer empty |
| CriticalSections.RingBufferThreadSafe.Decide | include/thread_safe_ring_buffer.h:77-249 | what a call decides under the mutex from the buffer in place is the protocol's guard: it waits exactly while what it waits for is missing and its time is not over, goes ahead exactly with what changes the buffer (also a clear of an empty one), and else answers what is promised |
| CriticalSections.RingBufferThreadSafe.Perform | include/thread_safe_ring_buffer.h:77-249 | what a call then does to the buffer in place is the protocol's change, with its result, and as promised if what the guard found is still there |
| Calls.GuardMeans | include/thread_safe_ring_buffer.h:77-413 | the guard waits, goes ahead and answers exactly when and as the promise says |
| Calls.CallKeepsPromise | include/thread_safe_ring_buffer.h:77-413 | from every state with a free mutex, a call that need not wait goes by its thread's own steps to its return, with the promised change, result and wake-ups, whichever sleeper is chosen, and changes nothing else |
| Calls.CallSleeps | include/thread_safe_ring_buffer.h:77-249 | and a call that has to wait goes to sleep and changes nothing else |
| Calls.OwnStepForced | include/thread_safe_ring_buffer.h:77-413 | a thread's next step is forced, up to whom a notification chooses, so there is no other way for it |
| Calls.TimeOutEnds | include/thread_safe_ring_buffer.h:160-249 | after a time-out, every timed call returns by its thread's own steps: false, or nothing, if and only if what it waits for is still missing, and then it has changed nothing and woken nobody |
| Calls.WokenForNothingSleepsOn | include/thread_safe_ring_buffer.h:160-249 | a thread woken spuriously while that is missing sleeps on, and nothing has changed |
| Calls.FailsOnlyAfterTimeOut | include/thread_safe_ring_buffer.h:160-249 | in no run does a thread whose time is never over return such a failure |
| Calls.ClearWakesAll | include/thread_safe_ring_buffer.h:383-388 | a clear, also of an empty buffer, returns with the buffer empty and wakes everybody who sleeps for room, and nobody else |
| Calls.ClearEndsStranding | include/thread_safe_ring_buffer.h:383-388 | so it ends every stranding: the inserter goes on, inserts and returns |

## Left out

- Undefined behaviour: reading a slot that holds no object gives a result of its own, `Undefined`, and storage operations on a slot in the wrong state have their plain effect on it; what a compiler makes of such a run is not modelled.
- RingBuffers.RingBuffer.PushBack: requires a buffer that owns storage; the code does not check for a moved-from buffer, and inserting into one is undefined.
- RingBuffers.RingBuffer.Create: one result stands for every way an allocator refuses a capacity beyond 2^63; other allocation failures, allocator propagation and exceptions thrown by elements are not modelled.
- RingBuffers.RingBuffer.Traverse: iterators are not modelled across changes of the buffer, and the conversion to a const iterator is left out because it reads private members.
- Monitor.MutualExclusion: steps are sequentially consistent, and the unlocked change of a timed call is one step; the memory model below that is not modelled.
- LostWakeups.TimedRemovalStrandsInserter: sufficient only; nothing is claimed of fewer timed removers than the capacity.
- Progress.AlwaysDrains: says that a finishing run exists, not that a scheduler takes it; fairness of the mutex and of the choice among sleepers is not modelled.
- References returned by the wrapper's `front`, `back` and `operator[]` after the mutex is released: they are modelled as the value at that moment.
- Clocks and durations: a time-out is a step that may happen whenever a timed wait sleeps.
- `TypeTraits`, `include/ring_buffer_to_string.h`, the examples and the benchmarks: no protocol or state of their own.
