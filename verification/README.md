# OpenPA: proofs about the Nemesis queue and the atomic primitives

This project models the concurrent core of OpenPA and proves what it promises, for every number of threads and every
interleaving of their accesses to shared memory.

**The queue** (`src/opa_queue.h`). Producers clear `next`, swap themselves into `tail` and link themselves in only
afterwards; one consumer pulls `head` into `shadow_head` in two steps, closes the queue with a CAS of `tail`, and spins
while a producer has swapped but not linked.

- `QueueProtocol`: the step system, one step for each shared access; `QueueInvariant`: its invariant, in which every link
  that is missing is owed by exactly one producer; `QueueTheorems`: order, shape of the list, isolation of returned elements,
  the end of the spin loop, the exact meaning of `is_empty`.
- `QueueThreads`: enqueue, is_empty, peek_head and dequeue as statements of a thread, with all other threads acting in between;
  each statement is shown to be a step of the system. `OpaQueue`: the queue as one thread uses it, on heap nodes.
- `QueueTso`, `QueueTsoRefinement`, `QueueTsoTheorems`: the queue with per-thread store buffers, as on x86. Every
  buffered run is, seen through its buffers, a run of the unbuffered system.
- `QueueByLock`, `QueueByLlsc`: the queue with the swap and the CAS of `tail` expanded into the critical sections of
  the lock-based primitives, or into weak LL/SC loops.
- `QueueLateClear`: without the write barrier of enqueue the consumer can get stuck for ever. `QueueEmptyWitness`:
  `is_empty` can return 1 although an enqueue has finished and its element is in the queue.
- `RelAddr`: relative pointers.

**The primitives** (`src/primitives/opa_emulated.h`, `src/primitives/opa_by_lock.h`). `AtomicSpec` says what each operation
means and what linearizability is: one history, legal for the reference, that holds every call of every thread once, in the
thread's order and in the order of time across threads. `LlscLoops` (weak LL/SC), `CasLoops` (CAS) and `LockOps` (lock,
accesses and unlock as separate steps) each refine it step by step. `RetryLoops` and `LockThreads` have the same code as
statements of one thread among others. `Conservation` draws consequences for whole histories and for what all threads together
have called and got back, modulo 2^32; `Readings` says what every result is, told by the other results of the run. `Sums` holds sums
over threads. The machines are complete, too: whatever the atomic machine or the queue with one-step primitives can do, they can do
(`Complete`, `KComplete`, `MComplete`, `TComplete`).

**The protocols of the test programs** (`test/test_primitives.c`). `LlscStack`, `StackPushers` and `StackThreads` (the LL/SC stack), `StackWalk` (its
final walk), `CasRing` (the CAS tests) and `AbaHandshake` (the LL/SC ABA test). The tests look at a few thread counts; the lemmas hold for all.

Conditions on the callers, where a model has them, are those of the source: one consumer; `is_empty` has returned 0 since the
last `dequeue` before a `dequeue`; an element is enqueued only when nobody has it (`QueueProtocol.Free`); no element lies at
the base address.

Results where the code differs from what one might expect:

- `is_empty` is not exact. It returns 1 also when elements are in the queue and the first one's producer has not stored `head`
  yet, even if later enqueues have finished. `QueueTheorems.EmptyExactly` gives the exact condition, `QueueEmptyWitness.EmptyAlthoughEnqueued`
  the run.
- The reference's `decr_and_test` tests the new value for 0, the emulated one the old value for 1. They agree for all
  values, wrap-around included (`Emulated.KernelMeetsReference`).
- The comment at `src/opa_queue.h:187-190` forbids any operation on the queue between `is_empty` and `peek_head`. Enqueues by
  other threads do no harm (`QueueTheorems.ReadyStays`, `QueueTheorems.PeekIsNext`).

## Model

| member | source | states |
|---|---|---|
| `QueueInvariant.StepInv` | src/opa_queue.h:220-284 | every access of every thread keeps the invariant: tail is the last of the queue, each neighbouring pair is linked or owed by exactly one producer between swap and link, the front is reachable in exactly one way, and no element is in two hands |
| `QueueInvariant.RunInv` | src/opa_queue.h:166-284 | the invariant holds in every state of every run, for any number of producers and any elements, enqueued again or not |
| `QueueInvariant.InitInv` | src/opa_queue.c:29-34 | OPA_Queue_init establishes the invariant, whatever the next fields hold |
| `QueueInvariant.StepQueue` | src/opa_queue.h:229-279 | only a tail swap adds to the queue, at its end, and only the step that takes shadow_head or tail past the front removes, the front |
| `QueueInvariant.SwapInv` | src/opa_queue.h:229 | swapping into tail opens one gap at the end of the list, owed by the swapper, and keeps the rest |
| `QueueInvariant.LinkInv` | src/opa_queue.h:231-237 | linking closes exactly the gap that the producer owes, through head or through the predecessor's next |
| `QueueInvariant.TransferInv` | src/opa_queue.h:171-175 | the test of head and the two-step transfer from head to shadow_head keep the invariant at each step |
| `QueueInvariant.CloseInv` | src/opa_queue.h:272-274 | the CAS of tail empties a one-element queue, or loses exactly when a later element has been swapped in |
| `QueueInvariant.AdvanceInv` | src/opa_queue.h:264-278 | moving shadow_head to next takes the front out and leaves the rest of the list right |
| `QueueTheorems.Fifo` | src/opa_queue.h:229-283 | in every run what has been returned is a prefix of what has been taken out, that of what has been swapped in, in this order; per producer it is a prefix of its program order |
| `QueueTheorems.RunOrder` | src/opa_queue.h:223-229 | every producer's elements are swapped in once each and in its program order |
| `QueueTheorems.Drained` | test/test_queue.c:238-279 | when all calls are over and tail is null, every enqueued element has been returned once, per producer in order |
| `QueueTheorems.ListShape` | src/opa_queue.h:225-237 | tail is the last of the queue; each pair of neighbours is linked and owed by nobody, or unlinked and owed by exactly one producer; the last next is null |
| `QueueTheorems.PendingUnique` | src/opa_queue.h:229-237 | two producers past their swaps never have the same element or the same predecessor |
| `QueueTheorems.OneWayToFront` | src/opa_queue.h:165-179 | exactly one of shadow_head, head, the consumer's hand and one stalled producer leads to the front |
| `QueueTheorems.OneHeadWriter` | src/opa_queue.h:231-232 | at most one producer is about to store head, and while one is, head and shadow_head are null and the consumer is not in the transfer |
| `QueueTheorems.ReturnedIsIsolated` | src/opa_queue.h:264-283 | head, tail, shadow_head, the next of queued elements and all producers have let go of a returned element, and its next is null |
| `QueueTheorems.SpinIsOwed` | src/opa_queue.h:274-277 | a spinning consumer waits for exactly one producer; that producer's link is enabled and nobody else can take it away |
| `QueueTheorems.SpinEnds` | src/opa_queue.h:274-278 | in every run that lets that producer link, the wait is over then, and the next test leaves the loop |
| `QueueTheorems.LinkEndsWait` | src/opa_queue.h:235-236 | the link step makes the consumer's next test of next succeed |
| `QueueTheorems.EmptyExactly` | src/opa_queue.h:166-179 | at its test of head is_empty returns 1 if and only if the queue is empty or the front's producer has not stored head yet |
| `QueueTheorems.EmptyWhenQuiet` | src/opa_queue.h:166-179 | with no producer between swap and link, a whole call returns 1 if and only if the queue is empty |
| `QueueTheorems.DequeueWhenQuiet` | src/opa_queue.h:256-284 | with no producer between swap and link, a call that nobody interrupts returns the front in at most six accesses |
| `QueueTheorems.ReadyStays` | src/opa_queue.h:187-190 | after a 0 result shadow_head is the front, and no run of producer steps changes that |
| `QueueTheorems.PeekIsNext` | src/opa_queue.h:196-204 | peek_head names the element that the next dequeue returns, whatever the others do meanwhile |
| `QueueEmptyWitness.EmptyAlthoughEnqueued` | src/opa_queue.h:166-179 | a run in which is_empty begins after a finished enqueue whose element is still in the queue, and returns 1 |
| `QueueThreads.SharedQueue.constructor` | src/opa_queue.c:29-34 | the initial state is one of the step system with any elements and threads |
| `QueueThreads.SharedQueue.Enqueue` | src/opa_queue.h:220-238 | with all others acting between the accesses, the element is swapped in once, as the latest of its producer's, and the producer owes no link in the end |
| `QueueThreads.SharedQueue.IsEmpty` | src/opa_queue.h:166-179 | with producers acting between the accesses: true only if the queue is empty or its front's producer has not stored head yet, false only with the front in shadow_head and the consumer entitled to dequeue |
| `QueueThreads.SharedQueue.PeekHead` | src/opa_queue.h:196-204 | after is_empty has returned 0, the result is the front of the queue |
| `QueueThreads.SharedQueue.Dequeue` | src/opa_queue.h:256-284 | with producers acting between the accesses, returns the front as of the call, isolated, as the one newly returned element, and the rest of the queue stays in place with only new elements behind it; or is still in the busy-wait loop, and then the producer that owes the link has not been asked to store it in any turn |
| `QueueThreads.SharedQueue.Spin` | src/opa_queue.h:275-278 | the loop goes on exactly until next is not null or the script ends; it ends if the owing producer is asked to link in any turn |
| `OpaQueue.Queue.constructor` | src/opa_queue.c:29-34 | an empty valid queue |
| `OpaQueue.Element.constructor` | src/opa_queue.c:36-39 | a new element has a null next |
| `OpaQueue.Queue.Enqueue` | src/opa_queue.h:220-238 | on heap nodes: appends the element; only its next and the last element's next change |
| `OpaQueue.Queue.IsEmpty` | src/opa_queue.h:166-179 | on heap nodes: true if and only if the queue is empty; otherwise the front moves to shadow_head; contents stay |
| `OpaQueue.Queue.PeekHead` | src/opa_queue.h:196-204 | on heap nodes: the front, or null if shadow_head is null |
| `OpaQueue.Queue.Dequeue` | src/opa_queue.h:256-284 | on heap nodes: takes out and returns the front, with null next, and nothing in the queue refers to it |
| `OpaQueue.FillAndDrain` | test/test_queue.c:238-279 | whatever is enqueued comes out in the same order and leaves the queue empty; each peek names the next dequeue's element |
| `QueueTsoRefinement.StepSimulates` | src/opa_queue.h:225-281 | with store buffers every step is, seen through the buffers, one step of the unbuffered queue or none |
| `QueueTsoRefinement.TStepInv` | src/primitives/opa_gcc_intel_32_64_ops.h:137-161 | every program step and every arrival of a buffered store keeps the invariant of queue and buffers |
| `QueueTsoTheorems.TRunRefines` | src/opa_queue.h:220-284 | every run with store buffers is a run of the unbuffered queue |
| `QueueTsoTheorems.TComplete` | src/opa_queue.h:220-284 | and every run of the unbuffered queue is possible with store buffers, so the two machines have the same behaviour |
| `QueueTsoTheorems.Drain` | src/primitives/opa_gcc_intel_32_64_ops.h:137-161 | from every state all buffered stores can reach memory, with no step of a thread |
| `QueueTsoTheorems.TFifo` | src/opa_queue.h:229-283 | the orders hold with store buffers, per producer over what its program has begun to enqueue |
| `QueueTsoTheorems.HeadResetLands` | src/opa_queue.h:175 | while the reset of head is buffered, tail in memory is not null and no store to head is pending or about to be issued |
| `QueueTsoTheorems.FreeIsClean` | src/opa_queue.h:281-283 | once a returned element has been handed on, no store to its next is left in any buffer |
| `QueueTsoTheorems.TSpinEnds` | src/opa_queue.h:274-278 | in every run with store buffers in which the owing producer's link store is issued and reaches memory, the wait is over then, whatever happens before |
| `QueueLateClear.StuckForEver` | CHANGELOG:39-43 | if the clear of next may land late: once the consumer spins on a link that nobody owes, no run of anybody ever lets it return |
| `QueueLateClear.StuckReachable` | src/opa_queue.h:225-227 | without the barrier such a state is reachable from the initial state with two producers |
| `QueueByLock.KStep` | src/primitives/opa_by_lock.h:101-122 | with lock, read, compare, write and unlock of tail as separate steps, each step is one step of the queue or none |
| `QueueByLock.KRunRefines` | src/primitives/opa_by_lock.h:178-186 | every run over the lock-based swap and CAS is a run of the queue with one-step swap and CAS |
| `QueueByLock.KComplete` | src/primitives/opa_by_lock.h:101-196 | and every run of the queue is possible over the lock: each section ends and gives the lock back |
| `QueueByLock.KSectionEnds` | src/primitives/opa_by_lock.h:101-196 | from every reachable state the holder of the lock gets out of its primitive alone |
| `QueueByLock.KFifo` | src/opa_queue.h:229-272 | order and invariant of the queue hold over the lock-based primitives |
| `QueueByLlsc.MStep` | src/primitives/opa_emulated.h:61-68 | with the swap and CAS of tail as weak LL/SC loops, each access is one step of the queue or none |
| `QueueByLlsc.MRunRefines` | src/primitives/opa_emulated.h:80-87 | every run over weak LL/SC is a run of the queue with one-step swap and CAS |
| `QueueByLlsc.MComplete` | src/primitives/opa_emulated.h:61-87 | and every run of the queue is possible over weak LL/SC |
| `QueueByLlsc.MFinishesAlone` | src/primitives/opa_emulated.h:61-87 | from every reachable state a thread in a loop on tail that runs alone gets out of it in at most three accesses, with the one step's effect |
| `QueueByLlsc.MFifo` | src/opa_queue.h:229-272 | order and invariant of the queue hold over weak LL/SC |
| `AtomicSpec.LinearizedRun` | src/primitives/opa_by_lock.h:39-54 | in every state that one-step operations reach, one legal history holds every call once and nothing else, with its result and in its thread's order, and it only grows |
| `AtomicSpec.RealTimeOrder` | src/primitives/opa_by_lock.h:39-54 | between any two such states of a run, every call that had returned in the earlier one stands in the history before every call, of any thread, that was invoked after it |
| `Readings.TellsInitialAlways` | src/primitives/opa_by_lock.h:94-196 | in every legal history a load, fetch operation, CAS or swap that only additive operations precede returns the initial value plus what they add, modulo 2^32; decr_and_test returns true exactly if that sum less one is 0 |
| `Readings.TellsLastAlways` | src/primitives/opa_by_lock.h:56-196 | every such result is what an earlier call has left, told by that call's operands and result, plus what has been added in between |
| `Readings.LoadAfter` | src/primitives/opa_by_lock.h:56-86 | a load directly after a store or a swap returns what that has stored, and after a CAS the new value exactly if the CAS has returned the expected one |
| `Readings.LlscTells` | src/primitives/opa_emulated.h:19-96 | the same for every run over weak LL/SC |
| `Readings.CasTells` | src/primitives/opa_emulated.h:100-190 | the same for every run over CAS |
| `Readings.LockTells` | src/primitives/opa_by_lock.h:94-196 | the same for every run under the lock |
| `Emulated.KernelMeetsReference` | src/primitives/opa_emulated.h:28-59 | each operation served by a loop stores and returns what the reference does, decr_and_test's test of prev == 1 included |
| `LlscLoops.StepRefines` | src/primitives/opa_emulated.h:19-96 | each access over weak LL/SC is one atomic step or none, with spurious failures and lost reservations |
| `LlscLoops.RunRefines` | src/primitives/opa_emulated.h:19-96 | every run of the LL/SC loops is a run of the atomic machine over exactly the events that its steps stand for: the effect of a call at its successful SC, or at the LL of a CAS that mismatches, and none at any other step |
| `LlscLoops.TakeEvent` | src/primitives/opa_emulated.h:19-96 | an LL followed at once by an SC that does not fail for no reason brings any waiting call to its return, with the reference's effect and result |
| `LlscLoops.Complete` | src/primitives/opa_emulated.h:19-96 | every run of the atomic machine, with the same calls, results and history, is possible on this one |
| `LlscLoops.FinishesAlone` | src/primitives/opa_emulated.h:19-96 | from every reachable state a thread in a call that runs alone is through after at most three accesses, with one effect and the reference's result |
| `LlscLoops.Linearizable` | src/primitives/opa_emulated.h:19-96 | any mix of the operations by any number of threads: each call takes effect once and returns the reference's result, in one history that keeps the order in time across threads, seen from every point of the run |
| `CasLoops.StepRefines` | src/primitives/opa_emulated.h:100-111 | a CAS that finds its expected value is the whole operation, despite ABA |
| `CasLoops.RunRefines` | src/primitives/opa_emulated.h:166-190 | every run of the CAS loops and the thin calls is a run of the atomic machine over exactly the events of its steps: the effect at the CAS that succeeds, or at the one access of a call without a loop |
| `CasLoops.Complete` | src/primitives/opa_emulated.h:100-190 | every run of the atomic machine, with the same calls, results and history, is possible on this one |
| `CasLoops.FinishesAlone` | src/primitives/opa_emulated.h:105-108 | from every reachable state a thread in a loop that runs alone is through after at most two attempts, with one effect and the reference's result |
| `CasLoops.Linearizable` | src/primitives/opa_emulated.h:100-190 | the same linearizability, order in time included, for the CAS loops |
| `CasLoops.FailsBounded` | src/primitives/opa_emulated.h:105-108 | in every run of n threads the attempts of a thread that do not find the expected value are at most the steps of the other threads that change the value |
| `LockOps.StepRefines` | src/primitives/opa_by_lock.h:94-196 | lock, first read, second read, write and unlock as interleaved steps: each is one atomic step or none, and the lock is held by exactly the thread that is inside |
| `LockOps.RunRefines` | src/primitives/opa_by_lock.h:94-196 | every run of the lock-based operations is a run of the atomic machine over exactly the events of its steps: the effect at the write |
| `LockOps.Complete` | src/primitives/opa_by_lock.h:94-196 | every run of the atomic machine, with the same calls, results and history, is possible on this one: sections end and the lock is free again |
| `LockOps.SectionEnds` | src/primitives/opa_by_lock.h:94-196 | from every reachable state the thread in the section leaves it alone, and then the lock is free |
| `LockOps.Linearizable` | src/primitives/opa_by_lock.h:39-196 | the same linearizability, order in time included, for the lock-based operations |
| `LockThreads.SharedWord.Reachable` | src/primitives/opa_by_lock.h:39-54 | at every point of a call the history of all threads is linearizable, and one thread at a time is in the section |
| `LockThreads.SharedWord.FetchAndAdd` | src/primitives/opa_by_lock.h:141-149 | with all other threads trying to step between lock, both reads, write and unlock: gets the lock exactly if it is free after one of the turns; then takes effect exactly once, returns, and does not hold the lock any more; else has had no effect |
| `LockThreads.SharedWord.AddTwice` | src/primitives/opa_by_lock.h:141-149 | two undisturbed calls in a row return the old value and the first sum, leave the second, and the lock is free |
| `LockThreads.SharedWord.DecrementAndTest` | src/primitives/opa_by_lock.h:125-132 | the same for the test of the new value |
| `LockThreads.SharedWord.CompareAndSwap` | src/primitives/opa_by_lock.h:112-123 | the same for compare-and-swap, whether it matches or not |
| `LockThreads.SharedWord.SwapWith` | src/primitives/opa_by_lock.h:188-196 | the same for swap |
| `RetryLoops.FetchAndAddByLlsc` | src/primitives/opa_emulated.h:19-26 | for every environment the exact outcome: the call takes effect in the first undisturbed round; word, result and history are what the others' operations of the rounds so far, followed by this one, leave; without such a round they are what the others leave alone |
| `RetryLoops.LeftAlone` | src/primitives/opa_emulated.h:19-26 | left alone in its first round, a loop on LL/SC returns the value it has found and leaves the operation's result |
| `RetryLoops.OnlyOnce` | src/primitives/opa_emulated.h:19-26 | of the calling thread's operations, the history has got exactly one more |
| `RetryLoops.DecrAndTestByLlsc` | src/primitives/opa_emulated.h:55-59 | the loop's exact outcome, with the reference's result of decr_and_test |
| `RetryLoops.IncrByLlsc` | src/primitives/opa_emulated.h:34-37 | the loop's exact outcome, for an increment |
| `RetryLoops.CasByLlsc` | src/primitives/opa_emulated.h:70-77 | for every environment the exact outcome: takes effect in the first round in which it reads another value, at the LL, or is undisturbed, at the SC |
| `RetryLoops.CasLeftAlone` | src/primitives/opa_emulated.h:70-77 | left alone in its first round, the call returns what it has found, and stores exactly if that is the expected value |
| `RetryLoops.SwapByLlsc` | src/primitives/opa_emulated.h:89-96 | the exact outcome for the swap loop on LL/SC |
| `RetryLoops.FetchAndAddByCas` | src/primitives/opa_emulated.h:100-111 | for every environment the exact outcome: takes effect at the first attempt that finds the value left by the one before, also if the word has changed and changed back |
| `RetryLoops.CasLoopLeftAlone` | src/primitives/opa_emulated.h:100-111 | left alone before its first attempt, a loop on CAS returns the value it has found and leaves the operation's result |
| `RetryLoops.SwapByCas` | src/primitives/opa_emulated.h:179-190 | the exact outcome for the swap loop on CAS |
| `Conservation.SumKept` | src/primitives/opa_emulated.h:29-53 | after any history of loads and additive operations the word is the initial value plus all addends modulo 2^32 |
| `Conservation.OneZeroCrossing` | test/test_primitives.c:1129-1149 | of fewer than 2^32 decrements from s > 0 exactly one returns true if there are at least s, else none |
| `Conservation.DecrementTest` | test/test_primitives.c:1129-1149 | in every run over weak LL/SC, as soon as s decrements have taken effect, exactly one of them has the result true |
| `Conservation.ThreadsSum` | src/primitives/opa_emulated.h:29-53 | once all calls are over, the word is the initial value plus what all threads have invoked to add, modulo 2^32 |
| `Conservation.ThreadsDecrement` | test/test_primitives.c:1129-1149 | once all calls are over, the threads together have been told true once if they made at least s calls, else never |
| `Conservation.LlscConserves` | src/primitives/opa_emulated.h:19-96 | the sums, the single true and the swapped values, over what the threads have invoked and got back, in every complete run over weak LL/SC |
| `Conservation.CasConserves` | src/primitives/opa_emulated.h:100-190 | the same in every complete run over CAS |
| `Conservation.LockConserves` | src/primitives/opa_by_lock.h:94-196 | the same in every complete run under the lock |
| `Conservation.SwapsKept` | src/primitives/opa_by_lock.h:188-196 | in every history of swaps the values got out and the final word are, as a multiset, the values put in and the initial word |
| `Conservation.SwapTest` | test/test_primitives.c:3377-3399 | in every complete run over the CAS loop in which each thread swaps in what its last swap has returned, the shared and all local values are, as a multiset, the initial ones |
| `Conservation.RunSwaps` | test/test_primitives.c:3372-3399 | in any interleaving of one-step swaps each turn exchanges the thread's value with the shared one, and the shared and the local values stay the same multiset |
| `LlscStack.StepInv` | test/test_primitives.c:4248-4351 | every access keeps the stack's invariant: the chain is the history's stack, every object is in one place, standing reservations hold the top and its successor |
| `LlscStack.PopInv` | test/test_primitives.c:4318-4326 | a successful SC takes the top and installs its true successor |
| `LlscStack.PushInv` | test/test_primitives.c:4261-4268 | a successful CAS puts the pusher's object on top of the present chain |
| `LlscStack.StackIsConsistent` | test/test_primitives.c:4239-4354 | in every run the history is that of a stack, the chain finite and free of repetition, pushes minus pops its length, on_stack right, and no popper's check fails |
| `LlscStack.QuietStack` | test/test_primitives.c:4497-4503 | when all threads are done, on_stack is set exactly for the objects of the chain |
| `StackPushers.PoppersOutlast` | test/test_primitives.c:4278-4279 | in every run npushers is the number of pushers that are not done, 0 exactly if all are, and a popper is done only when all of them are |
| `StackPushers.CheckDecides` | test/test_primitives.c:4351 | a popper's check of npushers ends its routine if all pushers are done, and sends it to the next pop if not |
| `StackThreads.SharedStack.AcquireObject` | test/test_primitives.c:4249-4259 | sets on_stack of the thread's object and so owns it, exactly if the object is free after one of the turns of the others, else gives up |
| `StackThreads.SharedStack.PushObject` | test/test_primitives.c:4261-4268 | the push loop among arbitrary other threads: on success the object is the new top of the stack; one undisturbed round succeeds |
| `StackThreads.SharedStack.PopObject` | test/test_primitives.c:4309-4326 | one pop among arbitrary other threads: on success the object read at the LL was the top at the SC; undisturbed, it takes the top |
| `StackThreads.SharedStack.CheckAndRelease` | test/test_primitives.c:4327-4347 | a popped object is always found on the stack, and is free afterwards |
| `StackThreads.SharedStack.PushersLeft` | test/test_primitives.c:4351 | the loop's test: another round exactly if some pusher is not done |
| `StackThreads.SharedStack.StopPush` | test/test_primitives.c:4278-4279 | the thread is no longer one of those that are pushing; all others still are |
| `StackWalk.WalkStack` | test/test_primitives.c:4477-4503 | the walk ends, and passes if and only if some chain explains head, next and on_stack; it counts that chain's objects |
| `StackWalk.WalkAccepts` | test/test_primitives.c:4477-4513 | after every complete run of the stack test the walk's condition holds, with pushes minus pops objects on the chain |
| `CasRing.Ring.constructor` | test/test_primitives.c:2448-2454 | the ring starts balanced, at value 0 |
| `CasRing.Ring.Attempt` | test/test_primitives.c:2457-2459 | one iteration: advances the value and counts a success if it is the group's turn, else changes nothing; keeps the balance |
| `CasRing.Ring.Run` | test/test_primitives.c:2138-2149 | for any interleaving the final value, and for each thread as many more successes as it had turns while the value was its own; and the balance: some k with k+1 successes for the groups below the value and k for the others |
| `CasRing.BalancedStep` | test/test_primitives.c:2457-2459 | a success of the group whose turn it is moves the value on and keeps the balance, also at the wrap-around |
| `CasRing.PassesChecks` | test/test_primitives.c:2556-2579 | a balanced ring passes the checks of the test |
| `AbaHandshake.StepInv` | test/test_primitives.c:3776-3893 | every access of the two threads, spurious failures and lost reservations included, keeps them in step |
| `AbaHandshake.Handshake` | test/test_primitives.c:3798-3836 | over any number of iterations thread 0 sees the choice thread 1 acted on, SC succeeds only where nothing was changed and restored, and no check fails |
| `AbaHandshake.NeverBlocked` | test/test_primitives.c:3792-3889 | in every reachable state one of the two threads can get on |
| `AbaHandshake.WholeIteration` | test/test_primitives.c:3776-3893 | whatever thread 1 chooses, an iteration without lost reservations and spurious failures ends for both threads, and SC succeeds in it if and only if the value was left alone |
| `AbaHandshake.WhatIsFound` | test/test_primitives.c:3781-3824 | where thread 0 looks at the shared or the choice value, it always finds what the test expects |
| `RelAddr.RoundTrip` | src/opa_queue.h:65-81 | the conversions are inverse to each other modulo the word size, and exactly the base becomes null |
| `RelAddr.Displacement` | src/opa_queue.h:69-79 | the null offset is the base, and both conversions keep displacement: what lies d above an element lies d above its address, as the next field does |
| `RelAddr.Upwards` | src/opa_queue.h:69-79 | without wrap-around the offset is the distance upwards from the base |
| `RelAddr.SameLayout` | src/opa_queue.h:65-81 | two processes with different bases see the same layout, displacement by displacement |
| `RelAddr.SameElements` | src/opa_queue.h:223-262 | in every run the element one process enqueues at base1 + o is the one another dequeues at base2 + o, in the same order |

## Left out

- Memory models weaker than store buffering (Power, ARM, C11 relaxed): nothing in the source orders the reset of `head` before the CAS of `tail` there explicitly.
- Inline assembly and compiler intrinsics: LL, SC, CAS, swap and the barriers are taken as steps.
- The ia64 fetch-and-add: its fallback loop passes `val` instead of `prev + val` to the CAS (`src/primitives/opa_gcc_ia64.h:171`), so the refinement does not hold for it.
- `OPA_Interprocess_lock_init` and the pthread calls: the mutex is free or held by one thread.
- `src/primitives/opa_unsafe.h`, the build system, and the once-only check of `OPA_Shm_asymm_init`: easy members only.
- A consumer thread that also enqueues, under store buffers: the model gives each producer and the consumer a buffer of its own. Without store buffers one thread may play both parts.
- The pointer versions of CAS and swap in the primitives: the same loops as the integer versions, on another word. In the queue they act on `tail`.
- Plain loads and stores of the queue under the lock-based primitives are single steps.
- Thread counts, timing, yields, fairness figures and printing of the tests; the `failed` flag of the stack test, which only a million errors set, as errors are proved to be 0; the `nsuccess` counters of the stack test, which are the history's pushes and pops.
- Two models are step systems on values only, because what they promise is about two or more threads at once: the ABA handshake, and the primitives' machines (`LlscLoops`, `CasLoops`, `LockOps`), whose code also stands as statements in `RetryLoops` and `LockThreads`.
- QueueThreads.SharedQueue.Dequeue: the busy-wait loop ends with the script of the producers' turns, because without fairness the source's loop need not end; `QueueTheorems.SpinEnds` says when it does.
- RetryLoops.FetchAndAddByLlsc: the rounds are as many as the environment's script has, because weak LL/SC may fail without bound; the same holds for the other loops there.
- StackThreads.SharedStack.PushObject: likewise bounded by the turns of the other threads, and the pusher's bound on tries is the number of turns.
- LockThreads.SharedWord.FetchAndAdd: waits for the lock only as long as the script of the others' turns goes on, because nothing makes the holder release it; the same holds for the other operations there.
- OpaQueue.Queue.Dequeue: one thread alone, so that the branch that loses the CAS cannot happen and its busy-wait loop is not reached.
- QueueTheorems.SpinEnds: says that the wait is over when the owing producer has linked, not that a scheduler ever lets it.
