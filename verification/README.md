# Observer lists, callback lists, shared references and word arithmetic

This project models the parts of the vendored Chromium and WebRTC headers under `libwebrtc/` that carry full
bodies and are hard to get right, and proves what they promise about every input, every step and every run.
`dafny verify dfyconfig.toml` checks all of it.

## What is modelled

* **The re-entrant observer list** (`ObserverListSpec`, `ObserverLoops`, `ObserverLists`). A vector of slots, iterators
  that hold an index, marking instead of erasing while an iterator lives, compaction by the last iterator. The list
  refines an ordered set, and a complete loop visits exactly the slots that are unmarked at their turn, whatever
  nested loops, copies, additions, removals and clears its callbacks perform.
* **The callback list** (`CallbackListSpec`, `CallbackNotify`, `CallbackOrder`, `CallbackLists`), once and repeating. Subscriptions and list
  nodes correspond one to one in every state, the callbacks run by a whole `Notify` are given by one equation, and they run
  in order of registration.
* **The thread-safe observer list** (`ThreadSafeSpec`, `ThreadSafeDelivery`, `ThreadSafeReturn`, `ThreadSafeRuns`,
  `ThreadSafeProgress`, `ThreadSafeLists`). A protocol of atomic steps over
  a map under a lock, FIFO queues, call stacks and thread-local pointers. For an observer that stays registered, what
  was started plus what is on its way is conserved as a sequence; delivery exactly once, in one order for all
  observers, follows.
* **Lazy creation** (`LazyInstance`): any number of threads racing for one state word.
* **Reference counting** (`RefPtrSpec`, `ScopedRefPtrs`) and **shared packet infos** on top of it (`RtpPacketInfos`):
  conservation of references, and value semantics of the handles.
* **Cancelable callbacks** (`CancelableCallbacks`): forwarders guarded by weak-pointer generations.
* **Arithmetic**: send-time differences (`SendTime`), bit operations (`Bits`) and big-endian integers of every width
  (`BigEndian`).

Where the source updates objects in place there are two layers. A value machine (`State`, `Event`, `Step`, `Run`) carries
the theorems about runs; a class with the source's fields and loops performs the operations, and each of its methods
is proved to take the view of the object through exactly the machine's operation. So the theorems about runs apply to
what the methods do.

## Where the code and its documentation part

* `RemoveObserver` of the thread-safe list is documented to abort notifications that have not started
  (`libwebrtc/base/observer_list_threadsafe.h:134-138`). It does so only until the observer is added again: `AfterRemoval`
  proves the promise up to that point. For any run of removal, addition and whatever comes in between and after,
  `AddedObserver` gives exactly what is called after the addition, through the queue and directly. `AddedAfterRemoval`
  shows that nothing left over from before is among it if and only if nothing was on its way to the observer, in the
  queue or in a loop of `NotifySynchronously`, when it was added, and `AbortedIff` says the same of the notifications
  issued before the removal. `RevivedNotification` and `RevivedDirectly` are runs in which a removed notification is
  delivered through the queue and by such a loop.
* An observer added inside a callback receives that notification exactly once (under ALL) or not at all (under
  EXISTING_ONLY) if and only if that notification is not still on its way to it from an earlier registration, in the
  queue or in a loop of `NotifySynchronously` (`AddedInCallback`). In `RevivedDirectly` it is, and the observer is called
  under either policy; in `CalledTwice` it is called twice under ALL.
* Incrementing an attached observer iterator that is at the end is not rejected by the code; it is the one increment that
  takes a cursor out of range, and `end()` is then no longer recognised (`AdvanceStaysInRangeIff`; `PastTheEnd` reaches it).
* `Align` rounds up if and only if `size + alignment - 1` does not wrap around (`AlignRoundsIff`; `AlignWraps` is an input
  at which it does, at every width).
* The 24-bit send-time difference is the true one if and only if that lies in [-2^23, 2^23) (`DeltaExactIff`;
  a gap of 2^23 is read as -2^23, `DeltaAtHalfRange`).
* The comment at `libwebrtc/base/bits.h:51-54` speaks of the zero bits following the most significant 1 bit; its own
  example and the code count the zero bits above it, and so does the model (`LeadingZerosExample`).

## Model

| member | source | states |
|---|---|---|
| ObserverListSpec.StepKeepsValid | libwebrtc/base/observer_list.h:123-178 | every operation on the list or on any iterator keeps all cursors at most min(max_index, size), unmarked slots distinct, and nothing marked when no iterator is attached |
| ObserverListSpec.DetachKeepsValid | libwebrtc/base/observer_list.h:138-141 | dropping an iterator, with compaction by the last one, keeps that invariant for all the others |
| ObserverListSpec.AdvanceStaysInRangeIff | libwebrtc/base/observer_list.h:172-178 | an increment keeps the cursor in range if and only if the iterator was detached or not at its end; otherwise the end is no longer recognised |
| ObserverListSpec.PastTheEnd | libwebrtc/base/observer_list.h:172-178 | a run from an empty list to an attached iterator at its end, where one more increment leaves the vector and the end test fails |
| ObserverListSpec.CompactedContents | libwebrtc/base/observer_list.h:324-330 | compaction keeps exactly the unmarked observers, without duplicates and without marks |
| ObserverListSpec.RemoveMembers | libwebrtc/base/observer_list.h:279-293 | removal by erasing and removal by marking both delete exactly that observer from the ordered set |
| ObserverListSpec.StepRefinesSet | libwebrtc/base/observer_list.h:268-330 | the unmarked slots in order change like an ordered set: append if absent, delete, empty; iterators never change it |
| ObserverListSpec.RunRefinesSet | libwebrtc/base/observer_list.h:123-330 | the same over any run of interleaved operations and iterators |
| ObserverListSpec.ReachableStates | libwebrtc/base/observer_list.h:208-330 | in every reachable state the invariant holds, the unmarked slots are the abstract set, and HasObserver is membership in it |
| ObserverListSpec.StepUnderLiveIterator | libwebrtc/base/observer_list.h:149-163 | while an iterator lives, no step shrinks the vector, moves a slot or touches that iterator's cursor |
| ObserverListSpec.RunUnderLiveIterator | libwebrtc/base/observer_list.h:138-178 | the same over any run that spares the iterator |
| ObserverListSpec.ShrinksOnlyAtTheLastIterator | libwebrtc/base/observer_list.h:138-163 | the vector shrinks only with no iterator attached, or when the only one is dropped or reassigned |
| ObserverLoops.RoundMoves | libwebrtc/base/observer_list.h:172-178 | one round of a loop, with any callback, moves the cursor forward over marked slots only and leaves it on an unmarked slot or at the end |
| ObserverLoops.LoopMoves | libwebrtc/base/observer_list.h:172-215 | over any number of rounds the cursor only advances and earlier slots stay where they are |
| ObserverLoops.VisitsInOrder | libwebrtc/base/observer_list.h:185-215 | visits are in slot order, each slot once, and each finds the non-null observer its slot holds at that moment |
| ObserverLoops.VisitedIffUnmarked | libwebrtc/base/observer_list.h:208-215 | a slot the cursor passes is visited if and only if it is unmarked at its turn |
| ObserverLoops.BeginsAtHead | libwebrtc/base/observer_list.h:125-136 | a new iterator stands on the first unmarked slot, bounded as its policy says |
| ObserverLoops.CompleteAttachedLoop | libwebrtc/base/observer_list.h:125-221 | a complete loop of an iterator constructed from any list visits exactly the slots unmarked at their turn, in order and each once: of all slots at its end under ALL, of those at its start under EXISTING_ONLY |
| ObserverLoops.CompleteLoop | libwebrtc/base/observer_list.h:123-242 | the same for a loop from begin(), which visits nothing if the list was empty when it began |
| ObserverLoops.EmptyListIterators | libwebrtc/base/observer_list.h:237-240 | on an empty list a constructed iterator sees the next addition under ALL, the one from begin() never does |
| ObserverLoops.RoundsAdvance | libwebrtc/base/observer_list.h:172-178 | every round advances the cursor by at least one slot |
| ObserverLoops.LoopIsBounded | libwebrtc/base/observer_list.h:217-221 | a loop has at most as many rounds as slots when it began under EXISTING_ONLY, and as slots now under ALL, whatever the callbacks do |
| ObserverLoops.StayingObserver | libwebrtc/base/observer_list.h:172-221 | from any moment of a loop, an observer that stays in its slot is called once if the slot is ahead and within the bound, else never |
| ObserverLoops.RegisteredThroughout | libwebrtc/base/observer_list.h:123-231 | an observer registered when the loop begins and not removed is visited exactly once |
| ObserverLoops.AddedDuringLoop | libwebrtc/base/observer_list.h:81-90 | an observer added in any callback, the last included, is visited exactly once under ALL and never under EXISTING_ONLY |
| ObserverLoops.StaysAbsent | libwebrtc/base/observer_list.h:268-276 | only AddObserver brings an observer into the vector |
| ObserverLoops.AbsentObserver | libwebrtc/base/observer_list.h:279-293 | an observer removed before its turn and not added again is not called in the rest of the loop |
| ObserverLists.ObserverList.FindSlot | libwebrtc/base/observer_list.h:281-283 | the search loop finds the first slot equal to the pointer, or the end |
| ObserverLists.ObserverList.HasObserver | libwebrtc/base/observer_list.h:296-305 | true exactly of the members, false of null |
| ObserverLists.ObserverList.AddObserver | libwebrtc/base/observer_list.h:268-275 | appends if absent, changes no iterator, keeps the invariant |
| ObserverLists.ObserverList.RemoveObserver | libwebrtc/base/observer_list.h:279-293 | erases or marks the slot, depending on live iterators, and keeps the invariant |
| ObserverLists.ObserverList.Clear | libwebrtc/base/observer_list.h:308-316 | empties the vector, or marks every slot while an iterator lives |
| ObserverLists.ObserverList.Compact | libwebrtc/base/observer_list.h:324-330 | leaves the unmarked slots in order |
| ObserverLists.ObserverList.Begin | libwebrtc/base/observer_list.h:237-240 | an attached iterator on the first unmarked slot, or a detached one for an empty list |
| ObserverLists.ObserverList.Destroy | libwebrtc/base/observer_list.h:250-261 | terminates with any number of live iterators and leaves every one of them detached |
| ObserverLists.Iter.End | libwebrtc/base/observer_list.h:123-123 | a default iterator belongs to no list |
| ObserverLists.Iter.constructor | libwebrtc/base/observer_list.h:125-136 | joins the live iterators, of an empty list too, and skips to the first unmarked slot |
| ObserverLists.Iter.Enter | libwebrtc/base/observer_list.h:125-136 | the new iterator is the only cursor that changes, and it starts on the first unmarked slot within its bound |
| ObserverLists.Iter.Copy | libwebrtc/base/observer_list.h:143-147 | the copy has the same position and joins the same list |
| ObserverLists.Iter.Join | libwebrtc/base/observer_list.h:156-161 | a detached iterator takes over list, position and bound of another |
| ObserverLists.Iter.SetList | libwebrtc/base/observer_list_internal.h:117-122 | appends the node to the list's live iterators, without duplicates |
| ObserverLists.Iter.Invalidate | libwebrtc/base/observer_list_internal.h:124-129 | takes exactly this node out of the live iterators and forgets the list |
| ObserverLists.Iter.OnlyRemaining | libwebrtc/base/observer_list_internal.h:112-115 | head equals tail if and only if this is the only attached iterator |
| ObserverLists.Iter.EnsureValidIndex | libwebrtc/base/observer_list.h:208-215 | the loop stops at the first unmarked index below the clamped bound, or at the bound |
| ObserverLists.Iter.EqualsIff | libwebrtc/base/observer_list.h:165-168 | two iterators not both at their end are equal if and only if they have the same list and index |
| ObserverLists.Iter.EndTest | libwebrtc/base/observer_list.h:165-168 | comparing with end() is the test for the end, and of a detached iterator it holds |
| ObserverLists.Iter.Next | libwebrtc/base/observer_list.h:172-178 | advances over marked slots; a detached iterator is not changed; an attached one stays well formed if and only if it was not at its end |
| ObserverLists.Iter.PostIncrement | libwebrtc/base/observer_list.h:180-184 | returns a copy at the old position, attached to the same list, and advances; well formed under the same condition |
| ObserverLists.Iter.GetCurrent | libwebrtc/base/observer_list.h:201-206 | away from the end the index is within the vector and the slot's observer is returned |
| ObserverLists.Iter.Unlink | libwebrtc/base/observer_list_internal.h:110-129 | exactly this cursor goes; slots and other cursors stay |
| ObserverLists.Iter.Leave | libwebrtc/base/observer_list.h:138-141 | the last iterator to leave compacts, any other leaves the vector alone, a detached one touches no list |
| ObserverLists.Iter.Assign | libwebrtc/base/observer_list.h:149-163 | assignment between iterators of one list, two lists or none, including to itself: leaves the old list, joins the new |
| ObserverLists.Iter.AssignWithin | libwebrtc/base/observer_list.h:149-163 | the same when both belong to one list |
| ObserverLists.Iter.AssignAcross | libwebrtc/base/observer_list.h:149-163 | the same across lists: the old list is compacted by its last iterator, the new one only gains a cursor |
| CallbackListSpec.AddKeepsValid | libwebrtc/base/callback_list.h:137-142 | adding keeps the one-to-one correspondence of subscriptions and nodes |
| CallbackListSpec.CancelKeepsValid | libwebrtc/base/callback_list.h:206-221 | so does destroying a subscription, in or outside Notify |
| CallbackListSpec.RunKeepsValid | libwebrtc/base/callback_list.h:244-250 | so does running a callback; the advanced cursor is still a node of the list after the splice |
| CallbackListSpec.FinishKeepsValid | libwebrtc/base/callback_list.h:182-185 | so does the erasure at the end of Notify, which erases no node that a subscription names |
| CallbackListSpec.StepKeepsValid | libwebrtc/base/callback_list.h:137-289 | every step keeps the correspondence |
| CallbackListSpec.RunIsValid | libwebrtc/base/callback_list.h:137-289 | every run keeps it |
| CallbackListSpec.ReachableStates | libwebrtc/base/callback_list.h:206-289 | in every reachable state each subscription's node is in the very list its cancellation erases from, the repeating variant never cancels a null callback, and with no subscription and no Notify both lists are empty |
| CallbackNotify.LoopServesQueue | libwebrtc/base/callback_list.h:174-180 | a turn of the loop runs the front of the queue of due callbacks and takes exactly it off, or ends if none is due |
| CallbackNotify.AddJoinsQueue | libwebrtc/base/callback_list.h:137-142 | a callback added during Notify joins the queue if and only if the advanced cursor is not at end() |
| CallbackNotify.CancelLeavesQueue | libwebrtc/base/callback_list.h:206-221 | a cancellation takes exactly that callback out of the queue |
| CallbackNotify.LaterNodes | libwebrtc/base/callback_list.h:162-185 | callbacks enrolled later are new and distinct, and drops hit only what is due or enrolled later |
| CallbackNotify.QueueLaw | libwebrtc/base/callback_list.h:162-185 | from any moment of a Notify: run and due afterwards equal run and due before, plus the enrolled, less the dropped, as sequences |
| CallbackNotify.StartIsQueue | libwebrtc/base/callback_list.h:169-177 | at the start every registered callback is due, in order |
| CallbackNotify.WholeNotify | libwebrtc/base/callback_list.h:162-196 | a complete Notify runs exactly the registered, then the enrolled callbacks, without those cancelled before their turn |
| CallbackNotify.RunsIff | libwebrtc/base/callback_list.h:158-185 | a callback runs, and then once, if and only if it was registered or enrolled and not cancelled before its turn |
| CallbackOrder.StepKeepsOrder | libwebrtc/base/callback_list.h:137-250 | the live callbacks are a sequence to which Add appends at the end, from which a cancellation or the run of a once-callback deletes one, and which nothing else changes |
| CallbackOrder.RunKeepsOrder | libwebrtc/base/callback_list.h:137-250 | the same over any run, in and outside Notify |
| CallbackOrder.LiveFinish | libwebrtc/base/callback_list.h:182-185 | the erasure at the end of Notify leaves the live callbacks and their order |
| CallbackOrder.LiveIsAddedLessGone | libwebrtc/base/callback_list.h:137-250 | the live callbacks are those registered, in order of registration, without those cancelled or consumed |
| CallbackOrder.ReachableOrder | libwebrtc/base/callback_list.h:137-250 | so in every reachable state, where outside Notify that is the whole list |
| CallbackOrder.InOrderOfRegistration | libwebrtc/base/callback_list.h:162-185 | two callbacks run by a Notify run in the order in which they were registered, before or during it |
| CallbackLists.CallbackList.Add | libwebrtc/base/callback_list.h:137-142 | appends a new node and binds a new subscription to it |
| CallbackLists.CallbackList.Cancel | libwebrtc/base/callback_list.h:206-221 | erases from null_callbacks_, resets during Notify, or erases from callbacks_, as the machine does |
| CallbackLists.CallbackList.RunCallback | libwebrtc/base/callback_list.h:244-250 | advances the cursor first, then splices in the once variant; the cursor stays valid |
| CallbackLists.CallbackList.FindValid | libwebrtc/base/callback_list.h:177-179 | the search from the cursor finds the front of the queue, or end() if it is empty |
| CallbackLists.CallbackList.Perform | libwebrtc/base/callback_list.h:242-244 | whatever a callback adds and cancels, its own subscription included, is a run of the machine with exactly these actions, in order |
| CallbackLists.CallbackList.Round | libwebrtc/base/callback_list.h:177-179 | one turn of the loop: the callback that was found is run and then acts, with an arbitrary list of actions |
| CallbackLists.CallbackList.Turn | libwebrtc/base/callback_list.h:177-179 | the turn after any number of turns, with the actions meant for it |
| CallbackLists.CallbackList.Loop | libwebrtc/base/callback_list.h:174-180 | the loop ends with nothing due and is a run of the machine, in which the k-th callback to run acts by the k-th list of actions |
| CallbackLists.Unless | libwebrtc/base/callback_list.h:184-185 | the erasing loop keeps exactly the non-null callbacks, in order |
| CallbackLists.CallbackList.EraseNull | libwebrtc/base/callback_list.h:184-185 | erases exactly the callbacks cancelled during the loop |
| CallbackLists.CallbackList.Notify | libwebrtc/base/callback_list.h:162-185 | runs exactly the registered then the enrolled callbacks, less the cancelled, keeps the correspondence, and leaves the list as the turns of the loop and the erasure make it |
| ThreadSafeSpec.StepKeepsValid | libwebrtc/base/observer_list_threadsafe.h:101-250 | every atomic step keeps, on every sequence, the nesting of the thread-local pointer and that wrappers wait on their observer's own sequence |
| ThreadSafeSpec.RunIsValid | libwebrtc/base/observer_list_threadsafe.h:101-250 | every run keeps it |
| ThreadSafeSpec.ReachableStates | libwebrtc/base/observer_list_threadsafe.h:221-250 | in every reachable state the pointer is the innermost notification, and a wrapper that finds its observer is on the observer's sequence |
| ThreadSafeSpec.PostAllStack | libwebrtc/base/observer_list_threadsafe.h:162-168 | a posting loop changes only the queues and appends to each exactly the tasks addressed to it |
| ThreadSafeSpec.AddOk | libwebrtc/base/observer_list_threadsafe.h:101-132 | an addition with its post keeps the invariant |
| ThreadSafeSpec.AddOkIff | libwebrtc/base/observer_list_threadsafe.h:224-231 | an addition keeps every wrapper on its observer's sequence if and only if no other sequence expects the observer |
| ThreadSafeDelivery.OnOwnSequence | libwebrtc/base/observer_list_threadsafe.h:152-231 | an observer that stays registered is called on its registration sequence and nowhere else |
| ThreadSafeDelivery.AddressedOnce | libwebrtc/base/observer_list_threadsafe.h:162-168 | a posting loop posts one task for each observer it does not skip |
| ThreadSafeDelivery.PostedLaw | libwebrtc/base/observer_list_threadsafe.h:157-250 | for an observer that stays registered, started then on-their-way notifications grow by exactly what was sent, in order |
| ThreadSafeDelivery.SentIsIssued | libwebrtc/base/observer_list_threadsafe.h:157-169 | what Notify sends to a sequence is the list of Notify calls, in the order in which they took the lock |
| ThreadSafeDelivery.SentOnce | libwebrtc/base/observer_list_threadsafe.h:157-204 | nothing is sent twice |
| ThreadSafeDelivery.DeliveredExactly | libwebrtc/base/observer_list_threadsafe.h:152-169 | once its queue is served, such an observer was called through it for exactly what was posted, each once and in order |
| ThreadSafeDelivery.SameOrder | libwebrtc/base/observer_list_threadsafe.h:157-169 | two such observers, on any sequences, start all Notify notifications in the same order |
| ThreadSafeDelivery.DirectLaw | libwebrtc/base/observer_list_threadsafe.h:174-204 | NotifySynchronously calls an observer of its own sequence once, under any nesting |
| ThreadSafeDelivery.SentOrDirect | libwebrtc/base/observer_list_threadsafe.h:157-204 | every notification issued is posted to an observer or due directly, and not both |
| ThreadSafeDelivery.AllIssuedOnce | libwebrtc/base/observer_list_threadsafe.h:157-204 | no notification is issued twice, by either call |
| ThreadSafeDelivery.CalledOnceForEach | libwebrtc/base/observer_list_threadsafe.h:157-204 | an observer that stays registered is called exactly once for each notification issued by Notify or by NotifySynchronously on any sequence |
| ThreadSafeDelivery.GoneLaw | libwebrtc/base/observer_list_threadsafe.h:221-231 | while an observer is not registered no further wrapper comes to call it |
| ThreadSafeDelivery.AfterRemoval | libwebrtc/base/observer_list_threadsafe.h:134-142 | after a removal, until it is added again, only a wrapper whose lookup preceded may still call the observer, and none if it was removed on its own sequence |
| ThreadSafeDelivery.PointerRestored | libwebrtc/base/observer_list_threadsafe.h:233-249 | when a wrapper is done the thread-local pointer is what it was before it, whatever nested inside |
| ThreadSafeDelivery.ReachableIsKnown | libwebrtc/base/observer_list_threadsafe.h:157-250 | every notification on its way was issued, in every reachable state |
| ThreadSafeReturn.AddedObserver | libwebrtc/base/observer_list_threadsafe.h:101-132 | an added and kept observer is called through the queue for what was left there, then the notification being dispatched, then what is posted, in order; and directly for what the loops below had left and what is sent directly later |
| ThreadSafeReturn.AddedObserverCalls | libwebrtc/base/observer_list_threadsafe.h:101-204 | all its calls together: what was left, what the addition posted, and every notification issued later |
| ThreadSafeReturn.AddedInCallback | libwebrtc/base/observer_list_threadsafe.h:115-131 | added in a callback it is called for that notification once under ALL and never under EXISTING_ONLY, queued and direct calls counted, if and only if it was not still on its way to it |
| ThreadSafeReturn.FadesByRun | libwebrtc/base/observer_list_threadsafe.h:221-231 | while an observer is not registered, what is on its way to it only becomes less, from the front of the queue and from the loops |
| ThreadSafeReturn.LeftOver | libwebrtc/base/observer_list_threadsafe.h:134-142 | what is on its way when an observer is added again was on its way, and issued, when it was removed |
| ThreadSafeReturn.AddedAfterRemoval | libwebrtc/base/observer_list_threadsafe.h:134-142 | over remove, anything, add, keep: nothing left over is called if and only if nothing was on its way at the addition |
| ThreadSafeReturn.AbortedIff | libwebrtc/base/observer_list_threadsafe.h:134-142 | no notification issued before the removal starts after the addition if and only if nothing was left over and the addition posted no such notification |
| ThreadSafeRuns.RevivedNotification | libwebrtc/base/observer_list_threadsafe.h:134-142 | a run from the start in which a queued notification pending at the removal is delivered after the observer is added again |
| ThreadSafeRuns.RevivedDirectly | libwebrtc/base/observer_list_threadsafe.h:200-203 | a run from the start in which the loop of NotifySynchronously calls an observer removed and added again in an earlier callback, under either policy |
| ThreadSafeRuns.CalledTwice | libwebrtc/base/observer_list_threadsafe.h:115-131 | under ALL that observer is then called again for the same notification |
| ThreadSafeRuns.FoundOnWrongSequence | libwebrtc/base/observer_list_threadsafe.h:224-231 | without that condition a wrapper finds its observer on another sequence, which the debug check rejects |
| ThreadSafeProgress.ServingShrinks | libwebrtc/base/observer_list_threadsafe.h:200-250 | every step that serves a queue, a loop or a callback uses up work of its sequence |
| ThreadSafeProgress.IdleIffStuck | libwebrtc/base/observer_list_threadsafe.h:200-250 | a sequence has nothing left if and only if it can make no such step: nothing waits for another sequence |
| ThreadSafeProgress.ServingEnds | libwebrtc/base/observer_list_threadsafe.h:200-250 | in any interleaving each sequence makes at most as many such steps as it had work |
| ThreadSafeProgress.CanDrain | libwebrtc/base/observer_list_threadsafe.h:152-250 | from every state some run of such steps alone empties every queue and every stack |
| ThreadSafeProgress.ServedOnceForEach | libwebrtc/base/observer_list_threadsafe.h:152-204 | served in any order until idle, an observer registered throughout was called once for each notification issued |
| ThreadSafeProgress.CanBeServed | libwebrtc/base/observer_list_threadsafe.h:152-204 | such a completion exists after every run |
| ThreadSafeLists.ObserverListThreadSafe.AddObserver | libwebrtc/base/observer_list_threadsafe.h:101-132 | one step of the protocol, under the lock |
| ThreadSafeLists.ObserverListThreadSafe.RemoveObserver | libwebrtc/base/observer_list_threadsafe.h:139-142 | one step of the protocol, also for an observer that is not registered |
| ThreadSafeLists.ObserverListThreadSafe.Notify | libwebrtc/base/observer_list_threadsafe.h:157-169 | posts to each observer once, in any order of enumeration |
| ThreadSafeLists.ObserverListThreadSafe.NotifySynchronously | libwebrtc/base/observer_list_threadsafe.h:174-204 | posts to the observers of other sequences and collects those of its own, each once |
| LazyInstance.StepKeepsValid | libwebrtc/base/lazy_instance_helpers.h:58-95 | every step of every thread keeps the spinlock discipline: one owner exactly while the word says creating, one creation at most |
| LazyInstance.WordMovesForward | libwebrtc/base/lazy_instance_helpers.h:66-93 | the word moves only from 0 to creating to the instance |
| LazyInstance.RunIsValid | libwebrtc/base/lazy_instance_helpers.h:58-95 | over any run the invariant is kept and an instance, once stored, stays |
| LazyInstance.OneInstance | libwebrtc/base/lazy_instance_helpers.h:39-95 | for any number of threads and calls the creator is run at most once and all calls return what it returned, never 0 or the marker |
| LazyInstance.RunHolds | libwebrtc/base/lazy_instance_helpers.h:82-90 | what the creator returned is on its way into the word, or is the word |
| LazyInstance.ReportsReturns | libwebrtc/base/lazy_instance_helpers.h:94-94 | the recorded results are the values returned, one for each return |
| LazyInstance.StepAdvances | libwebrtc/base/lazy_instance_helpers.h:71-94 | every step except a spin brings its thread closer to its return |
| LazyInstance.NoDeadlock | libwebrtc/base/lazy_instance_helpers.h:22-25 | while a call is unfinished some thread can make such a step |
| RefPtrSpec.ConstructKeeps | libwebrtc/api/scoped_refptr.h:78-92 | construction conserves references |
| RefPtrSpec.MoveKeeps | libwebrtc/api/scoped_refptr.h:94-98 | so does a move, without touching a count |
| RefPtrSpec.DestroyKeeps | libwebrtc/api/scoped_refptr.h:100-103 | so does destruction, and nothing dangles when it deletes the object |
| RefPtrSpec.AssignKeeps | libwebrtc/api/scoped_refptr.h:120-132 | so does assignment, including that of a slot to itself |
| RefPtrSpec.AssignMoveKeeps | libwebrtc/api/scoped_refptr.h:139-142 | so does move assignment, including self-move |
| RefPtrSpec.SwapKeeps | libwebrtc/api/scoped_refptr.h:150-156 | so does swap, including with itself |
| RefPtrSpec.MoveThroughTemporary | libwebrtc/api/scoped_refptr.h:139-142 | the temporary, swap and destruction amount to moving the reference and dropping the old one, and to nothing for a self-move |
| RefPtrSpec.TemporaryLoose | libwebrtc/api/scoped_refptr.h:139-142 | through the temporary, move assignment leaves the references held by clients as they were |
| RefPtrSpec.LooseDetermined | libwebrtc/api/scoped_refptr.h:109-118 | slots and counts determine how many references release() has outstanding |
| RefPtrSpec.StepKeepsValid | libwebrtc/api/scoped_refptr.h:76-156 | every step keeps: count equals holding slots plus outstanding references, nothing dangles, nothing leaks, each creation has at most one deletion |
| RefPtrSpec.StepSlots | libwebrtc/api/scoped_refptr.h:76-156 | the slots behave like pointer variables, and a slot moved from or released becomes null |
| RefPtrSpec.RunSlots | libwebrtc/api/scoped_refptr.h:76-156 | the same over any run |
| RefPtrSpec.StepLoose | libwebrtc/api/scoped_refptr.h:109-118 | only release(), AddRef() and Release() change what clients hold besides the slots, by one reference |
| RefPtrSpec.StepAlive | libwebrtc/api/ref_counted_base.h:21-36 | after a step exactly the new object, the referenced objects and the never referenced ones are alive |
| RefPtrSpec.RunIsValid | libwebrtc/api/scoped_refptr.h:76-156 | every run keeps it |
| RefPtrSpec.Conservation | libwebrtc/api/scoped_refptr.h:76-156 | it holds in every reachable state |
| RefPtrSpec.DeletedAtZero | libwebrtc/api/ref_counted_base.h:23-30 | a step deletes an object, once, if and only if it leaves no reference to it |
| ScopedRefPtrs.RefHeap.AddRef | libwebrtc/api/ref_counted_base.h:23-23 | one more reference |
| ScopedRefPtrs.RefHeap.Release | libwebrtc/api/ref_counted_base.h:24-30 | one less; reports and deletes at the last one |
| ScopedRefPtrs.RefHeap.Create | libwebrtc/api/ref_counted_base.h:21-36 | a new object starts with count zero |
| ScopedRefPtrs.RefHeap.Construct | libwebrtc/api/scoped_refptr.h:76-81 | construction from a pointer, which may be null |
| ScopedRefPtrs.RefHeap.CopyConstruct | libwebrtc/api/scoped_refptr.h:83-92 | both slots hold the object |
| ScopedRefPtrs.RefHeap.ReleaseSlot | libwebrtc/api/scoped_refptr.h:114-118 | hands the reference out, the count is not touched |
| ScopedRefPtrs.RefHeap.MoveConstruct | libwebrtc/api/scoped_refptr.h:95-98 | the reference changes slots |
| ScopedRefPtrs.RefHeap.Destroy | libwebrtc/api/scoped_refptr.h:100-103 | gives the slot's reference back |
| ScopedRefPtrs.RefHeap.AssignRaw | libwebrtc/api/scoped_refptr.h:120-128 | takes the new reference before giving the old one back |
| ScopedRefPtrs.RefHeap.AssignCopy | libwebrtc/api/scoped_refptr.h:130-137 | the same from another slot or itself |
| ScopedRefPtrs.RefHeap.Swap | libwebrtc/api/scoped_refptr.h:150-156 | exchanges two slots, no count changes |
| ScopedRefPtrs.RefHeap.AssignMove | libwebrtc/api/scoped_refptr.h:139-148 | move construction of a temporary, swap and destruction move the reference and drop the old one |
| ScopedRefPtrs.HeldIsCounted | libwebrtc/api/scoped_refptr.h:100-103 | what a slot holds is alive with a positive count, so Release is always legal |
| RtpPacketInfos.ActRefinesValues | libwebrtc/api/rtp_packet_infos.h:50-60 | one operation on sharing handles is one operation on independent sequences |
| RtpPacketInfos.RunRefinesValues | libwebrtc/api/rtp_packet_infos.h:50-125 | so is any run |
| RtpPacketInfos.ValueSemantics | libwebrtc/api/rtp_packet_infos.h:50-125 | from the start: handles are independent sequences, and entries() of each returns its sequence; storage lives exactly while referred to, no storage means empty and conversely |
| CancelableCallbacks.StepKeepsValid | libwebrtc/base/cancelable_callback.h:76-128 | every step keeps: a forwarder of the current generation has a callback, a once-callback still wrapped has not run |
| CancelableCallbacks.RunIsValid | libwebrtc/base/cancelable_callback.h:76-128 | every run keeps it |
| CancelableCallbacks.ReachableStates | libwebrtc/base/cancelable_callback.h:95-128 | no valid forwarder runs a null callback, and a wrapped once-callback runs at most once |
| CancelableCallbacks.StaysStale | libwebrtc/base/cancelable_callback.h:76-93 | a forwarder that was invalidated stays so |
| CancelableCallbacks.ForwarderLifetime | libwebrtc/base/cancelable_callback.h:76-128 | a valid forwarder is valid later if and only if no Cancel, Reset, destruction or once-run came between; then it runs the callback it was made for, otherwise nothing |
| CancelableCallbacks.KeepsWrapped | libwebrtc/base/cancelable_callback.h:96-122 | until something ends the generation the wrapped callback stays, and so do the forwarders |
| CancelableCallbacks.ResetWraps | libwebrtc/base/cancelable_callback.h:88-93 | after Reset(c) every forwarder handed out and run in that generation runs c, once, whatever was wrapped before |
| CancelableCallbacks.ConstructorWraps | libwebrtc/base/cancelable_callback.h:65-71 | the same for the callback given to the constructor; without one null callbacks are handed out |
| CancelableCallbacks.CancelableCallback.Cancel | libwebrtc/base/cancelable_callback.h:76-79 | invalidates all forwarders and drops the callback |
| CancelableCallbacks.CancelableCallback.Reset | libwebrtc/base/cancelable_callback.h:88-93 | cancels, then wraps exactly the new callback |
| CancelableCallbacks.CancelableCallback.MakeForwarder | libwebrtc/base/cancelable_callback.h:96-117 | a forwarder of the current generation, or null if nothing is wrapped |
| CancelableCallbacks.CancelableCallback.RunForwarder | libwebrtc/base/cancelable_callback.h:119-128 | runs the wrapped callback if and only if the forwarder is valid; the once variant invalidates first |
| SendTime.SignedDeltaRange | libwebrtc/api/rtp_headers.h:112-113 | the shifts give the distance of the stamps modulo 2^24 that lies in [-2^23, 2^23) |
| SendTime.DeltaExactIff | libwebrtc/api/rtp_headers.h:112-113 | the wrapped stamps give the true difference if and only if it lies in that range |
| SendTime.DeltaAtHalfRange | libwebrtc/api/rtp_headers.h:112-113 | a true gap of 2^23 is read as -2^23 |
| SendTime.TimestampsAgree | libwebrtc/api/rtp_headers.h:101-115 | without a wrap, the difference of timestamps is the delta or one microsecond more |
| SendTime.DeltasTelescope | libwebrtc/api/rtp_headers.h:108-115 | over a stream of any length with small gaps the deltas add up to the true difference |
| SendTime.DeltaTruncates | libwebrtc/api/rtp_headers.h:114-114 | the microseconds are the exact value cut toward zero, for both signs |
| SendTime.TimestampTruncates | libwebrtc/api/rtp_headers.h:104-105 | the timestamp is the exact value of the stamp rounded down |
| SendTime.OneStepBack | libwebrtc/api/rtp_headers.h:104-114 | one step back is -3 microseconds, and stamp 0 is time 0 |
| SendTime.TruncationError | libwebrtc/api/rtp_headers.h:114-114 | one conversion to microseconds is off by less than one, in either direction |
| SendTime.MicrosAddUp | libwebrtc/api/rtp_headers.h:108-115 | the sum of n converted deltas is off by less than n microseconds |
| Bits.AndBits | libwebrtc/base/bits.h:36-48 | a bit of x & y is set if and only if it is set in both |
| Bits.PowerOfTwoIff | libwebrtc/base/bits.h:26-37 | the test holds of exactly the powers of two |
| Bits.AlignDownRounds | libwebrtc/base/bits.h:45-49 | the greatest multiple of the alignment at most the size |
| Bits.AlignRoundsIff | libwebrtc/base/bits.h:39-43 | the least multiple at least the size if and only if the sum does not wrap |
| Bits.AlignWraps | libwebrtc/base/bits.h:39-43 | the largest word of any width rounds to zero |
| Bits.MaskClears | libwebrtc/base/bits.h:42-48 | masking with the complement clears the low bits, at every width |
| Bits.HighBit | libwebrtc/base/bits.h:72-75 | the bit scan finds i with 2^i <= x < 2^(i+1) |
| Bits.LeadingZerosIff | libwebrtc/base/bits.h:65-75 | the count is k if and only if 2^(bits-k-1) <= x < 2^(bits-k), for every width up to 32 |
| Bits.LeadingZeros64Iff | libwebrtc/base/bits.h:77-88 | the same for 64 bits |
| Bits.LeadingHalvesAgree | libwebrtc/base/bits.h:89-99 | the form with two 32-bit scans gives the same count |
| Bits.ZeroCounts | libwebrtc/base/bits.h:51-135 | both counts of zero are the width, in every form |
| Bits.LeadingZerosExample | libwebrtc/base/bits.h:51-59 | the two examples of the comment: 2 leading and 1 trailing zero of 00100010 |
| Bits.LowBitSpec | libwebrtc/base/bits.h:102-111 | the count of trailing zeros is the power of two in the number |
| Bits.TrailingZerosIff | libwebrtc/base/bits.h:102-123 | the count is k if and only if the k lowest bits are zero and the next one is not |
| Bits.TrailingHalvesAgree | libwebrtc/base/bits.h:113-135 | the form with two 32-bit scans gives the same count |
| Bits.Log2FloorBounds | libwebrtc/base/bits.h:193-196 | 2^i <= n < 2^(i+1), and -1 of zero |
| Bits.Log2CeilingBounds | libwebrtc/base/bits.h:198-204 | 2^(i-1) < n <= 2^i, hence 0 of one, and -1 of zero through the wrapped predecessor |
| BigEndian.ReadBigEndian | libwebrtc/base/big_endian.h:21-29 | the base-256 number of the bytes converted to the type, at every width, signed or not, and whether char is signed or not |
| BigEndian.WriteBigEndian | libwebrtc/base/big_endian.h:33-39 | the bytes become the base-256 digits of the value, the rest of the buffer is unchanged |
| BigEndian.OrBits | libwebrtc/base/big_endian.h:27-27 | a bit of x or y (bitwise) is set if and only if it is set in either |
| BigEndian.ShiftAndOr | libwebrtc/base/big_endian.h:24-28 | after the shift the low byte is free, so the OR adds the byte |
| BigEndian.LowByte | libwebrtc/base/big_endian.h:36-37 | the mask takes the lowest digit, of negative numbers too |
| BigEndian.ByteAt | libwebrtc/base/big_endian.h:31-39 | byte k carries the digit of weight 256^(n-1-k) |
| BigEndian.WriteThenRead | libwebrtc/base/big_endian.h:21-39 | reading what was written gives the value back if and only if it is in the range of the type |
| BigEndian.ReadThenWrite | libwebrtc/base/big_endian.h:21-39 | writing what was read gives the bytes back |

## Left out

- The application and its native wrapper (`WeiRtcSampleApp`, `WeiStreaming.WeiRtc.Native`): user interface, sockets, pixel work and calls into code that is not part of the repository.
- Headers that only declare, such as `BigEndianReader` and `BigEndianWriter`, whose bodies are absent; template and macro machinery; small accessors that would only add easy members.
- `CheckedObserverAdapter`: slots are those of the unchecked adapter, where a mark is a null pointer. The checked adapter adds a debug check that marking a slot twice breaks.
- Debug-only checks of the calling sequence, and `check_empty`.
- The largest `size_t` as the bound of an unrestricted loop is modelled as no bound at all.
- `allow_reentrancy = false`: only the default is modelled.
- Observers destroyed while registered, removal callbacks, destruction of a callback list before its subscriptions, and destruction of bound arguments during their own call.
- Iterators of the observer list are objects with identities; nodes and subscriptions of the callback list, reference counted objects and `scoped_refptr` slots are numbers in a collection that the methods update, so aliasing between C++ addresses is modelled by equality of numbers.
- ThreadSafeSpec.StepKeepsValid: assumes FIFO task runners, and that an observer is not registered on another sequence while notifications for it are pending, which the debug check in NotifyWrapper needs (AddOkIff, FoundOnWrongSequence); AddObserver on a thread without a task runner does nothing and is left out.
- A sequence and a thread are one thing in the model: the current-notification pointer belongs to a sequence. In the source it is thread-local, and sequences that share a thread through a nested loop share it.
- NotifyWrapper is three steps of the protocol (lookup, call, return) and not a method, because steps of other sequences come in between.
- Locks and atomics are sequentially consistent steps; weak memory ordering is not modelled.
- LazyInstance.OneInstance: for creators that return neither null nor the creating marker; a creator that returns null leaves the word uninitialized. NeedsLazyInstance and CompleteLazyInstance are modelled from their stated contracts, and the registration of the destructor is left out.
- CallbackLists.CallbackList.Notify: the callbacks act by a finite script, so that the loop ends; CallbackNotify.WholeNotify has no such bound.
- ScopedRefPtrs.RefHeap.AssignRaw: describes the state after the assignment; between Release and the store of the new pointer the slot still names the old object.
- CancelableCallbacks.CancelableCallback.Reset: each wrapped callback has its own number; that a once-forwarder is itself used up by its call is not modelled, any number of calls is allowed.
- BigEndian.ReadBigEndian: a left shift of a negative or overflowing signed value is modelled as wrap-around in two's complement, which older C++ standards leave undefined.
- RtpPacketInfos: element access, iterators and sizes only select from the sequence; moving the vector into new storage is not distinguished from copying it.
