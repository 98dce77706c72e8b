# mio: verified models

Dafny models of the state-heavy parts of mio 0.6.4 and proofs about them. `dafny verify dfyconfig.toml` checks everything.

The timer (`src/timer.rs`):

- `Ticks`: milliseconds and ticks, with their rounding and saturation.
- `TimerQueue`: the timer as a caller sees it, a priority queue of timeouts, and what holds over every run of it.
- `SlotLists`, `TimerWheel`, `TimerFreshness`, `TimerTight`: the invariants of the hashed wheel, its linked lists, its cursor and its cached ticks.
- `Timer`: the class itself, method by method. Every call is a step of `TimerQueue`, so the run theorems hold of the wheel.
- `Wakeup`: the protocol between the timer and its wakeup thread, one step per atomic operation.

The readiness queue (`src/poll.rs`), twice:

- `ReadinessSteps`, `ReadinessInvariant`, `ReadinessQueueRuns`, `ReadinessTheorems`, `ReadinessVisits`: the lock-free queue, one step per atomic operation, any number of producers against one poller, with sleeping and waking.
- `QueueModel`, `ReadinessQueue`: whole calls, with level, edge and oneshot triggering, reference counts and the two linked lists. The class on the heap refines the pure model.

On top of them:

- `Channel`, `ChannelRuns`, `Notify`: the message counter of `src/channel.rs`, and the event loop's `notify` that relies on it.
- `Coalesce`: merging kqueue's raw events into one event per token.
- `TcpPipe`, `TcpWrite`: the write side of the Windows TCP stream and its buffer pool, against any system. The class refines the machine in `TcpPipe`.

## Where the code does not do what it says

The models follow the code. In these places a promise turned out not to hold; the lemmas named give the failing case and when the promise does hold.

- A comment in `poll_to` (`src/timer.rs:246-250`) says that clearing a slot's cached tick keeps the timer from getting stuck in a loop. The cached tick can still stay in the past (`StuckAfterCancel`), so `next_tick` asks for wakeups that have nothing to do. Inserts and cancels avoid it exactly under the conditions in `InsertionFresh` and `RemovalFresh`; otherwise every poll leaves it so until the wheel has turned round (`PollTo`, `StaleIsPast`).
- `next_tick` (`src/timer.rs:343-355`) is never later than a live timeout on a timer that is new or has been polled until it returned nothing. After a poll that returned a timeout it can be later (`UncachedAfterPartialDrain`), so registering at that point can miss a wakeup. `NextTickReachesExactly` says when it is late for a timeout, `NextTickWhenDue` when for one that is due now. On a fresh timer that is always so after a poll that returned a timeout, for every other timeout due at the same tick (`PollTo`).
- A timeout can fire any number of ticks before its time (`CanFireEarly`): every empty poll steps the timer one tick past its target (`src/timer.rs:231-240`), and the next poll starts from there, not from the clock. It happens exactly when the timer stands on the timeout's tick and that is ahead of the clock (`FiresEarlyExactly`), by at most a tick for every empty poll (`AheadByEmptyPolls`).
- The handle of a cancelled timeout can cancel another timeout (`CancelledHandleCanHitAnother`); `CancelledHandleHitsExactly` says when. The handle of a fired timeout cannot.
- `duration_to_tick` says it rounds up (`src/timer.rs:466`). It rounds to the nearest tick (`TickIsNearest`), so it can round down (`TickCanRoundDown`); `TickRoundsUpExactly` says when it rounds up.
- The wakeup thread tests for `TERMINATE_THREAD`, but nothing ever stores it: in every run the thread never ends (`NoDeadlineMissed`).
- A level-triggered node that becomes ready between the poller's first read of it and its dequeuing (`src/poll.rs:598-635`) is reported once and then forgotten, although it is still ready (`LevelCanBeForgotten`, `ForgottenStep`). One that is ready at the first read goes back on the list (`LevelGoesBack`); in general a node is on the list after its visit exactly if it was queued at the last read, unless a producer queues it meanwhile (`QueuedExactly`).
- A cancel can leave its tick in the cache, so that `next_tick` is earlier than every timeout: exactly if no other timeout has that tick and the slot caches it (`RemovalTight`).
- `update` asserts in debug builds that its push needs no wakeup (`src/poll.rs:435-436`). After a `select` that failed while the sleep token was in place, it can (`NeedsWakeupCanHappen`, `NeedsWakeupExactly`).
- A receiver registered while senders are at work can overlook a message, and no later send repairs it (`RegisterCanOverlook`, `OverlookedBySenders`). `RegisterNoticesExactly` says when `register` does not, which is always so if no sender is at work meanwhile (`UndisturbedRegister`). The messages stay overlooked until a receive finds exactly one (`MissedExactly`), and for good once the senders are gone (`DisconnectedStaysReadable`).
- After the system has refused a write, and only then, every later `writev` answers "would block" (`BlockedForGood`), although the stream announces that it is writable (`ByteStream`). Bytes that `writev` had accepted are then never sent (`AcceptedByteIsLost`) if and only if the refused write had bytes (`LostForGood`).

## Model

| member | source | states |
|---|---|---|
| `Ticks.MillisIsCeiling` | src/lib.rs:210-219 | the milliseconds of a duration are the least number that covers it, or no 64-bit number below the maximum does |
| `Ticks.MillisMonotone` | src/lib.rs:215-219 | a longer duration never has fewer milliseconds, saturated or not |
| `Ticks.TickMonotone` | src/timer.rs:465-469 | ticks never run backwards |
| `Ticks.ReachedTickIsClose` | src/timer.rs:465-469 | a clock that shows a timeout's tick is less than one tick short of the requested time |
| `Ticks.TickIsNearest` | src/timer.rs:465-469 | unsaturated, no other tick is nearer to the requested time; of two equally near ones it is the later |
| `Ticks.TickCanRoundDown` | src/timer.rs:465-469 | 140 ms with ticks of 100 ms is due at 100 ms |
| `Ticks.TickRoundsUpExactly` | src/timer.rs:465-469 | saturated or not, the tick is not before the requested time if and only if that is on a tick, or half a tick more reaches the next one |
| `Ticks.SleepReachesTick` | src/timer.rs:432-441 | sleeping for the computed duration reaches the tick slept for |
| `Ticks.LargestTick` | src/timer.rs:465-469 | the clock shows the largest tick exactly with one-millisecond ticks and saturated time |
| `TimerQueue.StepKeepsWellFormed` | src/timer.rs:163-313 | every call keeps tokens unique and no live timeout before the current tick |
| `TimerQueue.FiresInOrder` | src/timer.rs:228-291 | in every run timeouts fire in order of their ticks, newest first among equals |
| `TimerQueue.ExactlyOnce` | src/timer.rs:163-291 | every accepted timeout is live, or has fired once, or was cancelled once, and never two of these |
| `TimerQueue.DrainLeavesNothingDue` | src/timer.rs:223-291 | polls with one target up to the first that returns nothing fire every timeout due by then |
| `TimerQueue.CanFireEarly` | src/timer.rs:228-243 | for every n, a run in which a timeout n ticks away fires while the clock still shows tick 0 |
| `TimerQueue.FiresEarlyExactly` | src/timer.rs:231-243 | a poll fires a timeout before the clock has reached its tick if and only if the timer stands on that tick, ahead of the clock |
| `TimerQueue.AheadByEmptyPolls` | src/timer.rs:231-243 | the timer is ahead of the latest clock tick by at most the number of empty polls |
| `TimerQueue.FiredHandleIsDead` | src/timer.rs:208-221 | the handle of a fired timeout never names a live timeout again, even after its token is reused |
| `TimerQueue.FiredHandleCannotCancel` | src/timer.rs:208-221 | a cancel with such a handle always misses |
| `TimerQueue.CancelledHandleCanHitAnother` | src/timer.rs:208-221 | a run in which cancelling twice with one handle removes a second timeout |
| `TimerQueue.CancelledHandleHitsExactly` | src/timer.rs:208-221 | a cancelled handle names a live timeout again if and only if a timeout inserted since got the same token and tick and is still live |
| `SlotLists.UnlinkKeepsLinked` | src/timer.rs:293-313 | taking an entry out leaves every slot's list threading exactly the slot's members, newest first |
| `SlotLists.PushKeepsLinked` | src/timer.rs:175-206 | so does putting a new entry in front |
| `SlotLists.SlotChain` | src/timer.rs:293-313 | following the links from a slot's head visits exactly the slot's members, each once |
| `TimerWheel.MaskIsModulo` | src/timer.rs:357-359 | masking a tick with a power of two less one is the remainder |
| `TimerWheel.DueIsNext` | src/timer.rs:255-270 | the due entry the cursor finds has the smallest tick of all live timeouts, and is the newest of those |
| `TimerWheel.NoneOverdue` | src/timer.rs:239-270 | in every state, no live timeout is earlier than the current tick |
| `TimerWheel.RemovalKeepsSound` | src/timer.rs:293-313 | removing any entry keeps lists, cursor, cache and the queue they stand for |
| `TimerWheel.InsertionKeepsSound` | src/timer.rs:175-206 | inserting keeps them and adds exactly one timeout |
| `TimerWheel.AdvanceKeepsSound` | src/timer.rs:239-254 | when the walk of a slot is over every live timeout is later than its tick; moving to the next tick keeps them and leaves the cache covering every live timeout |
| `TimerWheel.ResetKeepsSound` | src/timer.rs:255-260 | clearing the cached tick at the head of a slot keeps them |
| `TimerWheel.SkipKeepsSound` | src/timer.rs:272-276 | passing an entry that is not due keeps them |
| `TimerFreshness.InsertionFresh` | src/timer.rs:175-206 | an insert keeps cached ticks out of the past if and only if its slot is not due now; if it is, the slot is lost to the walk |
| `TimerFreshness.RemovalFresh` | src/timer.rs:208-221 | a cancel does if and only if it does not take the last entry the cursor had left in a slot due now; if it does, the slot is lost to the walk |
| `TimerFreshness.AdvanceFresh` | src/timer.rs:239-254 | moving to the next tick keeps cached ticks out of the past |
| `TimerFreshness.WalkStaysStale` | src/timer.rs:255-276 | the cached tick of a lost slot survives the rest of the walk, passing or firing entries |
| `TimerFreshness.AdvanceStaysStale` | src/timer.rs:239-254 | and every move to a next tick, for less than a turn of the wheel |
| `TimerFreshness.StuckAfterCancel` | src/timer.rs:246-253 | an empty timer whose cached tick is in the past, reached by one insert, one cancel and two polls |
| `TimerFreshness.UncachedAfterPartialDrain` | src/timer.rs:343-355 | a timer with a due timeout and no cached tick, reached by firing one of two timeouts |
| `TimerTight.InsertionTight` | src/timer.rs:175-206 | an insert keeps every cached tick the tick of a live entry of its slot |
| `TimerTight.RemovalTight` | src/timer.rs:208-221 | a cancel does if and only if its entry was not the only one with the tick its slot caches |
| `TimerTight.FireTight` | src/timer.rs:263-270 | firing does, once the walk of the slot has begun |
| `Timer.MinNextTick` | src/timer.rs:354-355 | the least cached tick of the wheel, none for no slots |
| `Timer.Timer.constructor` | src/timer.rs:139-156 | sizes are the next powers of two, the queue is empty, the cache covers everything, is fresh and caches live ticks only |
| `Timer.Timer.SetTimeoutAt` | src/timer.rs:163-173 | a timeout due at the nearest tick but at least one ahead; rejected exactly when the slab is full |
| `Timer.Timer.Insert` | src/timer.rs:175-206 | one insertion step of the queue, and the wakeup requested for its tick |
| `Timer.Timer.CancelTimeout` | src/timer.rs:208-221 | one cancellation step, returning the cancelled timeout's state, or a miss that changes nothing; both exactly as the queue says, and when the cache stays fresh and caches live ticks only |
| `Timer.Timer.HandleOf` | src/timer.rs:209-217 | a handle passes the cancel's checks if and only if it names a live timeout |
| `Timer.Timer.Unlink` | src/timer.rs:293-313 | only the neighbours' links, the head of the slot and the cursor change, to point past the entry |
| `Timer.Timer.Poll` | src/timer.rs:223-226 | everything `PollTo` states, for the clock's tick |
| `Timer.Timer.PollTo` | src/timer.rs:228-291 | returns the state of the earliest due timeout, newest first, or nothing when none is due up to the target; the walk ends; then readiness is unset and the next wakeup scheduled; from a lost slot, less than a turn later, that wakeup is in the past unless the cursor is on a slot due now; after firing from a fresh timer, no other timeout due at that tick is announced; from a fresh timer that caches live ticks only, the wakeup scheduled is the earliest live timeout |
| `Timer.Timer.Fire` | src/timer.rs:263-270 | takes out and returns the next timeout of the queue, due at the current tick |
| `Timer.Timer.NextTickIsNeverLate` | src/timer.rs:343-355 | with the cache covering every live timeout, the next tick is not later than any and never zero |
| `Timer.Timer.NextTickIsEarliest` | src/timer.rs:343-355 | with a covering cache of live ticks, the next tick is exactly the tick of the earliest live timeout, or none |
| `Timer.Timer.NextTickIsLeastCached` | src/timer.rs:343-355 | with a fresh cache it is the least cached tick |
| `Timer.Timer.NextTickReachesExactly` | src/timer.rs:343-355 | in every state the next tick is not later than a given live timeout if and only if some slot's cached tick is not |
| `Timer.Timer.NextTickWhenDue` | src/timer.rs:343-355 | with a fresh cache, a timeout due now is announced if and only if the current slot still caches the current tick |
| `Timer.Timer.StartedIsSilent` | src/timer.rs:255-270 | once a poll of a fresh timer has started on the current slot, no timeout still due there is announced |
| `Timer.Timer.StaleIsPast` | src/timer.rs:343-355 | a slot lost less than a turn ago puts the next tick in the past, except while the cursor is on a slot due now |
| `Timer.Timer.NextTickIsNotPast` | src/timer.rs:343-355 | with a fresh cache it is not in the past |
| `Timer.Timer.NextTickIsWakeupBound` | src/timer.rs:280-288 | so it meets what the wakeup protocol asks of the timer |
| `Timer.Timer.SlotHoldsItsResidue` | src/timer.rs:357-359 | the list of slot s holds exactly the entries whose tick is s modulo the number of slots, each once |
| `Timer.Timer.Register` | src/timer.rs:369-392 | the first registration schedules the next tick, which is the earliest live timeout if the cache covers and holds live ticks only; a second one is refused |
| `Wakeup.StepKeepsInvariant` | src/timer.rs:315-341 | every atomic step of the owner, the thread and the clock keeps the protocol's invariant |
| `Wakeup.NoDeadlineMissed` | src/timer.rs:280-341 | in every interleaving, between calls each live timeout is covered by the scheduled wakeup or by readiness that is set or about to be; the thread never ends |
| `Wakeup.LateThreadIsAlerted` | src/timer.rs:419-463 | a thread that believes in a later wakeup than the shared word has been, or is about to be, unparked |
| `Wakeup.NeverOversleeps` | src/timer.rs:419-463 | a parked thread with no permit, no readiness and no call running waits for no more than the earliest timeout |
| `Wakeup.DueBecomesReadable` | src/timer.rs:419-463 | in every reachable state with no call running and a timeout due, six steps of the thread alone make the timer readable |
| `Wakeup.NeverEarly` | src/timer.rs:449-455 | the thread gives up a wakeup, to set readable, only when the clock has reached it |
| `Wakeup.ReadableSince` | src/timer.rs:280-284 | the timer is readable only if the thread has set it so since the last empty poll |
| `ReadinessInvariant.PrependKeepsChained` | src/poll.rs:717-741 | a successful compare-and-swap of the head extends the chain by the node and keeps both lists intact |
| `ReadinessInvariant.TakeKeepsOwned` | src/poll.rs:686-696 | swapping the list out hands every node of the chain to the poller |
| `ReadinessInvariant.DequeueKeepsOwned` | src/poll.rs:618-635 | clearing the queued flag frees exactly the node the poller holds |
| `ReadinessQueueRuns.StepKeepsInvariant` | src/poll.rs:449-741 | every atomic step keeps ownership, chains, wakeups and pending notifications |
| `ReadinessQueueRuns.RunKeepsInvariant` | src/poll.rs:449-741 | so every reachable state has them |
| `ReadinessTheorems.NoNotificationLost` | src/poll.rs:449-488 | after a readiness is stored and until the poller reads the node, the node is queued in the queue, or about to be re-read, or a thread has yet to try to queue it |
| `ReadinessTheorems.SingleOwnership` | src/poll.rs:473-488 | the queued flag is set exactly when the node is in one place: a pushing thread, the shared list, the poller's list or the poller's hand; both lists are acyclic and exact |
| `ReadinessTheorems.QueuedIsOwned` | src/poll.rs:473-488 | the same for any state with the ownership invariant |
| `ReadinessTheorems.DequeueSucceedsAtOnce` | src/poll.rs:603-635 | the poller's loop that clears the queued flag succeeds the first time |
| `ReadinessTheorems.OneReportPerPoll` | src/poll.rs:582-670 | one poll goes through exactly the nodes it swapped out at its start and reports each at most once |
| `ReadinessTheorems.NoLostWakeup` | src/poll.rs:676-741 | when the sleep token is gone under a sleeping poller, its wakeup byte is there or about to be written; each sleep is ended by at most one producer |
| `ReadinessTheorems.NeverSleepsOnANotification` | src/poll.rs:229-255 | with no producer inside a call, a sleeping poller with an unread notification has been woken |
| `ReadinessTheorems.NeedsWakeupExactly` | src/poll.rs:422-440 | the poller's own push needs a wakeup if and only if a `select` failed asleep and nothing was queued since; never in the loop of `poll` |
| `ReadinessTheorems.NeedsWakeupCanHappen` | src/poll.rs:422-440 | a reachable state in which the debug assertion of `update` fails |
| `ReadinessVisits.VisitReports` | src/poll.rs:590-668 | in every interleaving, the poller pushes one event for a node exactly if its last read found bits the node's interest asks for, with these bits and its token; a oneshot node that got one loses its interest |
| `ReadinessVisits.LevelGoesBack` | src/poll.rs:636-647 | a level-triggered node that is ready at the first read is on the list for the next poll |
| `ReadinessVisits.RequeuesOnlyReady` | src/poll.rs:618-647 | no other node is put back by the poller |
| `ReadinessVisits.QueuedExactly` | src/poll.rs:618-635 | after its visit a node is queued exactly if it was at the last read, unless a producer queues it meanwhile |
| `ReadinessVisits.LevelCanBeForgotten` | src/poll.rs:618-635 | a reachable state in which a level-triggered node is ready, not queued, and nobody is about to queue it |
| `ReadinessVisits.ForgottenStep` | src/poll.rs:582-670 | no step but a new readiness or an update ever changes that |
| `ReadinessVisits.EventsAreLastStored` | src/poll.rs:449-463 | the readiness read is the one last stored by any thread |
| `ReadinessVisits.RegistrationIsLastUpdate` | src/poll.rs:422-424 | the registration is that of the last update, until an event disarms it |
| `ReadinessVisits.UpdateQueues` | src/poll.rs:422-440 | when an update that found its node ready returns, the node is queued |
| `ReadinessVisits.BlocksExactlyWhenEmpty` | src/poll.rs:232-240 | a poll blocks if and only if the list was empty when the sleep token was put in place |
| `ReadinessVisits.ByteSince` | src/poll.rs:246-248 | the awakener's byte is there only if a producer has written it since it was last drained |
| `QueueModel.RegisterModel` | src/poll.rs:365-371 | a new registration leaves exactly two handles on a node that is not queued |
| `QueueModel.PollAllNodes` | src/poll.rs:582-670 | whatever the order of the list, a poll treats each node by itself: released, polled once, or untouched |
| `QueueModel.PollReports` | src/poll.rs:652-668 | one event per queued node whose interest meets its readiness, with exactly the common bits, and no other event |
| `QueueModel.ReportExactly` | src/poll.rs:652-662 | on the fields of a queued node with a handle: an event if and only if interest and readiness meet, with the bits they share and its token |
| `QueueModel.PollLeaves` | src/poll.rs:611-668 | such a node stays on the list exactly if level-triggered and reported; a reported oneshot node loses its interest; nothing else changes |
| `QueueModel.PollAllInOrder` | src/poll.rs:586-669 | events come in the order of the list |
| `QueueModel.PollKeepsValid` | src/poll.rs:582-670 | after a poll exactly the nodes with a live handle are left, and flags, list and counts agree |
| `QueueModel.DropKeepsValid` | src/poll.rs:543-558 | dropping a handle keeps them; the last one queues the node for release |
| `QueueModel.RunIsValid` | src/poll.rs:365-670 | every run from the empty queue keeps them |
| `QueueModel.LevelStaysQueued` | src/poll.rs:636-647 | after every call, a level-triggered node with readiness it is interested in is on the list for the next poll |
| `QueueModel.EdgeEventsAreTriggered` | src/poll.rs:618-635 | over a whole run an edge-triggered node gets no more events than it had non-empty `set_readiness` calls and updates |
| `QueueModel.OneshotOncePerUpdate` | src/poll.rs:664-667 | between two events of a oneshot node there is an update |
| `QueueModel.NodeLife` | src/poll.rs:543-558 | the count is the number of handles; a node without handles is never reported and the next poll releases it; a node with one is never released |
| `QueueModel.TriggeredIsQueued` | src/poll.rs:422-488 | a non-empty `set_readiness`, or an update of a ready node, puts the node in front of the list unless it is on it |
| `QueueModel.EventsAreLastSet` | src/poll.rs:449-463 | over a run, a node's readiness is the one last set |
| `QueueModel.DataIsLastUpdate` | src/poll.rs:422-424 | its token, interest and options are those last given, until an event disarms it |
| `QueueModel.PollReportsLast` | src/poll.rs:582-670 | so a poll reports a queued node exactly if the readiness last set and the interest last given meet, with those bits and that token |
| `QueueModel.DisabledIsSilent` | src/poll.rs:382-387 | after its registration is dropped a node gets no event until it is updated |
| `ReadinessQueue.ReadinessQueue.NewNode` | src/poll.rs:698-713 | the node heads the doubly linked list of all nodes |
| `ReadinessQueue.ReadinessQueue.Unlink` | src/poll.rs:803-822 | the list of all nodes stays doubly linked and loses exactly the node |
| `ReadinessQueue.ReadinessQueue.SetReadiness` | src/poll.rs:449-488 | refines the model's call; queues the node at most once |
| `ReadinessQueue.ReadinessQueue.Update` | src/poll.rs:422-440 | refines the model's call, or refuses another `Poll` and changes nothing |
| `ReadinessQueue.ReadinessQueue.CloneHandle` | src/poll.rs:508-541 | refines the model's call |
| `ReadinessQueue.ReadinessQueue.DropHandle` | src/poll.rs:543-558 | refines the model's call |
| `ReadinessQueue.ReadinessQueue.DropRegistration` | src/poll.rs:382-387 | disables the node, then drops its handle |
| `ReadinessQueue.ReadinessQueue.Register` | src/poll.rs:365-371 | a fresh node with two handles |
| `ReadinessQueue.ReadinessQueue.Poll` | src/poll.rs:582-670 | the loop over the linked list computes the model's poll: same nodes, same list, same events in the same order |
| `Channel.BalanceFits` | src/channel.rs:107-114 | the wrapped counter's tests against zero and one tell the truth |
| `ChannelRuns.StepKeepsInvariant` | src/channel.rs:117-269 | every atomic step of senders, receiver and `register` keeps the counter's accounting |
| `ChannelRuns.ReadinessNeverDropsAMessage` | src/channel.rs:196-248 | in every interleaving the counter is the balance of messages, and a positive balance means readable, or a sender or the receiver about to make it so, if and only if no `register` has missed it |
| `ChannelRuns.MissedExactly` | src/channel.rs:226-269 | messages are missed exactly from a `register` that overlooks them until the first `dec` that loads 1 |
| `ChannelRuns.QuietMeansReadable` | src/channel.rs:196-248 | with no call under way and messages or a disconnection to tell, the receiver is readable if and only if nothing is missed |
| `ChannelRuns.ReadableIsQueued` | src/channel.rs:196-269 | in every run a receiver set readable is queued, or a thread is about to queue it |
| `ChannelRuns.DropWasCounted` | src/channel.rs:217-223 | once the last sender is gone, its drop has been counted or is being counted |
| `ChannelRuns.DisconnectedStaysReadable` | src/channel.rs:217-248 | once all senders are gone, readiness never changes: readable through every receive, or never again if messages were missed |
| `ChannelRuns.RegisterNoticesExactly` | src/channel.rs:252-269 | `register` leaves every counted message noticed if and only if it saw the counter above zero, or the counter is still zero when the handle is published, or a sender that found it at zero has yet to look |
| `ChannelRuns.UndisturbedRegister` | src/channel.rs:252-269 | with no sender at work meanwhile, a `register` overlooks nothing |
| `ChannelRuns.RegisterCanOverlook` | src/channel.rs:252-269 | a reachable state with one message, all calls over, and the receiver neither readable nor queued |
| `ChannelRuns.OverlookedBySenders` | src/channel.rs:196-207 | no later step of any sender repairs that |
| `Notify.RunKeepsInvariant` | src/deprecated/event_loop.rs:341-351 | whenever the loop is about to poll, the registration is armed and a readable node is queued or about to be |
| `Notify.WaitingMessagesAreNoticed` | src/deprecated/event_loop.rs:341-351 | messages left by a `notify` that reached its cap make the next poll call it again |
| `Notify.TakesAtMostCap` | src/deprecated/event_loop.rs:341-347 | in every run the messages one `notify` has taken and those it may still take add up to `messages_per_tick` |
| `Notify.ReceiveOne` | src/channel.rs:166-171 | a receive takes the oldest message and keeps the channel's invariant; alone, it leaves the receiver readable if and only if a message or a disconnection is left to tell |
| `Notify.NotifyAlone` | src/deprecated/event_loop.rs:341-351 | handles the oldest messages in order, as many as the cap allows, and leaves the node queued if any remain and the receiver readable only then |
| `Coalesce.FirstTokensAreAll` | src/sys/unix/kqueue.rs:212-230 | the output has each token of the input once, and not the awakener's |
| `Coalesce.FirstTokensInOrder` | src/sys/unix/kqueue.rs:223-230 | tokens come in the order of their first raw events |
| `Coalesce.KindIsUnion` | src/sys/unix/kqueue.rs:232-250 | a token's event has a bit if and only if one of its raw events contributes it |
| `Coalesce.EventBits` | src/sys/unix/kqueue.rs:232-250 | each bit of a token's event, by the filters and flags of its raw events |
| `Coalesce.Events.Coalesce` | src/sys/unix/kqueue.rs:207-254 | the loop with its index map computes exactly that, and reports the awakener if and only if it occurs |
| `TcpWrite.BufferPool.Get` | src/sys/windows/buffer_pool.rs:10-12 | always an empty buffer, pooled or new |
| `TcpWrite.BufferPool.Put` | src/sys/windows/buffer_pool.rs:14-19 | a returned buffer is kept empty, while there is room |
| `TcpWrite.Stream.Register` | src/sys/windows/tcp.rs:496-516 | a stream becomes writable by registering only if no write is under way |
| `TcpWrite.Stream.WriteOverlapped` | src/sys/windows/tcp.rs:406-408 | hands over the data given, and the system's answer decides what is sent or kept |
| `TcpWrite.Stream.WriteV` | src/sys/windows/tcp.rs:276-300 | all buffers are accepted, in order, if and only if the stream is registered with no write under way and no past error; otherwise nothing changes; refines the machine |
| `TcpWrite.Stream.ScheduleWrite` | src/sys/windows/tcp.rs:396-432 | for every system, exactly the machine's loop on that system's answers |
| `TcpWrite.Stream.WriteDone` | src/sys/windows/tcp.rs:476-493 | a completion moves exactly the reported bytes from the tail to the bytes sent; the rest is written next; refines the machine |
| `TcpPipe.DriveObeys` | src/sys/windows/tcp.rs:386-432 | the loop asks at least once, goes on exactly after partial transfers, fails exactly if the last answer refuses, and sends as many bytes as the answers report |
| `TcpPipe.DriveConserves` | src/sys/windows/tcp.rs:396-432 | whatever the answers, the bytes sent and then the unsent tail stay the bytes accepted, unless the system refuses |
| `TcpPipe.ByteStream` | src/sys/windows/tcp.rs:276-493 | in every run with every system, what is sent is a prefix of what was accepted; nothing is missing but the pending tail unless a write was refused; a stream with a write under way is not writable, one whose write was refused always is |
| `TcpPipe.WritableExactly` | src/sys/windows/tcp.rs:175-188 | in every run a stream is writable if and only if no write is pending and it has been written to or was registered with an interest in writing; and when it is registered, and instantly notified |
| `TcpPipe.CompletedSends` | src/sys/windows/tcp.rs:476-493 | the bytes a completion reports are sent next |
| `TcpPipe.ConcatAppends` | src/sys/windows/tcp.rs:292-296 | buffers are gathered in order |
| `TcpPipe.BlockedForGood` | src/sys/windows/tcp.rs:276-288 | in every run, a registered stream answers every later `writev` with "would block" if and only if the system has refused a write |
| `TcpPipe.FailingCall` | src/sys/windows/tcp.rs:424-429 | the call that meets a refusal leaves the stream writable and loses bytes if and only if it had any |
| `TcpPipe.LossAfterRefusal` | src/sys/windows/tcp.rs:276-493 | from a refused write on, nothing is accepted or sent and the stream stays writable; what is sent is a proper prefix of what was accepted if and only if the refused write had bytes |
| `TcpPipe.LostForGood` | src/sys/windows/tcp.rs:276-493 | in every run, accepted bytes can never be sent any more if and only if a write with bytes was refused |
| `TcpPipe.AcceptedByteIsLost` | src/sys/windows/tcp.rs:424-429 | a run in which an accepted byte is never sent, the stream says it is writable, and it never takes a byte again |

## Left out

- Memory orderings: each atomic operation is one step of a sequentially consistent machine.
- The last drop of a handle while a poll is reading the node: in the atomic-step model nodes are never dropped; drops are in the whole-call model.
- `Poll::poll`'s selector: `select` returns at any time, with or without the awakener's event, or fails; epoll, kevent and completion ports themselves are not modelled.
- Clocks: elapsed times are parameters of the timer's methods; in `Wakeup` the clock may advance between any two steps.
- SetTimeoutAt: asks for `tick < TICK_MAX` and a positive tick length, because the source's `tick + 1` overflows and its division fails otherwise; a 32-bit `usize` that truncates ticks is not modelled.
- PollTo: asks for a target and a current tick below `TICK_MAX`, because `tick` could not step past them.
- The slab: an insert takes any vacant token.
- Dropping a registered timer: nothing in the source stops its wakeup thread.
- BalanceFits: assumes fewer than 2^62 messages and calls under way at once; `Run` asks it of every state.
- `mpsc`: a FIFO queue; bounded senders and sending to a dropped receiver are not modelled.
- Notify: the receiver is registered before any other thread has a sender, as the event loop does, so `register` is not part of its runs.
- CloneHandle: does not model the panic on an overflowing reference count.
- ScheduleWrite: asks for a system in which a write that completes at once transfers something unless there is nothing to transfer (`Honest`); otherwise the source's loop need not end.
- The capacity of a pooled buffer: only its contents are modelled.
- Connecting, accepting, reading and UDP on Windows, and a connect that completes while a write is pending.
- The I/O side of `Poll` (`register`, `reregister` and `deregister` of sockets), tokens that are invalid, `Ready` and `PollOpt` beyond the bits above, `io`, `net` and `unix` wrappers, and the rest of the deprecated event loop.
