# Proofs about the onboard and ground-station logic

The system is a balloon payload (C++ onboard) and its ground station (Python)
that share a 24 kbit/s link. The onboard heats specimens, bends them with
stepper motors, queues telemetry while the link is down and carries out a bend
plan alone once it is lost. This project models the parts that keep state over
long runs and proves what each is for.

* **The link budget.** `LinkHistory` remembers every ledger entry ever placed;
  with it the ledgers' theorem is proved: if the ledger never exceeds its share,
  no window on the wire does. `OnboardBudget` and `GroundBudget` are the two
  ledgers as classes whose every method is a step of such a history. `Egress`
  is the kernel's token bucket and its model, `Wire` the byte counts and the
  cap of both sides together.
* **Telemetry.** `QueueRuns` holds the index of maximal runs and the bisection
  bound, `QueueFile` one line of the queue file, `QueueDisks` what a disk
  that may fail makes of the file, `TelemetryQueues` the queue as a class with
  its five indexes and its file, `QueueLives` whole lives of a queue from one
  start to the next, `TelemetryDrains` one tick of delivery, `SeqSets` the
  ground's range set, `GroundStations` the receiver with its logs and its cursor
  file, and `Delivery` the whole path as a state machine of both ends, their
  restarts, and a network that loses, delays and resets.
* **Motion and heat.** `StepperMotion` is one motor as a value with its ranking
  argument, `StepperChannels` the motor and the lock as classes that refine it,
  `HeaterSchedulers` the power scheduler, `Interlock` all of them together
  with commands between ticks.
* **The fallback plan.** `FallbackPlans` is the plan as a value, `FallbackText`
  its text form, `Decimals` the six digits its numbers keep, `FallbackPlanners`
  the planner class, `FallbackFlight` the plan and the motors together.
* **Smaller algorithms.** `AutoTuners`, `Base64`, `Layouts`, `SpecimenLists`,
  `Medians`, `Rearrange` and `PlaceSpecimens`. `Text`, `Subsequence`, `Reals` and `Wrappers`
  are shared.

Time is a real number that does not run backwards; byte counts, indices and
positions are unbounded integers; seconds, rates, temperatures and duties are
real numbers. Each public method is one atomic step. What the network, the
disk, the motor driver, the clock and the sensors answer comes in as an
argument that may be anything.

## Where the code does less than its comments say

Each of these is stated as it is, with the exact condition or a concrete case.

* A rewrite of the queue file is judged before the stream's last bytes are out:
  when these fail, as on a full disk, what is left takes the queue file's place,
  the rewrite counts as a success and persistence stays on (`UnnoticedLoss`,
  and as a run `FullDiskRun`). The pending frames stand in the file exactly when
  no rewrite failed so, or what it left still holds them (`EnqueueDurable`,
  `RemovalDurable`, and the contract of `Initialize`); over a whole life without
  such a failure they always do, whatever else fails (`Live`).
* Of two pending frames of one (session, number) the queue can acknowledge one
  at most (`OneOfTwoUnnamed`, `DuplicateSticks`). Enqueueing keeps keys unique
  exactly when the new key is not pending (`InsertKeepsIndexed`). After
  persistence recovers inside `Enqueue` the new line is compacted and then
  appended again (`RecoveryDoubles`), so the next process can have a frame twice
  (`RecoverThenRestart`). The drain then loses no frame that was not
  acknowledged itself or as its double, but a replayed frame need not leave the
  queue (`SendOne`), and only the clock is certain to end the replay.
* The size limit of the queue may leave a stale frame at its head
  (`StaleFrameLeft`), exactly when the size cuts the queue later than its age
  does, at a stale frame (`StaleHeadStays`).
* A packet whose ACK cannot be sent is marked as received and never logged;
  its repeat is acknowledged as a duplicate (`DeliveredButNeverLogged`). A
  received key is logged exactly when its first ACK could be sent and the ground
  station lived to log it (`LoggedUnlessMuted`); one that ends between the ACK
  and the cursor write leaves no trace of the packet (`AnsweredThenForgotten`).
* A replay can land twice in a log after a restart of the ground station: a pull
  whenever it was logged and is still pending, because the pulls seen are kept in
  memory only (`PullLoggedTwice`), a packet when its cursor write had failed
  (`PacketLoggedTwice`); exactly then (`RelogExactly`). As long as no cursor write
  fails, packets are logged at most once over all runs (`LoggedAtMostOnce`,
  `WorkingCursorKeeps`).
* `telemetry_server.py` says DATA numbers start at 1; the onboard counter starts
  at 0 and events share it. Nothing here depends on it, because an ACK is
  matched to the one outstanding frame of its connection.
* Idle does not mean that the motion lock is free (`RetargetKeepsLock`): the
  exact rule is in the `ensures` of `MoveSteps`, `MoveToSteps` and `Home`.
* A pull whose hold is 0 stops at its target and does not retract (`Goal`).
* Bench open-loop heating keeps the interlock exactly when no motor has the lock
  or nothing is requested (`OpenLoopHeaters`, and as a run `HeatedWhileMoving`).
* A refund to the modelled bucket made after it has refilled puts the model
  ahead of the kernel (`LateRefundBreaksSimulation`). For equal rates it is safe
  exactly when the bucket always had room for the bytes and was not debited past
  its floor in between, or the kernel's bucket is full
  (`RefundSafeExactlyWithRoom`); at the instant of the charge it takes the
  charge back exactly (`RefundAtOnceUndoes`).
* A fallback plan is saved at six significant digits. A number survives exactly
  when it is the double nearest to its own six digits, so a hold of 3 + 1/1024 s
  does not (`SavedPlanKeepsSixDigits`, `HoldIsRounded`); a second save and load
  changes nothing more.
* The planner's own rule is that stopped is not arrived, but only a safety stop
  counts: a bend that the operator stops or switches off is taken for done where
  it stands (`StoppedCountsAsBent`), and so is one that a restart cut short
  (`RestedCountsAsBent`). Without a command in between a bend that
  counts as done is at its target (`TickFallbackPlan`).
* The planner's tick counter is incremented before it is compared with 1, so
  it never decides anything and is not modelled.
* The Base64 decoder accepts texts whose spare bits are not zero; a text reads
  back as itself exactly when they are (`EncodeUndoesDecode`).

## Model

| member | source | states |
|---|---|---|
| LinkHistory.NoWindowExceedsShare | ground-station/app/link_budget.py:10-16 | if each wire byte belongs to an entry and leaves between its placement and its end, every half-open window carries at most the share |
| LinkHistory.EveryRunKeepsTheShare | onboard/src/link_budget.cpp:113-190 | the same for every legal run of charges, holds, partial releases, refunds and timed releases, starting empty |
| LinkHistory.StepKeepsInv | onboard/src/link_budget.cpp:150-190 | every step keeps: at each admission, all that counted then and was not refunded fits the share |
| LinkHistory.LiveAfterPrune | onboard/src/link_budget.cpp:199-205 | the lazy prune of the list drops exactly the entries the history calls expired |
| OnboardBudget.LinkBudget.InWindow | onboard/src/link_budget.cpp:199-209 | sums what counts now, never more than the share, and drops only expired entries |
| OnboardBudget.LinkBudget.AdmitLocked | onboard/src/link_budget.cpp:261-281 | admits exactly when nobody more urgent waits, the counting bytes leave room and the bucket holds enough; a refusal leaves at most a prune and a refill |
| OnboardBudget.LinkBudget.TryCharge | onboard/src/link_budget.cpp:113-116 | an admitted charge counts from now for one window |
| OnboardBudget.LinkBudget.TryHold | onboard/src/link_budget.cpp:118-122 | an admitted hold is open until released |
| OnboardBudget.LinkBudget.WaitHoldFirst | onboard/src/link_budget.cpp:124-148 | the first attempt of a waiting hold: admitted exactly when there is room and nobody more urgent waits; registered as a waiter exactly when it may ever fit, does not fit now and the deadline has not come; otherwise given up. What is not admitted leaves the history and the bucket as time alone leaves them |
| OnboardBudget.LinkBudget.WaitHoldAgain | onboard/src/link_budget.cpp:131-145 | a woken waiter is admitted exactly when no strictly more urgent one is registered and there is room; it stays registered exactly when there is not and the deadline has not come, and leaves otherwise; the other waiters untouched and the ledger as time alone leaves it |
| OnboardBudget.WaitEnds | onboard/src/link_budget.cpp:131-145 | over any times of wake-up, whatever the others do between: the hold ends admitted exactly when an attempt up to the deadline fits, and waits on exactly while neither has come |
| OnboardBudget.LinkBudget.WaitAlone | onboard/src/link_budget.cpp:124-148 | a hold woken at these times while nobody else touches the ledger is admitted exactly when the ledger of its call has room for it at one of them, up to the deadline |
| OnboardBudget.LinkBudget.UrgencyIgnoresOneself | onboard/src/link_budget.cpp:133-135 | a waiter never counts as more urgent against itself |
| OnboardBudget.LinkBudget.ReleaseAt | onboard/src/link_budget.cpp:152-161 | re-times exactly the entry of this ticket; an unknown or forgotten ticket changes nothing |
| OnboardBudget.LinkBudget.ReleasePart | onboard/src/link_budget.cpp:163-179 | splits a closed part off the hold, no byte appears or disappears |
| OnboardBudget.LinkBudget.Refund | onboard/src/link_budget.cpp:181-190 | takes back at most what the entry has |
| OnboardBudget.LinkBudget.WireWithinShare | onboard/src/link_budget.cpp:199-209 | in every reachable ledger the wire covered by its entries stays within the share in every window |
| OnboardBudget.LinkBudget.DebitEgress | onboard/src/link_budget.cpp:234-244 | unscheduled bytes are debited too, and the debt never exceeds the bucket |
| OnboardBudget.LinkBudget.RefundEgress | onboard/src/link_budget.cpp:246-252 | a refund never fills the bucket beyond its size |
| GroundBudget.LinkBudget.InWindow | ground-station/app/link_budget.py:393-395 | sums the charges still counting and forgets only expired ones |
| GroundBudget.LinkBudget.CheckFits | ground-station/app/link_budget.py:410-426 | fits exactly when there is room, tokens and reserve, and no waiter goes before |
| GroundBudget.LinkBudget.TryCharge | ground-station/app/link_budget.py:331-339 | a plain charge goes only when no more urgent hold waits, and counts for one window; a refused one leaves the ledger as time alone leaves it |
| GroundBudget.LinkBudget.HoldFirst | ground-station/app/link_budget.py:341-360 | a new hold goes behind every waiter of its priority or a more urgent one; it waits exactly when it may ever fit, does not fit now and the deadline has not come; until it goes, the ledger is as time alone leaves it |
| GroundBudget.LinkBudget.HoldAgain | ground-station/app/link_budget.py:361-373 | no overtaking: an admitted waiting hold is the least by priority, then arrival, of all that wait; it waits on exactly when it does not fit and the deadline has not come; until it goes, the ledger is as time alone leaves it |
| GroundBudget.LinkBudget.Release | ground-station/app/link_budget.py:375-384 | closes an open hold after the delay and leaves any other charge as it is |
| GroundBudget.LinkBudget.WireWithinShare | ground-station/app/link_budget.py:67-72 | in every reachable ledger the wire stays within the share in every window |
| GroundBudget.LinkBudget.WaitSeconds | ground-station/app/link_budget.py:437-452 | a refused hold sleeps until the first of its deadline, the next moment a charge stops counting and the moment the bucket holds enough, and never misses a moment at which it could go by more than a millisecond |
| GroundBudget.LinkBudget.NothingExpires | ground-station/app/link_budget.py:441-445 | until the wake-up it computed, nothing stops counting |
| GroundBudget.LinkBudget.TokensStillShort | ground-station/app/link_budget.py:446-450 | until the wake-up it computed, less a millisecond, the bucket does not hold enough |
| GroundBudget.LinkBudget.RefundEgress | ground-station/app/link_budget.py:321-328 | a refund never fills the bucket beyond its size |
| Egress.AdmittedChargesNeverWait | ground-station/app/link_budget.py:18-24 | over every run without refunds no charge the model admits finds the kernel's bucket short |
| Egress.StepKeepsSimulation | onboard/src/link_budget.cpp:225-244 | each charge or unscheduled send keeps the kernel's bucket at least as full as the model's |
| Egress.TakeBounded | onboard/src/link_budget.cpp:267-273 | tokens stay within one bucket of debt exactly when a charge is at most a bucket more than there is |
| Egress.RefundAtOnceUndoes | onboard/src/link_budget.cpp:246-252 | a refund at the instant of its charge restores the bucket |
| Egress.LateRefundBreaksSimulation | onboard/src/link_budget.cpp:246-252 | a later refund can admit a charge that then waits: a concrete run |
| Egress.RefundWithRoomIsSafe | onboard/src/link_budget.cpp:246-252 | against a kernel of the same rate or a faster one: over every run in which the bucket keeps room for the bytes, a late refund leaves the kernel at least as full as the model |
| Egress.RefundSafeExactlyWithRoom | onboard/src/link_budget.cpp:246-252 | against a kernel of the same rate: after a late refund the kernel is at least as full as the model exactly when there was room all along or the kernel's bucket is full |
| Egress.SpanAtMostBurstPlusRate | ground-station/app/link_budget.py:18-24 | a token bucket passes at most its size plus the refill in any span, whatever went before |
| Wire.BothSidesCountAlike | ground-station/app/link_budget.py:52-60 | the ground's segment count equals the onboard's for every payload |
| Wire.SegmentsAreEnough | onboard/src/link_budget.cpp:23-31 | the segments carry the payload and no fewer would |
| Wire.LinkStaysUnderTheCap | ground-station/app/link_budget.py:67-72 | with shares 1600 and 1150 and 250 unaccounted, every one-second window stays within 3000 bytes |
| QueueRuns.RunsAreExactly | onboard/src/telemetry_queue.cpp:230-286 | the run index holds exactly the maximal runs of consecutive pending frames |
| QueueRuns.GrowKeepsRuns | onboard/src/telemetry_queue.cpp:237-250 | extending the newest run, or starting one, keeps it so |
| QueueRuns.WithoutKeepsRuns | onboard/src/telemetry_queue.cpp:265-274 | splitting the run around a removed frame keeps it so |
| QueueRuns.ReplayHalves | onboard/src/telemetry_queue.cpp:215-223 | one acknowledged replay leaves fewer runs longer than half the bound, or none |
| QueueRuns.BisectionBound | onboard/src/telemetry_queue.cpp:215-223 | from r runs none longer than n, after r(2^k - 1) acknowledged replays none is longer than n / 2^k |
| QueueFile.ParseOfFormat | onboard/src/telemetry_queue.cpp:414-452 | a line reads back as the frame it was written from exactly for a non-empty text and a non-empty session without a tab |
| QueueFile.PendingIsRecovered | onboard/src/telemetry_queue.cpp:92-106 | frames whose lines stand in a file in order come back in order, the stale ones left out |
| QueueFile.StaleByAge | onboard/src/telemetry_queue.cpp:390-407 | a frame is stale exactly when it was queued before the retention began; an older one is staler, and stays so |
| Text.StollOfFormat | onboard/src/telemetry_queue.cpp:434-442 | a 64-bit integer reads back as printed, using every character |
| Text.SplitOfJoin | onboard/src/telemetry_queue.cpp:91-92 | lines without a newline of their own read back one by one |
| TelemetryQueues.AcknowledgeShrinks | onboard/src/telemetry_queue.cpp:163-180 | an acknowledged frame leaves exactly when the key index names it |
| TelemetryQueues.InsertKeepsIndexed | onboard/src/telemetry_queue.cpp:230-235 | every frame stays findable by its key exactly when the new key was not pending |
| TelemetryQueues.OneOfTwoUnnamed | onboard/src/telemetry_queue.cpp:230-235 | of any two pending frames with one key the index names at most one |
| TelemetryQueues.DuplicateSticks | onboard/src/telemetry_queue.cpp:163-180 | a frame the key index does not name stays, unnamed, over every run of acknowledgements, insertions and removals of other frames |
| TelemetryQueues.TelemetryQueue.Insert | onboard/src/telemetry_queue.cpp:230-251 | all five indexes and the byte count agree with the frames after an insertion |
| TelemetryQueues.TelemetryQueue.Remove | onboard/src/telemetry_queue.cpp:253-275 | and after a removal |
| TelemetryQueues.TelemetryQueue.PendingEvents | onboard/src/telemetry_queue.cpp:205-213 | the oldest pending events, all of them or as many as asked for |
| TelemetryQueues.TelemetryQueue.NextReplay | onboard/src/telemetry_queue.cpp:215-223 | the middle of the longest, then oldest, run; nothing exactly when the queue is empty |
| TelemetryQueues.TelemetryQueue.Enqueue | onboard/src/telemetry_queue.cpp:124-142 | the queue and its key index are the old ones with the new frame, pruned; the file and the persistence flag for whatever the disk answers; and exactly when the pending frames still stand in the file |
| TelemetryQueues.TelemetryQueue.Prune | onboard/src/telemetry_queue.cpp:390-412 | the queue is cut off past the stale frames at its head, or further where the rest does not fit the size |
| TelemetryQueues.PrunedForCause | onboard/src/telemetry_queue.cpp:390-412 | every frame pruned is stale, or too much together with the newer ones; what is left fits the size |
| TelemetryQueues.StaleHeadStays | onboard/src/telemetry_queue.cpp:400-411 | a pruned queue has a stale head exactly when the size cuts it later than its age does, at a stale frame |
| TelemetryQueues.StaleFrameLeft | onboard/src/telemetry_queue.cpp:400-411 | it happens: a stale frame behind a fresh one stays when there is room for the stale one only |
| TelemetryQueues.TelemetryQueue.MaybeCompact | onboard/src/telemetry_queue.cpp:339-373 | compacts exactly when there is dead weight and little enough to write; what that does to file and flag for every answer of the disk |
| TelemetryQueues.TelemetryQueue.Compact | onboard/src/telemetry_queue.cpp:298-337 | a rewrite that gets all its bytes out leaves exactly the pending frames in order; one whose last bytes do not get out is a success all the same |
| TelemetryQueues.TelemetryQueue.AcknowledgeExact | onboard/src/telemetry_queue.cpp:163-180 | removes the frame the key names if its text is the same, and nothing else; what the disk then holds, and exactly when the pending frames still stand in it |
| TelemetryQueues.TelemetryQueue.Acknowledge | onboard/src/telemetry_queue.cpp:144-161 | removes exactly the frames of the session up to the number and their keys; what the disk then holds, and exactly when the pending frames still stand in it |
| TelemetryQueues.TelemetryQueue.Initialize | onboard/src/telemetry_queue.cpp:46-122 | the queue and its key index are what parses and is not stale, put in one after another in file order, each frame such that its line reads back; the file is rewritten to it, and holds it exactly unless the rewrite failed unnoticed; what a failed start leaves |
| TelemetryQueues.TelemetryQueue.RestartRecovers | onboard/src/telemetry_queue.cpp:81-109 | with persistence on and the pending frames in the file, a restart reads back every one that is not stale, in order |
| QueueDisks.EnqueueDurable | onboard/src/telemetry_queue.cpp:124-142 | after an enqueue the pending lines stand in the file exactly when no rewrite failed unnoticed, or what it left still holds them |
| QueueDisks.RemovalDurable | onboard/src/telemetry_queue.cpp:339-388 | the same after an acknowledgement |
| QueueDisks.UnnoticedLoss | onboard/src/telemetry_queue.cpp:307-336 | it fails: a compaction whose last bytes do not get out leaves an empty file with persistence on |
| QueueDisks.RecoveryDoubles | onboard/src/telemetry_queue.cpp:124-142 | after persistence recovers inside an enqueue the new line stands in the file twice |
| QueueLives.Live | onboard/src/telemetry_queue.cpp:46-122 | from a start on any file through any operations the queue and its disk are those of the whole run; as long as no failure of the disk goes unnoticed the pending frames stand in the file whenever persistence is on, and a restart at any time reads back every fresh one |
| QueueLives.LiveAndRestart | onboard/src/telemetry_queue.cpp:81-122 | the next process starts on what the whole run left: with every fresh frame the last one had pending, in order, and its own file holds them again |
| QueueLives.RecoverThenRestart | onboard/src/telemetry_queue.cpp:375-388 | a concrete run: persistence recovers, the process restarts, and the one frame is there twice, one of the two not to be found by its key |
| QueueLives.FullDiskRun | onboard/src/telemetry_queue.cpp:298-337 | a concrete run: on a full disk an acknowledgement leaves persistence on, the file empty and a frame pending that a restart will not have |
| TelemetryDrains.Drainer.SendOne | onboard/src/telemetry_drain.cpp:73-95 | the frame is asked for once; the queue is told exactly when its own ACK came, and the frame then leaves exactly when the key index names it; where every frame can be found by its key, it leaves and no other does |
| TelemetryDrains.Drainer.SendEvents | onboard/src/telemetry_drain.cpp:53-57 | asks for the oldest pending events in order, up to the first that is not acknowledged; where every frame can be found by its key and all are acknowledged: all pending events are through, or as many as a tick takes |
| TelemetryDrains.Drainer.Replay | onboard/src/telemetry_drain.cpp:59-64 | each round asks for the middle of the longest run then pending; it ends at a refusal, an empty queue, the end of the clock or the first round at or past the deadline, and only there; where every frame can be found by its key each acknowledged replay is a bisection step |
| TelemetryDrains.Drainer.Drain | onboard/src/telemetry_drain.cpp:22-71 | the tick asks for the live frame if it is pending, then the oldest events then pending, all or eight, then replays, and stops at the first that is not acknowledged; without one it goes through in full: live frame and events sent, and the replay ended by an empty queue or the clock; the result says just that. Only acknowledged frames or their doubles leave; where every frame can be found by its key, exactly these |
| TelemetryDrains.DeliveredCounts | onboard/src/telemetry_drain.cpp:83-94 | the queue has shrunk by exactly the number of acknowledged frames |
| TelemetryDrains.ReplayedMiddle | onboard/src/telemetry_queue.cpp:215-223 | removing the replayed frame is the step the bisection bound counts |
| TelemetryDrains.EventsThrough | onboard/src/telemetry_drain.cpp:53-57 | an event is left only when the tick's number of events was sent |
| SeqSets.EqualSetsEqualRanges | ground-station/app/seqset.py:48-62 | sorted, disjoint, non-adjacent ranges are determined by the set they hold |
| SeqSets.LengthsCountElements | ground-station/app/seqset.py:29-30 | the sum of the range lengths is the number of elements |
| SeqSets.Splice | ground-station/app/seqset.py:51-62 | replacing all touching ranges by their hull adds exactly the new range and keeps the form |
| SeqSets.SeqSet.Contains | ground-station/app/seqset.py:25-27 | the bisected lookup is membership |
| SeqSets.SeqSet.Len | ground-station/app/seqset.py:29-30 | len is the number of elements |
| SeqSets.SeqSet.Max | ground-station/app/seqset.py:32-34 | the greatest element, or -1 |
| SeqSets.SeqSet.Add | ground-station/app/seqset.py:40-46 | true exactly when the element was absent; the set gains it and nothing else |
| SeqSets.SeqSet.FromJson | ground-station/app/seqset.py:68-84 | the set the JSON value stands for, malformed items skipped |
| SeqSets.SeqSet.RoundTrip | ground-station/app/seqset.py:64-84 | reading back what was written gives the very same ranges |
| GroundStations.Receiver.Mark | ground-station/app/telemetry_server.py:473-477 | the range set of the session gains the number; true exactly when it was new |
| GroundStations.Receiver.Take | ground-station/app/telemetry_server.py:420-498 | the receive order: a new packet is marked, answered, its mark saved, then logged; a pull is logged once per process, then answered; the connection ends when an answer cannot be sent |
| GroundStations.Receiver.Restart | ground-station/app/telemetry_server.py:197-223 | a new process knows exactly the packets its cursor file holds, and no pulls |
| GroundStations.Receiver.TakeAndDie | ground-station/app/telemetry_server.py:482-498 | the process ends right after an answer: what the logs and the cursor file then hold, and what the next process knows |
| GroundStations.ReceiveKeepsGround | ground-station/app/telemetry_server.py:420-498 | every packet read is logged, remembered without an entry or answered and forgotten; without a restart nothing is logged twice; while the cursor file kept what is known, every known packet is logged or muted, never both |
| GroundStations.KilledKeepsGround | ground-station/app/telemetry_server.py:482-498 | the same when the process ends right after an answer |
| GroundStations.EntryExactly | ground-station/app/telemetry_server.py:433-498 | a line adds a log entry exactly when it is not taken for a repeat and, for a packet, its answer goes out |
| Delivery.StepKeepsInv | onboard/src/telemetry_client.cpp:935-985 | every step, restarts of either end included, keeps one message per connection, the conservation of frames and the ground's logs |
| Delivery.NothingLostSilently | onboard/src/telemetry_drain.cpp:83-94 | over all runs, restarts of either end included, a well-formed frame that is no longer pending was read by the ground or dropped: pruned, or not given back by the file at a restart |
| Delivery.LeavesOnlyWhenKnown | onboard/src/telemetry_drain.cpp:83-94 | a frame that is not dropped leaves only with its own ACK, and then the ground has read it |
| Delivery.LoggedAtMostOnce | ground-station/app/telemetry_server.py:433-498 | over all runs, restarts of either end included: logged is only what was enqueued; a packet at most once as long as the cursor file held all that was known at each restart of the ground, a pull at most once without one, and neither more often than one entry per ground process |
| Delivery.WorkingCursorKeeps | ground-station/app/telemetry_server.py:214-223 | if no write of the cursor file fails, the file holds all that is known over every restart |
| Delivery.RelogExactly | ground-station/app/telemetry_server.py:433-440 | after a restart of the ground a packet or pull can get another log entry exactly when its frame is still pending and it was not in the cursor file, where no pull ever is |
| Delivery.PullLoggedTwice | ground-station/app/telemetry_server.py:433-440 | a concrete run: a pull logged, its answer not sent, the ground restarted, the pull logged again |
| Delivery.PacketLoggedTwice | ground-station/app/telemetry_server.py:214-227 | a concrete run: the same for a packet whose cursor write failed |
| Delivery.AnsweredThenForgotten | ground-station/app/telemetry_server.py:482-493 | a concrete run: the ground ends between the answer to a packet and its cursor write; the frame has left the queue and nobody knows of it |
| Delivery.LoggedUnlessMuted | ground-station/app/telemetry_server.py:479-498 | a packet that was read is in the log, or its first answer could not be sent, or the ground ended right after it; while the cursor file keeps what is known, a known packet is in the log exactly when neither happened, and otherwise never will be |
| Delivery.DeliveredButNeverLogged | ground-station/app/telemetry_server.py:482-498 | a concrete run that ends delivered, acknowledged and in no log |
| Delivery.StepKeepsIndexed | onboard/src/telemetry_queue.cpp:230-264 | with fresh keys every frame stays findable by its key until a restart brings one back twice |
| Delivery.AcceptTakesItsFrame | onboard/src/telemetry_drain.cpp:91 | an accepted ACK takes the outstanding frame out of the queue |
| StepperMotion.MovingTickProgress | onboard/src/stepper_channel.cpp:345-357 | a moving tick never passes the target, and gets closer by at least a fixed positive amount unless it arrives |
| StepperMotion.TickLowersRank | onboard/src/stepper_channel.cpp:222-373 | every tick of an active motor lowers an explicit bound made of distance, rate, acceleration, microstep and hold |
| StepperMotion.TickKeepsMotor | onboard/src/stepper_channel.cpp:222-373 | every tick keeps the limits and the place where the motor will come to rest |
| StepperMotion.ComesToRest | onboard/src/stepper_channel.cpp:222-373 | left alone, a motor is idle at its goal after that many ticks |
| StepperChannels.LeaveAlone | onboard/src/stepper_channel.cpp:222-373 | the channel itself, ticked that often by a driver that takes every step: idle at its goal, and nobody has the lock it moved with |
| StepperMotion.NeverSlower | onboard/src/stepper_channel.cpp:85-116 | the ramped rate is never below the least of one tick's acceleration, the commanded rate and the last microstep's braking rate |
| StepperMotion.SlowestExists | onboard/src/stepper_channel.cpp:85-116 | there always is a rate that no moving tick is slower than, so the bound always exists |
| StepperMotion.RampLimited | onboard/src/stepper_channel.cpp:85-116 | in one tick the rate changes by at most acceleration times time, towards the lesser of the commanded and the braking rate and never past it |
| StepperChannels.MotionLock.TryAcquire | onboard/src/motion_lock.cpp:7-16 | refused while anybody holds the lock, the same motor included |
| StepperChannels.MotionLock.Release | onboard/src/motion_lock.cpp:18-26 | only the holder's release opens it |
| StepperChannels.StepperChannel.UpdateRampSpeed | onboard/src/stepper_channel.cpp:85-116 | the rate moves towards the lesser of commanded and braking rate by at most one tick's acceleration; the final clamps never act |
| StepperChannels.StepperChannel.IssuePulses | onboard/src/stepper_channel.cpp:118-173 | exactly the pulses before the first refused or stopped one are taken, never beyond the target; a refusal disables, a stop leaves the motor energised, both end the move |
| StepperChannels.StepperChannel.Tick | onboard/src/stepper_channel.cpp:222-373 | for every list of answers exactly what one tick does to the motor, the losses and the safety flag (`TickUpshot`); no tick starts a motor or passes the target, the move still ends where it was to end unless a safety stop ends it, and coming to rest gives the lock back |
| StepperChannels.BadPulseEndsMove | onboard/src/stepper_channel.cpp:118-173 | the first due pulse the driver refuses or stops at ends the move at the step it got to: idle there, disabled exactly on a refusal, with the losses counted |
| StepperChannels.NominalUpshot | onboard/src/stepper_channel.cpp:222-373 | with a driver that takes every step what the tick comes to is the nominal tick, without a loss |
| StepperChannels.StepperChannel.EndMove | onboard/src/stepper_channel.cpp:193-204 | at rest where it is, lock given back; whether for safety or by command is remembered |
| StepperChannels.NominalMove | onboard/src/stepper_channel.cpp:345-372 | issuing every due pulse and settling the leg is the nominal tick |
| StepperChannels.StepperChannel.EndHold | onboard/src/stepper_channel.cpp:286-308 | the end of a hold: retract, or rest with the lock given back |
| StepperChannels.StepperChannel.MoveSteps | onboard/src/stepper_channel.cpp:438-460 | accepted exactly when enabled, in range and the lock is had or free (or nothing has to move); a refusal changes nothing |
| StepperChannels.StepperChannel.MoveToSteps | onboard/src/stepper_channel.cpp:468-499 | the same for an absolute move with a hold |
| StepperChannels.StepperChannel.Home | onboard/src/stepper_channel.cpp:545-562 | the same for the way to 0 |
| StepperChannels.StepperChannel.ArmPullCycle | onboard/src/stepper_channel.cpp:703-738 | needs a free lock even from its own holder; sets out, to hold and come back to 0; a pull out of range is refused with its way back set |
| StepperChannels.StepperChannel.SetEnabled | onboard/src/stepper_channel.cpp:662-701 | switching off ends any move and gives the lock back even when the driver fails; off while moving is a loss |
| StepperChannels.StepperChannel.Stop | onboard/src/stepper_channel.cpp:582-594 | at rest where it is, lock given back |
| StepperChannels.StepperChannel.SetPositionZero | onboard/src/stepper_channel.cpp:564-580 | a new reference, the uncertainty cleared |
| StepperChannels.StepperChannel.RetargetKeepsLock | onboard/src/stepper_channel.cpp:449-457 | a move retargeted to where the motor stands ends idle with the lock held |
| HeaterSchedulers.HeaterScheduler.Schedule | onboard/src/heater_scheduler.cpp:34-135 | off while a motor has the lock or the budget is latched, otherwise the best-ranked requests, at most the allowed number, cut by one factor to the power limit; the budget latches exactly when this tick would reach it, and the energy delivered between resets stays below it |
| HeaterSchedulers.Choose | onboard/src/heater_scheduler.cpp:81-105 | the heaters that run are a top set by score, however ties are sorted |
| HeaterSchedulers.ElectronicsYields | onboard/src/heater_scheduler.cpp:81-91 | the electronics heater yields to every other that wants more than a tenth of what it wants; between the others the greater request ranks first |
| HeaterSchedulers.HeaterScheduler.Share | onboard/src/heater_scheduler.cpp:93-118 | one common factor brings the power down to the limit exactly, and only when it was above |
| HeaterSchedulers.SumTimes | onboard/src/heater_scheduler.cpp:112-118 | scaling every duty scales the power |
| HeaterSchedulers.EnoughChosen | onboard/src/heater_scheduler.cpp:93-105 | stopping at the allowed number leaves out only heaters that rank lower |
| Interlock.ControlLoop.ActiveMeansAloneAndCold | onboard/src/system_controller.cpp:1085-1119 | in every reachable state a moving, holding or retracting motor holds the lock, no other is active, every heater is at 0 |
| Interlock.ControlLoop.Apply | onboard/src/system_controller.cpp:2566-2588 | a command reaches only its motor; exactly when each command is accepted, and all that it does to motor, lock and losses, accepted or refused; heaters are out before anything can start |
| Interlock.ControlLoop.ForeignRelease | onboard/src/motion_lock.cpp:18-26 | a release by a motor that does not hold the lock changes nothing |
| Interlock.ControlLoop.ScheduleHeaters | onboard/src/system_controller.cpp:1090-1107 | with the lock held or the budget latched nothing heats, otherwise what the scheduler grants goes out whole unless its energy would reach the budget; a control reset clears only a tripped energy latch, and the count with it |
| Interlock.ControlLoop.OpenLoopHeaters | onboard/src/system_controller.cpp:1085-1089 | bench open-loop heating keeps the interlock exactly when no motor has the lock or nothing is requested |
| Interlock.HeatedWhileMoving | onboard/src/system_controller.cpp:1085-1089 | a concrete run from the start: a motor under way with the lock, and a heater on |
| Interlock.ControlLoop.StartBend | onboard/src/system_controller.cpp:636-653 | starts exactly when the speed makes sense, the move fits and the lock is had or free: headed for its target at its speed with the heaters out; a refused start leaves at most a new speed |
| Interlock.ControlLoop.TickMotors | onboard/src/stepper_controller.cpp:84-88 | every channel is ticked once, each with exactly what its driver's answers come to; ticking every channel starts none, can only give the lock back, and keeps every move on its course unless a safety stop ends it |
| FallbackPlanners.FallbackPlanner.Tick | onboard/src/fallback_planner.cpp:202-288 | what a tick does to the plan, the deadline clock and the offer in every case (`TickOf`), and that a start obeys every rule: window, order, readiness, temperature or deadline, no other motor bending |
| FallbackPlans.OfferExactly | onboard/src/fallback_planner.cpp:202-288 | a motor is offered a start exactly when the link is lost in flight, it waits, is switched on, zeroed, healthy and warm as it should be or the deadline is past, none bends, and those before it are settled or passed over |
| FallbackPlanners.FallbackPlanner.SetMotorPlan | onboard/src/fallback_planner.cpp:106-131 | refused while running; after a finished plan every configured motor waits again, unarmed |
| FallbackPlanners.FallbackPlanner.Arm | onboard/src/fallback_planner.cpp:133-157 | accepted exactly with a plan that is neither running nor finished |
| FallbackPlanners.FallbackPlanner.ReportStartResult | onboard/src/fallback_planner.cpp:290-311 | an accepted start stands, a postponed one waits again, a refused one fails motor and plan |
| FallbackPlanners.FallbackPlanner.RunsAreOrdered | onboard/src/fallback_planner.cpp:252-286 | along every run at most one motor bends, starts go up in id order, each accepted once at most until a new plan or disarming, done means bent or skipped |
| FallbackFlight.Flight.TickFallbackPlan | onboard/src/system_controller.cpp:599-672 | exactly which motor is offered a start and what comes of it: started, and the motor is under way as planned with the heaters out; postponed, exactly because another motor has the lock; refused, exactly because its move does not fit; what each makes of plan, motors and heaters. Nothing starts but with the link lost before landing, on a motor switched on, zeroed, healthy and warm or late. A bend counts as done exactly when the motor is at rest and no safety stop ended it, and then, without a command in between, stands where the plan wanted it |
| FallbackFlight.Flight.TickMotors | onboard/src/stepper_controller.cpp:84-88 | however the drivers answer, ticking the motors keeps every bend on its plan or marks it as stopped for safety |
| FallbackFlight.Flight.StoppedCountsAsBent | onboard/src/fallback_planner.cpp:205-222 | a bend that a command stops counts as done, wherever the motor stands |
| FallbackFlight.Flight.RestedCountsAsBent | onboard/src/fallback_planner.cpp:205-222 | so does a bend whose motor was set up anew, as after a restart |
| FallbackFlight.Flight.SafeIfLanded | onboard/src/system_controller.cpp:674-707 | once, after landing without a link: every motor stopped and off, the lock free, whatever the drivers answer |
| FallbackPlans.StartingKeeps | onboard/src/fallback_planner.cpp:252-272 | starting the first waiting motor keeps the order of all starts so far |
| FallbackPlans.AnswerKeeps | onboard/src/fallback_planner.cpp:290-311 | whatever the answer to a start, the order stays |
| FallbackText.SavedPlanLoads | onboard/src/fallback_planner.cpp:339-404 | a saved plan loads exactly when each of its numbers reads as a number, with its states and targets and the numbers as they read; it is the very same plan exactly when every number reads back |
| FallbackText.MotorLineReadsBack | onboard/src/fallback_planner.cpp:371-392 | one motor's line reads as that motor with its numbers as they read; as the very motor exactly when both numbers read back |
| Decimals.SixDigitsRead | onboard/src/fallback_planner.cpp:346-348 | a number prints as its six significant digits without a comma or a blank, and reads back exactly when it is the double nearest to them |
| Decimals.RereadOnceStays | onboard/src/fallback_planner.cpp:24-34 | what a number comes back as comes back as itself |
| Decimals.SavedPlanKeepsSixDigits | onboard/src/fallback_planner.cpp:339-404 | a saved plan always loads; unchanged exactly when each of its numbers is the double nearest to its six digits; and however often it is saved and loaded again it stays what it was after the first time |
| Decimals.HoldIsRounded | onboard/src/fallback_planner.cpp:346-348 | a hold of 3.0009765625 s comes back as the double nearest to 3.00098, in whatever plan it stands |
| Decimals.LibraryIsLikeIt | onboard/src/fallback_planner.cpp:24-34 | rounding to 53 bits, ties to even, meets what is asked of the nearest double, and a reader that refuses decimals out of range what is asked of the library |
| FallbackPlanners.FallbackPlanner.Deserialize | onboard/src/fallback_planner.cpp:353-404 | the plan a text stands for, or none at all; what had been started of the plan counts on |
| FallbackPlanners.FallbackPlanner.SaveAndLoad | onboard/src/fallback_planner.cpp:339-404 | a planner in any reachable state, saved and loaded, is in that state again with its numbers as they read, and what was accepted before counts as accepted: each motor once at most across restarts |
| AutoTuners.PidAutoTuner.Tick | onboard/src/pid_autotuner.cpp:48-113 | returns 0 or the relay duty; a running tune fails exactly on an invalid, too hot or late sample, or when the switch-on that completes its periods finds too small an amplitude or period, and is done exactly at that switch-on otherwise; then it has measured exactly the asked periods and troughs and one peak more, and its gains follow from them |
| AutoTuners.TracedCounts | onboard/src/pid_autotuner.cpp:75-110 | how many peaks, troughs and periods there are at every point of the oscillation |
| AutoTuners.CycleMeasured | onboard/src/pid_autotuner.cpp:115-137 | the amplitude is at least the hysteresis, and the periods add up to the time from first to last switching on |
| AutoTuners.SwitchesOff | onboard/src/pid_autotuner.cpp:75-87 | the trough is the lowest sample of the whole on phase, the switch samples included, the approach left out |
| AutoTuners.SwitchesOn | onboard/src/pid_autotuner.cpp:88-100 | the peak is the highest sample of the whole off phase, the period the time since the last switching on |
| AutoTuners.PidAutoTuner.Finish | onboard/src/pid_autotuner.cpp:115-154 | fails exactly below 0.05 C or 5 s; otherwise the gains follow from amplitude and period |
| AutoTuners.GainTimes | onboard/src/pid_autotuner.cpp:139-154 | both gain rules through their integral and derivative times: 2.2 and 1/6.3 of the period, and 1/2 and 1/8 |
| Base64.DecodeUndoesEncode | onboard/src/telemetry_codec.cpp:133-189 | every byte string decodes to itself |
| Base64.EncodedLength | onboard/src/telemetry_codec.cpp:133-161 | four characters for every three bytes begun, section 4 of RFC 4648 |
| Base64.PaddingOnlyAtEnd | onboard/src/telemetry_codec.cpp:146-159 | padding stands only in the last places and only to fill the last group |
| Base64.EncodeUndoesDecode | onboard/src/telemetry_codec.cpp:163-189 | an accepted text encodes back to itself exactly when its spare bits are zero |
| Base64.Base64Encode | onboard/src/telemetry_codec.cpp:133-161 | the loop computes the group-wise encoding |
| Base64.Base64Decode | onboard/src/telemetry_codec.cpp:163-189 | the loop computes the group-wise decoding, errors included |
| Layouts.DeriveLayoutFromSpecimens | onboard/src/config.cpp:115-180 | accepts exactly the acceptable layouts and fills the very maps the scripts show |
| Layouts.NoFaultsMeansAccepted | scripts/hardware_setup.py:373-396 | the scripts find no fault exactly with what the onboard accepts |
| SpecimenLists.WrittenListReads | scripts/hardware_setup.py:270-272 | what the scripts write, the onboard reads back: exactly a non-empty list whose numbers have at most four digits |
| SpecimenLists.ParseSpecimenList | onboard/src/config.cpp:84-111 | the list of all entries, or none when one is bad or there is none |
| Rearrange.Resolve | scripts/associate_heaters.py:541-587 | exactly the unpaired heaters, those sharing a terminal and those far slower than the median have a problem; every other one is believed with what its last test measured, and no two share a terminal |
| Rearrange.SlowAreFew | scripts/associate_heaters.py:573-585 | at most half of the clear measurements are distrusted as slow |
| Medians.MedianIsMiddle | scripts/associate_heaters.py:573-575 | at most half of the values lie on either side of the median |
| Rearrange.ComposeLayout | scripts/associate_heaters.py:590-612 | terminals pairwise distinct, every pair honoured, groups and lines kept; an unmeasured specimen keeps its terminal when no measured heater took it and no earlier one has it; the others get the first terminals left over, in order; with at most eight specimens or distinct terminals it never runs out of them |
| Rearrange.SpareIsEnough | scripts/associate_heaters.py:605-606 | with eight specimens or distinct terminals, the spare terminals suffice |
| PlaceSpecimens.Place | scripts/associate_heaters.py:709-727 | each motor has the specimens placed on it, its click first, then heated before unheated; no specimen is lost exactly when every motor named exists |
| PlaceSpecimens.PlacingPermutes | scripts/associate_heaters.py:717-727 | the new layout is a permutation exactly when every motor named exists |

## Left out

- Threads: every method is one atomic step; a waiting hold is an attempt at its call and one at each wake-up, with anything in between. The window between the schedule and the PWM writes and the race inside `ArmPullCycle` are not modelled.
- Floating-point rounding and the wrap-around of 64-bit counters: numbers are exact.
- OnboardBudget.LinkBudget.InWindow: the sum is capped at 32 bits as in the code, where the cap can never act because the share bounds the sum.
- Sockets, TCP_INFO, connect holds and their costs, discovery rounds, zlib and its dictionary: the network is a set of nondeterministic steps.
- TelemetryQueues.TelemetryQueue.Initialize: a queue file that exists but cannot be opened for reading is treated like a missing one.
- TelemetryQueues.TelemetryQueue.Compact: a power cut that loses bytes the system had accepted is not modelled; a failed rename is one of the noticed failures.
- TelemetryQueues.TelemetryQueue.RestartRecovers: a line torn by a crash counts as whatever it parses to; the promise covers the lines the queue wrote whole.
- Delivery.NothingLostSilently: a frame whose text the ground cannot read is acknowledged and dropped on purpose and is not covered.
- GroundStations.Receiver.Take: the heating-cycle log, the alert and the plotter are not modelled; what is logged is taken to be on disk.
- GroundStations.Receiver.Restart: a cursor file that is there but cannot be read counts as torn.
- StepperChannels.StepperChannel.Tick: the pulse thread and rescaling at a microstep change are not modelled; the square root comes in as its exact answer; limits are those a checked configuration allows.
- HeaterSchedulers.HeaterScheduler.Schedule: the nominal heater power is taken to be at least 0, which the configuration reader does not check.
- Interlock.ControlLoop.Apply: of the commands only their effect on motors and heaters; parsing, modes, travel caps on direct moves and replies are left out.
- Decimals.SavedPlanKeepsSixDigits: covers numbers that print without an exponent, 0 and those that round to 0.0001 .. 999999; for the others `SavedPlanLoads` holds with printing and reading as parameters. Of the nearest double it asks only, for 0 and 0.0000001 .. 10000000, to be within one part in 2^53.
- FallbackPlanners.FallbackPlanner.Deserialize: a text edited by hand can describe a plan no run reaches; the invariant is then not promised.
- FallbackPlanners.FallbackPlanner.ReportStartResult: it answers the start just offered; a command that arrives between an offer and its answer is not modelled.
- FallbackFlight.Flight.TickFallbackPlan: zero flags, driver health and temperatures are arguments; of the overrides after landing only the one for all heaters is kept, as a flag.
- SpecimenLists.ParseSpecimenList: the scripts' own reader takes longer numbers too; only the onboard's is modelled.
- The planner's error texts and status line, and every other log or reply text.
- Rearrange.Resolve: the wording of the problems is left out.
- Rearrange.ComposeLayout: takes an association as `Resolve` gives it (known heaters, distinct terminals).
- The thermal and PID controllers, the phase detector, configuration files, presets, user interfaces, deployment scripts and hardware drivers.
