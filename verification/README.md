# Rate limiter: a paced packet queue, its admission control, a timing wheel and the rate meters

The repository paces packets so that they leave at a configured rate, and measures the rate that results.
This project models four parts of it and proves what they are for.

- **The kfifo time ring** (`RateLimiter/sch_kfifo.c`, `.h`): a doubly linked ring of time slots, each with its own
  packet list, time budget and owed delay. `Kfifo` has the classes that rewrite the links, lists and counters in place.
  They are proved against `SlotWindow`, where the state is the sequence of slots from the read to the write pointer.
  `Pacing` proves what every run of enqueues and polls keeps.
- **The token bucket discipline** (`RateLimiter/sch_tsf.c`): `Tsf` has the class with the balance, the inner queue and
  the kfifo. It is proved against `TsfSystem`, which also holds the results on whole runs; `TokenBucket` is the
  arithmetic of refilling and charging on its own.
- **The user-space timing wheel** (`RateLimiter/ring/main.cpp`): `Ring` has the circular array and the timer handler. They are
  proved against `TimingWheel`, where slot `d` is the one reached after `d` ticks, `WheelEntry`, which is `in_ring`, and
  `WheelTimer`, which drives both. `WheelService` says when the handler keeps what it promises to waiting packets.
- **The meters** (`MeasureRate/nstream.cpp`, `MeasureRate/speed.cpp`): `RateEstimator` is `get_ratio`, `SampleQueue` its window of
  samples, `IntervalMeter` the interval state machine of `speed.cpp`, `FlowTable` the per-stream counters of `nstream.cpp`.

## Where the code falls short

Each of these is a theorem about the code as it is.

- Small packets are said to share a slot (comment at `RateLimiter/sch_kfifo.c:149-152`). On an idle queue they do not: after
  a first packet, a second one is accepted exactly when the first was too long for the time left of the read slot
  (`Pacing.IdleQueueBurst`).
- The capacity of the ring is `time*rate/1000` with the product taken in 32 bits. It is the intended one exactly when
  the product is below 2^32 (`Kfifo.CapacityIntendedIff`, with a ring that it fails in `Kfifo.CapacityWraps`).
- `kunit_enqueue_tail` leaves a well formed list exactly when the list was non-empty or the packet comes with a null
  `next`: the empty-list branch does not clear it (`Kfifo.KunitSkbHead.EnqueueTail`, `Kfifo.StaleNext`).
- `kunit_dequeue_head` does not clear it either. A packet that the kfifo hands out is unlinked exactly when it has emptied
  its slot; otherwise it still points to the packet that is now the first there (`Kfifo.KunitSkbHead.DequeueHead`,
  `Kfifo.KfifoQueueData.Dequeue`).
- `kfifo_init` does not touch `slen`, so the queue it builds is in a good state exactly when `slen` was zero
  (`Kfifo.KfifoQueueData.Init`).
- A packet that the kfifo refuses is neither queued nor freed: `kfifo_enqueue` only returns `NET_XMIT_DROP`, and its
  callers only count the drop. This holds for a new packet, for a segment, and for a waiting packet, in which case the
  new one is lost with it. An event loses no packet exactly when the kfifo takes the whole affordable prefix of the inner
  queue and then, if the rest of the balance covers it, the new packet (`TsfSystem.NothingLostIff`, and over runs
  `TsfSystem.RunLosesNothingIff`). `TsfSystem.LossExample` is a run from the start that loses two packets.
- The drain loop of `tsf_enqueue` is entered with a packet in hand, at whatever time, exactly when the inner queue is not
  empty (`TsfSystem.LoopHasPacketIff`). Where it is entered without one the model halts. A run goes on to its end
  exactly when every call finds a packet waiting (`TsfSystem.RunHaltsIff`).
- A segment or new packet that the balance covers is charged although the kfifo refuses it, and moves the check-point; a
  waiting packet that the kfifo refuses is not charged (`TsfSystem.EnqueueIsGreedy`, `TsfSystem.SegmentIsTold`).
- The watchdog time is exact, except that a packet that costs more than the bucket depth is never covered
  (`TsfSystem.WakeIsExact`).
- In the wheel a packet aimed exactly one round ahead wraps onto the current slot. One admission keeps order and contents
  exactly when that does not happen or the wheel is empty (`TimingWheel.EnterSafeIff`), and a run keeps them at every
  moment exactly when no admission wraps onto packets (`TimingWheel.ConservationIff`). `WheelService.WrapExample` is a
  first signal that admits two packets and holds one.
- Nothing bounds the packets joining one row of the wheel. On any wheel and with any queue, `in_ring` overruns a row
  exactly when it reaches a packet whose row is filled by what was in it and by the packets before it in the queue
  (`WheelEntry.RowOverrunIff`). At the program's rate any eighty-one packets of at most 131 bytes together do that to an
  empty wheel (`WheelEntry.RowOverrun`).
- `RateLimiter/ring/README.md` says a packet that waits too long is dropped and a waiting one enters when there is room. The
  code looks at waiting packets only when another one arrives, and not behind one that is too big.
  - Until the next arrival the queue stays as it is, however many signals come (`WheelService.QuietSignals`).
  - For packets in order of arrival, none has waited too long after a signal exactly when one arrived in that round or
    the front of the queue had not waited that long (`WheelService.NoneExpiredIff`).
  - After a call of `in_ring` no packet waits in spite of room exactly when none behind the packet at which the call stops
    would fit (`WheelEntry.ServedIff`); without arrivals the answer is the one before the signal
    (`WheelService.RoomIff`). The front of the queue alone waits in spite of room exactly when the call stops at a packet
    that is too big with one behind it that would fit (`WheelEntry.FrontServedIff`).
  - `WheelService.Stranded`, `WheelService.BehindLong` and `WheelService.BehindTooBig` are runs from the start in which a
    packet is too old, waits behind one that does not fit, and waits behind one that is too big.
- The meter of `speed.cpp` throws away what it counted in an interval when the whole next interval passes without a
  packet. A sample appears exactly when the next packet comes less than two intervals after the start
  (`IntervalMeter.ReportedIff`, with an input that it fails in `IntervalMeter.Abandons`), and nothing else is lost
  (`IntervalMeter.NothingElseLost`).

## Conditions

- `psched_l2t_ns` is an arbitrary function from length to a non-negative time. Clocks are inputs that never go back.
- A run starts from zeroed private data and one successful `kfifo_init`.
- The wheel's results on runs hold for any function from bytes to the slot aimed at; the code's, `TimingWheel.Aim`, is the
  floor of `bytes/(rate*1024)*block`.
- Doubles are exact reals, and counters other than the capacity product are unbounded.
- `== true` behind some predicates in invariants and contracts only keeps the verifier from unfolding them.

## Model

| member | source | states |
|---|---|---|
| SlotWindow.OfferAppends | RateLimiter/sch_kfifo.c:153-214 | an accepted packet goes to the back of the FIFO, its transmission time becomes owed delay, and every slot invariant holds afterwards |
| SlotWindow.OfferIff | RateLimiter/sch_kfifo.c:153-214 | in every good state a packet is accepted exactly when its bytes fit, the write slot is not the occupied read slot, and there is time left in the write slot or a slot for its whole time in front of the read pointer |
| SlotWindow.OfferPlaces | RateLimiter/sch_kfifo.c:171-206 | an accepted packet goes into the write slot or as many slots further as its rounded time needs, with the budgets that follow; an occupied read slot and all slots in front stay as they are |
| SlotWindow.PollTakesHead | RateLimiter/sch_tsf.c:227-238 | a poll hands out exactly the head of the FIFO, or leaves the FIFO as it is; from a non-empty queue it then settles the drained read slot for exactly what that owed |
| SlotWindow.IdlePoll | RateLimiter/sch_tsf.c:229-236 | a poll of a queue without packets asks for exactly the delay still owed and leaves the empty queue of the start |
| SlotWindow.PollDeliversIff | RateLimiter/sch_tsf.c:227-238 | a poll hands out a packet exactly when there is one and the read slot is not drained with delay owed |
| SlotWindow.PollPlaces | RateLimiter/sch_kfifo.c:220-249 | the packet comes from the first slot that holds any, which becomes the read slot and keeps the rest and its delay; nothing else changes |
| SlotWindow.TakeKeeps | RateLimiter/sch_kfifo.c:220-249 | a dequeue returns the head of the FIFO or nothing; it comes back empty-handed from a non-empty queue only when the read slot still owes its delay |
| SlotWindow.AdvanceKeeps | RateLimiter/sch_kfifo.c:124-148 | the read scan passes fresh slots only, changes neither FIFO nor owed delay, and stops at a packet unless there is none |
| SlotWindow.SettleKeeps | RateLimiter/sch_kfifo.c:18-29 | finishing a drained slot keeps the FIFO and releases exactly the delay that slot owed |
| SlotWindow.HeadSafe | RateLimiter/sch_kfifo.c:240-242 | none of the three unsigned counters can underflow when the head leaves |
| SlotWindow.InitialInv | RateLimiter/sch_kfifo.c:44-84 | the freshly built ring is in a good state exactly when the byte counter was zero |
| SlotWindow.OwedCoversQueued | RateLimiter/sch_kfifo.c:185-206 | owed delay minus queued transmission time is what the read slot has already released but not yet paid for |
| SlotWindow.EmptyMeansFresh | RateLimiter/sch_kfifo.c:18-29 | a slot of the window without packets and without owed delay has its full budget |
| SlotWindow.RoundUpIs | RateLimiter/sch_kfifo.c:171-176 | the recursive rounding used in the pacing bound is one slot more than the whole slots of the quotient |
| Pacing.StepKeepsInv | RateLimiter/sch_kfifo.c:153-249 | every step keeps the slot invariants, accepted = released + queued, and accepted time = delay requested + delay owed |
| Pacing.FifoOrder | RateLimiter/sch_kfifo.c:153-249 | over every run the released packets are a prefix of the accepted ones, the rest is still queued and fits the capacity |
| Pacing.ReachableSlots | RateLimiter/sch_kfifo.c:86-249 | in every reachable state the counters are right, every budget plus owed delay is a positive whole number of slots, skipped slots are fresh and the write slot holds a packet unless it is being read |
| Pacing.PacingBound | RateLimiter/sch_tsf.c:227-236 | over every run, released transmission time exceeds requested delay by at least 0 and at most the largest accepted packet time rounded up past whole slots |
| Pacing.MaxTimeIs | RateLimiter/sch_kfifo.c:165 | that largest packet time bounds every accepted packet and is reached by one of them |
| Pacing.PacingBetween | RateLimiter/sch_tsf.c:227-236 | the same between any two moments of a run |
| Pacing.DebtIsReached | RateLimiter/sch_kfifo.c:171-206 | for every largest packet time of at least a nanosecond some run reaches the upper bound, so it cannot be lowered |
| Pacing.TwoPollsDeliver | RateLimiter/sch_tsf.c:227-238 | two polls hand out at least one packet of a non-empty queue |
| Pacing.BoundedDrain | RateLimiter/sch_tsf.c:227-238 | after any run, 2m polls release the m queued packets in FIFO order |
| Pacing.SettledDrain | RateLimiter/sch_tsf.c:227-236 | one poll more leaves the queue as at the start: everything accepted is released, and the delay requested is exactly its transmission time |
| Pacing.IdleQueueBurst | RateLimiter/sch_kfifo.c:86-92 | on every idle queue, after one packet a second one that would fit is accepted exactly when the first was too long for the time left of the read slot |
| Kfifo.KunitSkbHead.EnqueueTail | RateLimiter/sch_kfifo.h:79-92 | appends to the linked list; the list stays well formed exactly when it was non-empty or the packet's next pointer was null |
| Kfifo.KunitSkbHead.DequeueHead | RateLimiter/sch_kfifo.h:103-117 | takes the head off the linked list, or returns null and changes nothing; the packet taken keeps pointing to the one behind it |
| Kfifo.StaleNext | RateLimiter/sch_kfifo.h:88-91 | a packet that still points to another one, put on an empty list, breaks it |
| Kfifo.KunitSkbHead.Reset | RateLimiter/sch_kfifo.h:72-76 | leaves a well formed empty list |
| Kfifo.Knode.Finish | RateLimiter/sch_kfifo.c:18-29 | makes the slot fresh |
| Kfifo.Chain | RateLimiter/sch_kfifo.c:74-81 | for every ring size of at least two, links all slots into one cycle with next and prev mutually inverse |
| Kfifo.Clear | RateLimiter/sch_kfifo.c:64-73 | makes every slot fresh with a well formed empty list |
| Kfifo.CapacityIntendedIff | RateLimiter/sch_kfifo.c:57 | the capacity is the intended one exactly when the 32-bit product does not wrap |
| Kfifo.CapacityWraps | RateLimiter/sch_kfifo.c:57 | a second of slots at ten megabytes a second gets a seventh of the capacity meant |
| Kfifo.KfifoQueueData.Init | RateLimiter/sch_kfifo.c:44-84 | succeeds exactly when memory is given and there are two slots; the ring is then one empty cycle, and a valid queue exactly when slen was zero |
| Kfifo.KfifoQueueData.WrConflict | RateLimiter/sch_kfifo.c:86-103 | succeeds exactly when the step is less than the distance to the read pointer and both pointers do not stand on a slot that holds a packet |
| Kfifo.KfifoQueueData.WriteForward | RateLimiter/sch_kfifo.c:104-123 | succeeds exactly when the step is less than that distance, then moves exactly that many places and charges the budget of the slot reached |
| Kfifo.KfifoQueueData.Enqueue | RateLimiter/sch_kfifo.c:153-214 | on the linked ring, accepts exactly what the specification accepts and leaves the state it prescribes; a dropped packet changes nothing at all |
| Kfifo.KfifoQueueData.ReadForward | RateLimiter/sch_kfifo.c:124-148 | moves the read pointer past fresh slots to the first packet or to the write pointer, and reports which |
| Kfifo.KfifoQueueData.Dequeue | RateLimiter/sch_kfifo.c:220-249 | on the linked ring, returns what the specification returns and leaves the state it prescribes; the packet is unlinked exactly when it has emptied its slot, and otherwise points to the packet now first there |
| Kfifo.KfifoQueueData.FinishRead | RateLimiter/sch_kfifo.c:18-29 | makes the drained read slot fresh and touches no other slot |
| Kfifo.KfifoQueueData.Poll | RateLimiter/sch_tsf.c:227-238 | a packet or the owed delay of the drained slot, as the specification prescribes, on the linked ring; the packet is linked on as Dequeue leaves it |
| TokenBucket.RefillIs | RateLimiter/sch_tsf.c:69-73 | the two caps come to one: the refilled balance is what there was plus the time passed, at most the depth, and never less than what there was |
| TokenBucket.RefillOften | RateLimiter/sch_tsf.c:69-78 | refills at any times in between change no later balance |
| TokenBucket.LegalKeepsInv | RateLimiter/sch_tsf.c:69-78 | the balance stays between zero and the depth over any covered charges |
| TokenBucket.SublogCharge | RateLimiter/sch_tsf.c:69-78 | charges left out never make a later one uncovered |
| TokenBucket.SpentFrom | RateLimiter/sch_tsf.c:69-78 | what is spent is at most the balance at the start plus the time that passes |
| TokenBucket.Conformance | RateLimiter/sch_tsf.c:69-78 | any consecutive charges cost at most the depth plus the time between first and last |
| TokenBucket.LegalConcat | RateLimiter/sch_tsf.c:69-78 | a sequence of charges is covered exactly when its two halves are, one after the other |
| TsfSystem.TracedSegments | RateLimiter/sch_tsf.c:64-89 | the states a segment loop passes through end in the state of the recursive specification |
| TsfSystem.SegmentsCounted | RateLimiter/sch_tsf.c:80-89 | the count of segments is of those the kfifo or the inner queue took; every other one is lost or freed |
| TsfSystem.AdmitCharges | RateLimiter/sch_tsf.c:75-173 | a covered segment or new packet is charged from the refilled balance, whether or not the kfifo takes it, a drained one only if it is taken; the charge is covered, and what the kfifo takes is accepted |
| TsfSystem.DrainCharges | RateLimiter/sch_tsf.c:144-161 | every charge of the drain loop is covered, its local balance is the refilled balance of the bucket, and it stops only when that covers no further packet or the kfifo is full |
| TsfSystem.EnqueueCharges | RateLimiter/sch_tsf.c:132-187 | every charge of a whole call is covered, and the check-point never passes the clock |
| TsfSystem.DrainIsGreedy | RateLimiter/sch_tsf.c:144-161 | the whole state after the drain: the affordable prefix of the inner queue is charged and accepted in order up to the first packet of it that the kfifo refuses; that one is gone and neither charged nor does it move the check-point |
| TsfSystem.TakingIs | RateLimiter/sch_tsf.c:146-147 | of packets offered in turn the kfifo accepts exactly that many and refuses the next |
| TsfSystem.AffordableIs | RateLimiter/sch_tsf.c:138-161 | that prefix is the longest one whose total cost fits the balance |
| TsfSystem.DrainTakes | RateLimiter/sch_tsf.c:144-161 | afterwards the kfifo takes what it would have taken behind the prefix |
| TsfSystem.EnqueueIsGreedy | RateLimiter/sch_tsf.c:132-187 | the whole state and fate told from the state before the call: the longest affordable prefix and then the new packet, if the remainder covers it, are charged and accepted up to the first refused; a refused new packet is charged as well and moves the check-point; the watchdog is set exactly when the new packet is sent to the inner queue |
| TsfSystem.SegmentIsTold | RateLimiter/sch_tsf.c:69-84 | the same for a segment: covered, it is charged and moves the check-point whether or not the kfifo takes it; not covered, it waits or is freed and nothing is charged |
| TsfSystem.NextIsTold | RateLimiter/sch_tsf.c:64-187 | so every event but a poll is told from the state before it |
| TsfSystem.WakeIsExact | RateLimiter/sch_tsf.c:175-185 | whenever it is set, the watchdog fires at the earliest time the balance covers the head of the inner queue, or the new packet if that is empty, if the bucket is deep enough for it |
| TsfSystem.NothingLostIff | RateLimiter/sch_tsf.c:75-173 | an event drops no packet without freeing it exactly when the kfifo takes all packets the event offers, as computed from the state before it: the affordable prefix and then the new packet if the remainder covers it |
| TsfSystem.RunLosesNothingIff | RateLimiter/sch_tsf.c:64-185 | and over every run |
| TsfSystem.EnqueueLedger | RateLimiter/sch_tsf.c:144-185 | one call leaves every packet waiting, accepted, freed by the inner queue or lost, and only one of these |
| TsfSystem.RunLedger | RateLimiter/sch_tsf.c:64-240 | and so does every run up to where the model halts |
| TsfSystem.LossExample | RateLimiter/sch_tsf.c:146-151 | a run from the start in which the kfifo refuses a waiting packet, which is lost and the new one with it |
| TsfSystem.LoopHasPacketIff | RateLimiter/sch_tsf.c:137-146 | the drain loop is entered only with a packet in hand, at every time from the check-point on, exactly when the inner queue is not empty |
| TsfSystem.EnqueueHaltsIff | RateLimiter/sch_tsf.c:137-146 | a call goes wrong exactly when it finds the inner queue empty |
| TsfSystem.RunHaltsIff | RateLimiter/sch_tsf.c:137-146 | a run goes on to its end exactly when every call finds a packet waiting |
| TsfSystem.SegmentsArePlayed | RateLimiter/sch_tsf.c:64-89 | segmenting a packet is a run of one event per segment |
| TsfSystem.RunConforms | RateLimiter/sch_tsf.c:64-185 | over every run the balance stays in the bucket and any consecutive charges conform to rate and depth |
| TsfSystem.PlayIsRun | RateLimiter/sch_tsf.c:97-240 | what a run of the shaper does to the kfifo is a run of the kfifo, of its polls and of the offers that each event is told to make, so the results on the kfifo apply |
| TsfSystem.RunPaces | RateLimiter/sch_tsf.c:97-240 | over every run packets leave in the order the bucket admitted them, cost no more than was charged, and keep the pacing bound |
| TsfSystem.PollsDrain | RateLimiter/sch_tsf.c:227-240 | after any run 2m+1 polls of a kfifo holding m packets leave it empty with all it took released and paid for, and change nothing else |
| TsfSystem.TakenIsSublog | RateLimiter/sch_tsf.c:75-78 | charging only the packets the kfifo took would have been covered too |
| TsfSystem.ReleasedTotal | RateLimiter/sch_tsf.c:64-240 | over every run the packets released are the first that the kfifo took, and cost no more than the time passed |
| TsfSystem.ReleasedRate | RateLimiter/sch_tsf.c:64-240 | over every run any consecutive released packets cost at most the depth plus the time between the admission of the first and the last |
| Tsf.TsfSchedData.Segment | RateLimiter/sch_tsf.c:64-94 | the segments, one by one against their own clock, leave the state the specification prescribes; success exactly when one was kept |
| Tsf.TsfSchedData.Drain | RateLimiter/sch_tsf.c:138-161 | where the loop is not entered without a packet, it comes to the specified drain, with the shortfall of the next packet in toks2 |
| Tsf.TsfSchedData.Enqueue | RateLimiter/sch_tsf.c:132-187 | the whole call leaves the state and sets the watchdog time the specification prescribes, and reports a drop exactly when a packet is lost; it halts exactly where the drain loop is entered without a packet |
| Tsf.TsfSchedData.Dequeue | RateLimiter/sch_tsf.c:227-240 | hands out the packet or the delay that the specified step releases |
| TimingWheel.EnterKeeps | RateLimiter/ring/main.cpp:82-102 | below one round an admission appends to what is held, overwrites nothing and keeps the byte counter right |
| TimingWheel.EnterSafeIff | RateLimiter/ring/main.cpp:85-98 | over all admissions the code lets through, that holds exactly when the target is below one round or the wheel is empty |
| TimingWheel.TickKeeps | RateLimiter/ring/main.cpp:107-129 | a tick releases the front of what is held and nothing else |
| TimingWheel.StepKeepsIff | RateLimiter/ring/main.cpp:69-129 | one step keeps order, contents and counter right exactly when it does not wrap onto packets |
| TimingWheel.Conservation | RateLimiter/ring/main.cpp:69-129 | over every run without such a step packets are released exactly once in admission order and the byte counter is the size of what is held |
| TimingWheel.ConservationIff | RateLimiter/ring/main.cpp:69-129 | over all runs the code lets through, that holds at every moment exactly when there is no such step |
| TimingWheel.EnterLocates | RateLimiter/ring/main.cpp:82-98 | an admitted packet is last in the wheel, in the slot it is aimed at or that of the last packet held, whichever is later, or in the current slot when it is aimed one round ahead |
| TimingWheel.PointerAtHeld | RateLimiter/ring/main.cpp:85-125 | over all runs the code lets through the insertion pointer is at the current row or at a row that holds packets |
| TimingWheel.LeadIsLastHeld | RateLimiter/ring/main.cpp:119-129 | so in a wheel in order it is at the last row that holds packets, and at the current one when none does |
| TimingWheel.ReleasedOnTime | RateLimiter/ring/main.cpp:107-129 | a packet in slot d is released by tick d+1, neither earlier nor later, whatever is admitted meanwhile |
| TimingWheel.DelayFrom | RateLimiter/ring/main.cpp:82-129 | the exact delay from any state in order: a packet leaves with tick 1 + max(slot aimed at, slot of the last packet held), and aimed exactly one round ahead with the next tick |
| TimingWheel.DueBounds | RateLimiter/ring/main.cpp:82-98 | that is no earlier than the slot aimed at, within one round, and exactly the slot aimed at on an empty wheel |
| TimingWheel.DelayBounds | RateLimiter/ring/main.cpp:69-129 | the same exact delay over every run, for a packet admitted when B bytes are held and aimed at the slot for B and its own bytes |
| WheelEntry.InRingTakesPrefix | RateLimiter/ring/main.cpp:69-105 | one call consumes a prefix of its queue and admits, in order, exactly the packets of it that are neither expired nor too big |
| WheelEntry.TargetIs | RateLimiter/ring/main.cpp:82 | a packet is aimed at slot k exactly when the bytes up to its own take at least k and less than k+1 thousandths of a second at the rate |
| WheelEntry.TooBigIff | RateLimiter/ring/main.cpp:78 | it is filtered exactly when it alone takes more than a second |
| WheelEntry.InRingIsPlayed | RateLimiter/ring/main.cpp:69-105 | its effect on the wheel is the run that admits those packets, aimed as the code aims them |
| WheelTimer.RowsHoldIff | RateLimiter/ring/main.cpp:140-168 | any number of signals overruns no row exactly when the condition of RowOverrunIff fails at each of them, told from the state before it |
| WheelTimer.IncomingIs | RateLimiter/ring/main.cpp:144-162 | a signal skips the expired packets at the front of the input and queues those behind them up to the first that has not arrived, which for packets in order of arrival are all that have |
| WheelTimer.HandlerIsPlayed | RateLimiter/ring/main.cpp:140-168 | under that condition, what any number of signals does to the wheel is a run of the wheel, which admits what they admit and releases what they print |
| WheelTimer.HandlerTicks | RateLimiter/ring/main.cpp:163-166 | with one tick for every tenth signal |
| WheelTimer.HandlerConserves | RateLimiter/ring/main.cpp:140-168 | so for every input, from any state in order, the handler prints what the wheel held and what is admitted in order, each packet once, up to those still held, as long as nothing wraps onto packets and no row is overrun |
| WheelTimer.HandlerDelay | RateLimiter/ring/main.cpp:140-168 | and each packet with exactly the tick DelayFrom says, told from the wheel before the signal that admits it, there being one tick for every tenth signal |
| WheelEntry.NoOverrun | RateLimiter/ring/main.cpp:87-89 | a row with places for all queued packets is not overrun |
| WheelEntry.RowOverrunIff | RateLimiter/ring/main.cpp:69-103 | for every rate, wheel and queue, in_ring overruns a row exactly when it reaches a packet whose row is filled by what was in it and by the packets before it in the queue, as computed from the state before the call |
| WheelEntry.RowOverrun | RateLimiter/ring/main.cpp:138 | at the rate of the program any eighty-one packets of at most 131 bytes together overrun a row of the empty wheel |
| WheelService.QuietSignals | RateLimiter/ring/main.cpp:144-166 | over any number of signals up to the next arrival the queue stays as it is while the wheel turns |
| WheelService.NoneYet | RateLimiter/ring/main.cpp:144-162 | there is no arrival before the front of the input has arrived |
| WheelService.NoneExpiredIff | RateLimiter/ring/main.cpp:70-74 | for packets in order of arrival, none in the queue has waited longer than the latency after a signal exactly when one arrived in that round, or the queue was empty, or its front had not waited that long |
| WheelService.SignalsSorted | RateLimiter/ring/main.cpp:144-158 | the handler keeps the packets in order of arrival |
| WheelEntry.InRingStops | RateLimiter/ring/main.cpp:76-85 | what is left of the queue, and the bytes in the wheel, told by the first packet that does not pass |
| WheelEntry.ServedIff | RateLimiter/ring/main.cpp:76-85 | after a call of in_ring no queued packet waits in spite of room exactly when none behind the packet at which the call stops would fit, as computed from the queue before the call |
| WheelEntry.FrontServedIff | RateLimiter/ring/main.cpp:76-85 | the front of the queue does not exactly when the call does not stop at a packet that is too big with one behind it that would fit |
| WheelService.RoomIff | RateLimiter/ring/main.cpp:144-162 | the same as ServedIff for a signal; without arrivals it holds exactly when it held before |
| WheelService.FrontRoomIff | RateLimiter/ring/main.cpp:144-162 | the same as FrontServedIff for a signal |
| WheelService.Stranded | RateLimiter/ring/main.cpp:144-166 | a run from the start after which a packet is queued for good, its latency over and the wheel empty |
| WheelService.BehindTooBig | RateLimiter/ring/main.cpp:78-81 | a first signal that leaves a small packet queued on an empty wheel |
| WheelService.BehindLong | RateLimiter/ring/main.cpp:82-85 | a first signal that leaves a small packet queued although it fits, behind one that does not |
| WheelService.WrapExample | RateLimiter/ring/main.cpp:85-98 | a first signal that admits two packets of which only the second is held |
| Ring.Ring.Place | RateLimiter/ring/main.cpp:76-101 | on the circular array, the admission the specification prescribes; a row overrun exactly when the row joined is full |
| Ring.Ring.InRing | RateLimiter/ring/main.cpp:69-105 | the loop leaves the wheel, the queue and the overrun the specification prescribes |
| Ring.Ring.DeRing | RateLimiter/ring/main.cpp:107-117 | releases the packets of the current row in order and takes off their bytes |
| Ring.Ring.StatusUpdate | RateLimiter/ring/main.cpp:119-129 | moves the position by one row, and the insertion pointer when it would be overtaken, as the specified tick does |
| Ring.Timer.Receive | RateLimiter/ring/main.cpp:144-162 | moves every arrived packet at the front of the input to the queue and calls in_ring at most once, only if there was one |
| Ring.Timer.Signal | RateLimiter/ring/main.cpp:140-168 | one signal does what the specified handler does, with a release on every tenth |
| RateEstimator.SortSorts | MeasureRate/nstream.cpp:114 | the sorted samples are in order and a permutation |
| RateEstimator.WidestQualifies | MeasureRate/nstream.cpp:116-131 | the widest pair always qualifies, so the search finds one |
| RateEstimator.Search | MeasureRate/nstream.cpp:121-131 | finds the lexicographically first pair of highest score among those with at least the average gap |
| RateEstimator.FirstBestIff | MeasureRate/nstream.cpp:122-130 | written out in products: of all pairs at least the average gap apart it is the first that no other betters, none having more samples squared for its spread |
| RateEstimator.EvenlySpaced | MeasureRate/nstream.cpp:116-134 | evenly spaced samples in any order are averaged whole: the estimate is their middle |
| RateEstimator.MeanBalances | MeasureRate/nstream.cpp:132-134 | the deviations of the samples from their mean cancel |
| RateEstimator.GetRatio | MeasureRate/nstream.cpp:109-136 | the common sample when all are equal, otherwise the mean of the samples spanned by that pair |
| RateEstimator.FirstBestUnique | MeasureRate/nstream.cpp:123-131 | there is only one such pair |
| RateEstimator.EstimateUnique | MeasureRate/nstream.cpp:109-136 | the samples determine the estimate |
| RateEstimator.OrderIrrelevant | MeasureRate/nstream.cpp:110-114 | permuting the samples does not change the estimate |
| RateEstimator.EstimateRescale | MeasureRate/nstream.cpp:109-136 | adding a constant to all samples or multiplying them by a positive one does the same to the estimate |
| RateEstimator.EstimateWithin | MeasureRate/nstream.cpp:132-134 | the estimate lies between the least and the greatest sample |
| SampleQueue.PushKeepsWindow | MeasureRate/nstream.cpp:179-186 | pushing a sample keeps exactly the last four, oldest first |
| SampleQueue.RatioOfRate | MeasureRate/nstream.cpp:178 | traffic at r megabits per second gives the sample r over any interval |
| IntervalMeter.StepKeeps | MeasureRate/speed.cpp:184-223 | every packet keeps the interval around the clock, the counter and all samples right |
| IntervalMeter.Attribution | MeasureRate/speed.cpp:184-223 | over every run with a clock that never goes back, the counter is the traffic of the current interval and every sample the traffic of one whole interval |
| IntervalMeter.NothingElseLost | MeasureRate/speed.cpp:198-222 | samples and counter add up to all the traffic but the whole traffic of certain intervals, each followed by an interval without a packet |
| IntervalMeter.ReportedIff | MeasureRate/speed.cpp:198-220 | the current interval is reported exactly when the next packet comes after its end and before twice its length |
| IntervalMeter.StartMoves | MeasureRate/speed.cpp:184-221 | where the interval begins after a packet: at the packet itself when it is the first or ends a silence of two intervals, one length on when it is behind the end, else where it was; with what that does to counter and samples |
| IntervalMeter.StartIsAnchored | MeasureRate/speed.cpp:184-219 | over every run the current interval begins at the last packet that opened one plus one length for each sample since, and each of these samples as many lengths before |
| IntervalMeter.SampleIsAnchored | MeasureRate/speed.cpp:184-219 | so every sample of a run is for an interval that begins whole lengths after a packet that opened one, as many as samples were reported in between |
| IntervalMeter.Abandons | MeasureRate/speed.cpp:198-202 | two packets two intervals apart, the count of the first of which is thrown away |
| IntervalMeter.Handler.HandleIP | MeasureRate/speed.cpp:184-223 | updates the globals as the specified step does and prints an estimate of the window exactly when a sample was added |
| FlowTable.FlowsDistinct | MeasureRate/nstream.cpp:306-308 | no pair gets two numbers |
| FlowTable.SeenIff | MeasureRate/nstream.cpp:306-308 | a pair has a number exactly when one of its packets has come |
| FlowTable.NumbersStay | MeasureRate/nstream.cpp:306-309 | a stream keeps its number for good |
| FlowTable.BytesAccounted | MeasureRate/nstream.cpp:177-194 | bytes turned into samples and bytes still counting are all the bytes of the pair |
| FlowTable.TickReports | MeasureRate/nstream.cpp:177-194 | every tick makes one sample for each pair seen, its traffic since the tick before, and none for others |
| FlowTable.BookTellsHistory | MeasureRate/nstream.cpp:306-349 | the books kept packet by packet and tick by tick say what the whole history says about every pair |
| FlowTable.FlowAccounting | MeasureRate/nstream.cpp:177-194 | so for every stream the samples and the counter add up to everything it has sent |
| FlowTable.Table.HandleIP | MeasureRate/nstream.cpp:306-349 | finds or assigns the number of the pair, keeps the table a bijection, and counts the packet for that stream alone; it overruns the arrays exactly for a new pair when all numbers are used |
| FlowTable.Table.TestFunc | MeasureRate/nstream.cpp:177-194 | turns every counter into a sample, keeps every queue the last four samples, and prints an estimate for every stream |

## Left out

- Kernel plumbing of `sch_tsf.c`: netlink parsing, registration, `tsf_change`, `tsf_dump`, statistics (`qlen`, `backlog`, drop counts), packet freeing and the DEBUG side queue are foreign calls or configuration.
- `tsf_delay`: its busy wait and watchdog; only the delay handed to it is modelled, which is a request and not a proof that time passed.
- Spin locks and signal preemption: each operation and each timer signal is one atomic step.
- `kfifo_reset` and reconfiguration of a queue in use: freeing and rebuilding are not consistent with the counters.
- Tsf.TsfSchedData.Enqueue: requires a packet that needs no segmenting; the size test before `tsf_segment`, GSO segmentation itself, the clock and the room in the inner queue are inputs, and the inner queue is a sequence. What happens once the drain loop is entered without a packet is not modelled.
- Tsf.TsfSchedData.Segment: takes the segments as a sequence, so their own `next` links are cleared but not walked.
- TsfSystem.RunConforms: no order is claimed between packets of the inner queue and packets admitted directly, because a small new packet may pass a larger waiting one; the clock is taken never to fall behind the check-point, where the unsigned difference would wrap.
- Kfifo.KfifoQueueData.Enqueue: requires a packet whose `next` is null, because the empty-list branch does not clear it (see `Kfifo.KunitSkbHead.EnqueueTail`); `step*UNIT_TIME` is an unbounded product, in the code a 32-bit `int`.
- Kfifo.KfifoQueueData.Init: the pointer `kmalloc` returns for a size of zero is not modelled, and contents of fresh memory are one arbitrary value per field.
- Fields that nothing reads back: `rate`, `gain`, `tlen` and `last_time` of a node, `now_bytes`, `max_byte_per_block` and `gaing_rate` of the wheel, `start` and `nxt` of the streams.
- WheelTimer.HandlerConserves: packet lengths are not negative, and nothing is claimed after a row overrun, where the code writes past the end of the row.
- Ring.Timer.Signal: the packets a tick prints are returned in order; their spacing within the tick is not modelled.
- FlowTable.Table.HandleIP: what happens after a new pair has indexed past the arrays is not modelled.
- RateEstimator.GetRatio: with one sample the gap is 0/0; no comparison with it succeeds, and the model returns that sample as the code then does.
- Floating-point rounding and overflow of byte counters.
- Packet capture, header parsing, port byte order, printing and `main` of the meters, and the copies of `get_ratio` in other files.
