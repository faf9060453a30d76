# Verified model of the kmx-aio core

kmx-aio is a C++ asynchronous I/O library. This project models the parts of it whose correctness is an
argument rather than a glance, and proves that argument in Dafny:

- **The single-producer single-consumer channel** (`Bits`, `RingArithmetic`, `Backpressure`, `Channel`,
  `ChannelProtocol`, `ChannelWakeup`). The ring is proved twice: as an object under sequential calls, and as
  a step system with one step per atomic access, in which index loads may be stale. Every interleaving is a
  bounded FIFO queue; no wake-up of a blocked producer is lost.
- **The thread-pool scheduler** (`Scheduler`), a step system over any number of workers, spawners and
  waiters, through construction, use and destruction.
- **The coroutine mutex** (`AsyncMutex`): exclusion, strict FIFO hand-off, and the inline resumption that
  makes `unlock` re-entrant.
- **The buffer pool** (`BufferPool`): a linked free list inside the slots, and leases that survive moves.
- **The KNX message codecs and address texts** (`Octets`, `Cemi`, `CemiImage`, `PropertyService`,
  `AddressText`, `GroupAddress`, `IndividualAddress`): round trips, the exact image of each encoder, and
  parsers proved equal to a grammar.
- **The KNX tunnelling session, client and server** (`TunnellingSession`, `TunnellingExchanges`,
  `TunnellingClient`, `TunnellingServer`, `TunnellingLink`, `TunnellingUplink`, `TunnellingDownlink`): the
  session state machine under any sequence of events, its retry budgets and its wrapping clock; the client's
  loops under any replies; the server's channel table; and a tunnel between the two over a lossy, repeating,
  reordering network, where what is delivered is characterised exactly each way. The ways differ: the client
  resends until it is acknowledged, the server sends once and forgets.

`Results` holds the option and result types.

The concurrent parts are step systems: `Enabled` says what may happen next, `Apply` what it does (in the tunnel
`CanMove` and `Moved`), `Legal` and `Final` run a sequence of steps, and the main results quantify over every legal run. The objects are
classes whose methods carry the loops and field updates of the source and are proved against specification
functions; the results are about those functions. Machine arithmetic is explicit: 64-bit index differences,
8-, 16- and 32-bit counters and octets all wrap where the source's do.

`dafny verify dfyconfig.toml` checks the whole project.

## Where the code and its documentation differ

The model follows the code.

- `source/library/api/kmx/aio/basic_channel.hpp:154-157` describes `head_` as the consumer's index and `tail_` as the producer's; the
  code uses them the other way round, as does the model.
- `wait_until_can_send` is documented not to busy-spin; `ChannelWakeup.SpinsExactlyWhen` gives the exact
  state in which it does, and `SpinIsReachable` reaches it.
- A channel whose two watermarks are equal is not throttled at the high one, since the low test comes first.
- A transport control frame is said to be reported as an unsupported service; it is always malformed
  (`Cemi.ControlFrameIsMalformed`).
- The session lifecycle is said to reach an open channel through a connect; `begin_request` is not guarded by
  one (`TunnellingSession.OpensExactlyBy`). The retained connect packet is said to be empty unless connecting;
  preparing a connect while idle and a request while connecting both leave one
  (`ConnectPacketKeptExactlyUnless`).
- A connect or disconnect with a retry budget of 65535 is never given up
  (`TunnellingSession.ConnectGivesUpExactlyWhen`).
- A repeat is documented as a retransmission of a frame already handled. On either side the frame may have been
  accepted and dropped: its acknowledgement could not be sent, Data Secure refused it, it arrived during a
  heartbeat's wait, or it came to `serve`, which discards events (`TunnellingUplink.FateIsFinal`,
  `DroppedRequestIsReachable`; `ExactlyOnceExactlyWhen` says exactly when delivery is exactly once all the same).
- The server's `send` is documented not to wait for an acknowledgement. It does not resend either, and a client
  refuses whatever is out of turn, so one lost datagram costs the next 255 as well
  (`TunnellingDownlink.DeafAfterMiss`, `OneLossDeafens`; `AllDeliveredExactlyWhen` says exactly when all arrive).
- A heartbeat is documented to wait for its answer; any datagram the session accepts ends it
  (`TunnellingExchanges.HeartbeatContentExactlyWith`).
- `receive_datagram` is documented to apply the datagram to the session; it notes the activity and nothing more
  (`TunnellingClient.ReceiveDatagramAppliesNothing`).
- `send_queue_full` is documented to mean that another operation is in flight. A request abandoned because
  something other than its acknowledgement arrived stays pending, and from then on it is what every send
  reports (`TunnellingClient.AbandonedForGood`).
- An inactivity timeout of 2^31 ms or more closes a session at once
  (`TunnellingSession.InactivityAgreesExactlyWhen`).

## Model

| member | source | states |
|---|---|---|
| `RingArithmetic.NextPowerOfTwoIsLeast` | source/library/src/kmx/aio/basic_channel.cpp:160-173 | the bit-smearing loop returns the least power of two that is at least max(n, 2), for every n up to 2^63, and wraps to 0 for every larger 64-bit n |
| `RingArithmetic.MaskedNextIsWrap` | source/library/src/kmx/aio/basic_channel.cpp:85 | the masked successor of a slot index is the index of the next element count |
| `RingArithmetic.MaskedDistanceIsDifference` | source/library/src/kmx/aio/basic_channel.cpp:74-79 | the masked unsigned difference of two indices is the true distance of the counts behind them, for counts less than a lap apart and through the 64-bit wrap |
| `RingArithmetic.FullTest` | source/library/src/kmx/aio/basic_channel.cpp:85-89 | next write position equals read position exactly when capacity - 1 elements are queued |
| `Backpressure.ClampsFit` | source/library/src/kmx/aio/basic_channel.cpp:31-41 | whatever is requested, the installed watermarks satisfy low <= high and 1 <= high <= usable slots |
| `Backpressure.HysteresisAgrees` | source/library/src/kmx/aio/basic_channel.cpp:175-183 | the flag left by the hysteresis agrees with the occupancy it was computed from: applying the rule again changes nothing |
| `Backpressure.HysteresisAfterPop` | source/library/src/kmx/aio/basic_channel.cpp:144-157 | clearing the flag at the low watermark is all a pop has to do: it equals running the full hysteresis automaton on the new occupancy |
| `ChannelProtocol.StepInv` | source/library/src/kmx/aio/basic_channel.cpp:81-158 | every atomic access of either thread, with index loads as stale as acquire loads allow and any value for the flag, keeps the ring invariant: indices match counts, occupancy bounded, exactly the unconsumed cells alive |
| `ChannelProtocol.StepRefinesQueue` | source/library/src/kmx/aio/basic_channel.cpp:115-158 | publishing is an enqueue with room, taking is a dequeue of the front, every other access leaves the abstract queue alone |
| `ChannelProtocol.InterleavingsAreFifo` | source/library/api/kmx/aio/channel.hpp:69-98 | every interleaving of pushes, waits and pops is a run of a bounded first-in first-out queue |
| `ChannelProtocol.PoppedIsPrefix` | source/library/api/kmx/aio/channel.hpp:84-98 | over every run the popped values are a prefix of the pushed values and the live cells hold exactly the rest, in order |
| `ChannelProtocol.SlotsAreExclusive` | source/library/api/kmx/aio/channel.hpp:75-78 | the producer constructs only into dead cells and the consumer destroys only live ones; the two are never at the same slot |
| `ChannelProtocol.DrainedRingIsDead` | source/library/api/kmx/aio/channel.hpp:56-64 | with both threads at rest and the ring drained, every pushed element has been destroyed once, in order, and no cell is alive |
| `ChannelProtocol.ObservationsAreConservative` | source/library/src/kmx/aio/basic_channel.cpp:83-91 | the true occupancy is bounded, the producer never under-counts it, and a pop deciding whether to clear the flag never over-counts it |
| `ChannelWakeup.NoLostWakeup` | source/library/src/kmx/aio/basic_channel.cpp:8-27 | over every run, a producer blocked in wait_until_can_send has its wake-up pending or still to come, and is never blocked with the ring drained and the consumer at rest |
| `ChannelWakeup.PoppingWakesProducer` | source/library/src/kmx/aio/basic_channel.cpp:138-158 | a consumer that keeps popping wakes a blocked producer within a bounded number of its own steps |
| `ChannelWakeup.GrantedPushSucceeds` | source/library/api/kmx/aio/basic_channel.hpp:31-39 | after wait_until_can_send returns, the next push cannot fail, whatever the consumer interleaves |
| `ChannelWakeup.DrainedWaitReturns` | source/library/src/kmx/aio/basic_channel.cpp:10-26 | with the ring drained and the consumer at rest a waiting producer is not blocked and returns within four steps |
| `ChannelWakeup.SpinsExactlyWhen` | source/library/api/kmx/aio/basic_channel.hpp:32-33 | the wait is documented not to busy-spin; it goes round without blocking exactly when the flag is down and the occupancy is at or above the high watermark and above the low one |
| `ChannelWakeup.SpinIsReachable` | source/library/src/kmx/aio/basic_channel.cpp:144-157 | that state is reachable: a pop that recorded an old head clears the flag raised by a later push |
| `ChannelWakeup.StaleFlagLoadStrandsProducer` | source/library/src/kmx/aio/basic_channel.cpp:146-152 | the wake-up guarantee needs a current flag load in the pop: with a stale one a producer is left blocked on an empty ring with the consumer at rest |
| `Channel.Channel.constructor` | source/library/api/kmx/aio/basic_channel.hpp:82-85 | a new channel is empty, its ring the smallest power of two that fits, its watermarks the clamped defaults, exactly for a minimum capacity up to 2^63; above that the ring has no slot |
| `Channel.Channel.Occupancy` | source/library/src/kmx/aio/basic_channel.cpp:74-79 | the number of queued elements |
| `Channel.Channel.Empty` | source/library/api/kmx/aio/basic_channel.hpp:43 | true exactly when nothing is queued |
| `Channel.Channel.ProducerCredits` | source/library/src/kmx/aio/basic_channel.cpp:54-59 | pushes left before the high watermark; with none left a push can succeed only when both watermarks sit at the occupancy and the ring has room |
| `Channel.Channel.CanSend` | source/library/src/kmx/aio/basic_channel.cpp:61-72 | true exactly when try_push would succeed |
| `Channel.Channel.SetBackpressure` | source/library/src/kmx/aio/basic_channel.cpp:29-52 | installs the clamped watermarks and moves the flag as the reference automaton does |
| `Channel.Channel.AcquirePushSlot` | source/library/src/kmx/aio/basic_channel.cpp:81-113 | succeeds exactly when the ring has room and the repaired flag is down, and then describes the next slot |
| `Channel.Channel.PublishPush` | source/library/src/kmx/aio/basic_channel.cpp:115-123 | the element count grows by one and the flag follows the reference automaton |
| `Channel.Channel.AcquirePopSlot` | source/library/src/kmx/aio/basic_channel.cpp:125-136 | succeeds exactly when an element is queued, and then describes the oldest one's slot |
| `Channel.Channel.PublishPop` | source/library/src/kmx/aio/basic_channel.cpp:138-158 | one more element is consumed and the flag follows the reference automaton |
| `Channel.Channel.TryPush` | source/library/api/kmx/aio/channel.hpp:69-80 | appends exactly when sendable; a refused push changes nothing |
| `Channel.Channel.TryPop` | source/library/api/kmx/aio/channel.hpp:84-98 | returns and removes the oldest element, or nothing when empty |
| `Channel.Channel.Close` | source/library/api/kmx/aio/channel.hpp:56-64 | drains: every element ever pushed has been destroyed exactly once, in order, and no cell is alive |
| `Scheduler.StepInv` | source/library/src/kmx/aio/scheduler.cpp:49-132 | every critical section and every action between them, of any number of workers, spawners and waiters, keeps the accounting, wake-up and shutdown invariants |
| `Scheduler.NoStrandedWork` | source/library/src/kmx/aio/scheduler.cpp:49-57 | over every run in use, a queued task has a worker awake or a notification owed, and while any worker sleeps there are as many ready workers and owed notifications as queued tasks |
| `Scheduler.IdleWaitIsSound` | source/library/src/kmx/aio/scheduler.cpp:69-78 | tasks start in spawn order; spawned = queued + active + finished; when wait_until_idle has returned every task spawned by then has been run and its captures destroyed; a blocked waiter whose condition holds is about to be notified |
| `Scheduler.WorkerWouldWaitForItself` | source/library/src/kmx/aio/scheduler.cpp:71-74 | a worker holding a task keeps the idle condition false, which is why it is turned away |
| `Scheduler.ShutdownTerminates` | source/library/src/kmx/aio/scheduler.cpp:20-47 | after the destructor's notify_all no worker sleeps, every worker that has not exited can act, the workers act at most seven times each, and none takes more than one task after its own stop request |
| `AsyncMutex.AsyncMutex.TryLock` | source/library/src/kmx/aio/async_mutex.cpp:13-26 | takes the mutex exactly when free and records no holder |
| `AsyncMutex.AsyncMutex.AcquireOrEnqueue` | source/library/src/kmx/aio/async_mutex.cpp:28-49 | a free mutex is taken and its holder recorded, otherwise the coroutine is queued last; the deadlock report is made exactly for the recorded holder |
| `AsyncMutex.AsyncMutex.Unlock` | source/library/src/kmx/aio/async_mutex.cpp:51-71 | ownership passes to the first waiter without the mutex becoming free, or the mutex becomes free |
| `AsyncMutex.Guard.MoveFrom` | source/library/api/kmx/aio/async_mutex.hpp:57 | ownership is transferred and the source owns nothing |
| `AsyncMutex.Guard.Release` | source/library/api/kmx/aio/async_mutex.hpp:80-84 | unlocks what is owned once; a guard that owns nothing touches no mutex |
| `AsyncMutex.Guard.Assign` | source/library/api/kmx/aio/async_mutex.hpp:62-71 | releases what was held, resuming its first waiter, and takes over; self-assignment changes nothing |
| `AsyncMutex.StepInv` | source/library/src/kmx/aio/async_mutex.cpp:13-71 | every acquisition, queueing and hand-off keeps the invariant: at most one owner, and the hand-offs so far followed by the waiters are the arrivals in order |
| `AsyncMutex.ExclusiveAndFifo` | source/library/src/kmx/aio/async_mutex.cpp:28-71 | over every run there is at most one owner, and coroutines are resumed in exactly the order they queued, once each |
| `AsyncMutex.NoBarging` | source/library/src/kmx/aio/async_mutex.cpp:58-64 | while anyone is queued the only way in is to be the first waiter when the owner unlocks |
| `AsyncMutex.ServedInTurn` | source/library/src/kmx/aio/async_mutex.cpp:51-71 | the waiter at position k is resumed by exactly the (k+1)-th following unlock, whatever happens in between |
| `AsyncMutex.NestingIsFlat` | source/library/src/kmx/aio/async_mutex.cpp:69-70 | a nest of calls, each allowed where it is made, in which unlock resumes coroutines inline, flattens into a legal run with the same outcome; it keeps the invariant, and at every inline resume the coroutine resumed is the one owner |
| `AsyncMutex.NestedIsExclusiveAndFifo` | source/library/src/kmx/aio/async_mutex.cpp:51-71 | exclusion and first-in first-out order hold after every nest of calls on a fresh mutex |
| `AsyncMutex.SelfAwaitNeverResumes` | source/library/src/kmx/aio/async_mutex.cpp:39-45 | an owner that awaits its own mutex never resumes: no unlock can follow and nobody is handed ownership again |
| `AsyncMutex.ReportedExactly` | source/library/src/kmx/aio/async_mutex.cpp:43-45 | the deadlock is reported exactly for a coroutine that owns the mutex through an await, not through try_lock |
| `BufferPool.Pool.constructor` | source/library/api/kmx/aio/buffer/pool.hpp:54-64 | every slot is on the free list, in order, and none is leased |
| `BufferPool.Pool.TryAcquire` | source/library/api/kmx/aio/buffer/pool.hpp:176-222 | an empty pool leases nothing; otherwise the head slot is unlinked and leased, and a failed construction puts the links back as they were |
| `BufferPool.Pool.Release` | source/library/api/kmx/aio/buffer/pool.hpp:224-246 | a leased slot is linked in at the head of the list and the count drops by one |
| `BufferPool.Handle.MoveFrom` | source/library/api/kmx/aio/buffer/handle.hpp:50-55 | the lease changes hands and the source is left empty |
| `BufferPool.Handle.Reset` | source/library/api/kmx/aio/buffer/handle.hpp:121-129 | returns the buffer if one is held; a second reset, or one after a move, touches no pool |
| `BufferPool.Handle.Assign` | source/library/api/kmx/aio/buffer/handle.hpp:58-69 | returns the lease held so far and takes the other over; self-assignment does nothing |
| `BufferPool.StepInv` | source/library/api/kmx/aio/buffer/pool.hpp:176-246 | every acquisition, move, reset and destruction keeps the lease invariant over any number of pools and handles |
| `BufferPool.LeasesAreExact` | source/library/api/kmx/aio/buffer/pool.hpp:176-246 | over every run the links of each pool, followed from its head, spell an acyclic list of exactly the slots no handle leases, free and leased add up to the capacity, and no slot is leased twice |
| `BufferPool.EveryLeaseReturnsOnce` | source/library/api/kmx/aio/buffer/handle.hpp:42-69 | over every run each lease is returned exactly once: not while a handle holds it, and all of them by the time no handle does |
| `Cemi.Encode` | source/library/api/kmx/aio/knx/cemi.hpp:376-392 | writes the wire form of an encodable message and nothing past it, and on failure reports the first reason and writes nothing |
| `Cemi.WriteLData` | source/library/api/kmx/aio/knx/cemi.hpp:346-370 | the octets written in place are those of the wire form |
| `Cemi.DecodedLengthIsExact` | source/library/api/kmx/aio/knx/cemi.hpp:492-543 | whatever decodes has exactly the length its own fields encode to, within the largest message; both views are in bounds and an octet payload runs to the end |
| `Cemi.ControlFrameIsMalformed` | source/library/api/kmx/aio/knx/cemi.hpp:503-512 | a transport control frame of its natural length is malformed, not unsupported as the comment says; unsupported is reported exactly for a zero length octet in a longer frame |
| `Cemi.DecodeEncoded` | source/library/api/kmx/aio/knx/cemi.hpp:376-531 | decoding inverts encoding for every encodable message, link fields, APCI bits and payload included |
| `Cemi.FrameReports` | source/library/api/kmx/aio/knx/cemi_frame.hpp:194-234 | the accessors of a decoded frame report the options, addressing and compactness the message was encoded with |
| `CemiImage.ServiceSurvives` | source/library/api/kmx/aio/knx/cemi.hpp:279-284 | over the round trip the application service and the compact value come back exactly under a stated condition on the service's bits, for every 16-bit service value |
| `CemiImage.CompactValueSurvives` | source/library/api/kmx/aio/knx/apdu_payload.hpp:41-46 | the value of a compact group telegram comes back with its service, less the bits beyond six |
| `CemiImage.OctetsSurvive` | source/library/api/kmx/aio/knx/apdu_payload.hpp:53-64 | whatever octets a payload can be made of come back with the group service; no octets come back as a compact zero |
| `CemiImage.ImageIsCanonical` | source/library/api/kmx/aio/knx/cemi.hpp:346-392 | the octet strings the encoder can produce are exactly the canonical ones |
| `CemiImage.ReencodingIsLossless` | source/library/api/kmx/aio/knx/cemi.hpp:492-531 | decoding and re-encoding gives the same octets exactly for canonical strings whose service bits are not forgotten |
| `PropertyService.Encode` | source/library/api/kmx/aio/knx/cemi.hpp:159-185 | writes the property service in place, or reports the first reason it cannot and writes nothing |
| `PropertyService.DecodeEncoded` | source/library/api/kmx/aio/knx/cemi.hpp:159-274 | decoding inverts encoding for every in-range header and accepted data, and the data view is the data |
| `PropertyService.EncodeDecoded` | source/library/api/kmx/aio/knx/cemi.hpp:247-274 | encoding inverts decoding exactly when the message carries at most 254 data octets; longer ones decode but are refused or, once the stored 16-bit size wraps, come back shorter |
| `AddressText.AppendDecimal` | source/library/api/kmx/aio/knx/address.hpp:37-59 | appends the decimal text of any 16-bit number without leading zeros, and changes nothing else |
| `AddressText.ProduceDigits` | source/library/api/kmx/aio/knx/address.hpp:40-48 | the scratch buffer of five digits always suffices and holds the digits last first |
| `AddressText.ReadDecimal` | source/library/api/kmx/aio/knx/address.hpp:66-85 | consumes exactly the maximal run of digits and returns its value, failing exactly when the run is empty or its value exceeds the limit; the 32-bit accumulator cannot overflow |
| `AddressText.DecimalOfValue` | source/library/api/kmx/aio/knx/address.hpp:37-85 | printing the number a digit run stands for gives the run without leading zeros |
| `AddressText.ValueOfDecimal` | source/library/api/kmx/aio/knx/address.hpp:37-85 | reading a printed number gives it back |
| `GroupAddress.FieldsAreBits` | source/library/api/kmx/aio/knx/group_address.hpp:127-139 | the quotients and remainders the model uses are the shifts and masks of the source |
| `GroupAddress.MakeIsBits` | source/library/api/kmx/aio/knx/group_address.hpp:71-78 | the three-level sum is the shifted or of the source |
| `GroupAddress.MakeTwoIsBits` | source/library/api/kmx/aio/knx/group_address.hpp:84-90 | the two-level sum is the shifted or of the source |
| `GroupAddress.MakeOfFields` | source/library/api/kmx/aio/knx/group_address.hpp:127-139 | an address is rebuilt from its own fields in both level styles |
| `GroupAddress.FieldsOfMake3` | source/library/api/kmx/aio/knx/group_address.hpp:71-78 | the fields of an address made from three components are those components |
| `GroupAddress.FieldsOfMake2` | source/library/api/kmx/aio/knx/group_address.hpp:84-90 | the fields of an address made from two components are those components |
| `GroupAddress.Parse` | source/library/api/kmx/aio/knx/group_address.hpp:96-122 | the cursor-driven parser computes the specification the grammar lemmas are about |
| `GroupAddress.ParseSpelling` | source/library/api/kmx/aio/knx/group_address.hpp:92-122 | every text of the grammar (one to three digit runs joined by slashes) is accepted exactly when its numbers fit their fields, with the address they denote |
| `GroupAddress.ParsedIsSpelled` | source/library/api/kmx/aio/knx/group_address.hpp:92-122 | nothing outside the grammar is accepted |
| `GroupAddress.Format` | source/library/api/kmx/aio/knx/group_address.hpp:147-164 | writes the canonical text in the requested style, at most nine characters, and nothing past it; a buffer under nine is refused untouched |
| `GroupAddress.ParseFormatted` | source/library/api/kmx/aio/knx/group_address.hpp:95-164 | parsing what was formatted gives the address back, for every address and style |
| `GroupAddress.FormatParsed` | source/library/api/kmx/aio/knx/group_address.hpp:95-164 | for every accepted text, formatting in its style gives that text without leading zeros |
| `IndividualAddress.FieldsAreBits` | source/library/api/kmx/aio/knx/individual_address.hpp:108-112 | the quotients and remainders the model uses are the shifts and masks of the source |
| `IndividualAddress.FromPartsIsBits` | source/library/api/kmx/aio/knx/individual_address.hpp:57-61 | the unchecked constructor is the masked, shifted or of the source |
| `IndividualAddress.FieldsOfParts` | source/library/api/kmx/aio/knx/individual_address.hpp:52-61 | the unchecked constructor keeps the device and the low four bits of area and line |
| `IndividualAddress.PartsOfFields` | source/library/api/kmx/aio/knx/individual_address.hpp:68-75 | the checked constructor rebuilds an address from its fields |
| `IndividualAddress.Parse` | source/library/api/kmx/aio/knx/individual_address.hpp:80-103 | the cursor-driven parser computes the specification the grammar lemmas are about |
| `IndividualAddress.ParseSpelling` | source/library/api/kmx/aio/knx/individual_address.hpp:77-103 | every text of three digit runs joined by dots is accepted exactly when its numbers fit, with the address they denote |
| `IndividualAddress.ParsedIsSpelled` | source/library/api/kmx/aio/knx/individual_address.hpp:77-103 | nothing outside the grammar is accepted |
| `IndividualAddress.Format` | source/library/api/kmx/aio/knx/individual_address.hpp:119-129 | writes the canonical text, at most nine characters, and nothing past it; a buffer under nine is refused untouched |
| `IndividualAddress.ParseFormatted` | source/library/api/kmx/aio/knx/individual_address.hpp:80-129 | parsing what was formatted gives the address back, for every address |
| `IndividualAddress.FormatParsed` | source/library/api/kmx/aio/knx/individual_address.hpp:80-129 | for every accepted text, formatting gives that text without leading zeros |
| `TunnellingSession.StepInv` | source/library/src/kmx/aio/knx/tunnelling_session.cpp:14-625 | every event, in any order and with any arguments, keeps the session invariant: a request is pending exactly while an acknowledgement is awaited and only then retained, retries stay within the budget, an open channel has a number, an unclosed session is under the heartbeat limit |
| `TunnellingSession.ClosedIsTerminal` | source/library/api/kmx/aio/knx/tunnelling_session.hpp:57-59 | over every run, no event but a reset takes a session out of closed |
| `TunnellingSession.OpensExactlyBy` | source/library/src/kmx/aio/knx/tunnelling_session.cpp:73-93 | an unconnected session opens exactly by an accepted connect response or by an accepted request, which the documented lifecycle does not have |
| `TunnellingSession.OpenedWithoutConnecting` | source/library/src/kmx/aio/knx/tunnelling_session.cpp:73-93 | a run that reaches connected with no connect in it |
| `TunnellingSession.ConnectPacketKeptExactlyUnless` | source/library/api/kmx/aio/knx/tunnelling_session.hpp:152-154 | the retained connect packet is empty outside connecting, as documented, unless a connect is prepared while idle or a request is accepted while a packet is retained, and only then not |
| `TunnellingSession.ConnectPacketOverRuns` | source/library/src/kmx/aio/knx/tunnelling_session.cpp:14-27 | over every run that documentation holds throughout exactly when neither of the two ever happens |
| `TunnellingSession.PrepareRetry` | source/library/src/kmx/aio/knx/tunnelling_session.cpp:135-145 | copies out the retained octets, and nothing past them, exactly when a request is pending, has timed out at least once and fits the buffer |
| `TunnellingSession.RetriesWithinBudget` | source/library/api/kmx/aio/knx/tunnelling_session.hpp:147-150 | every re-send within the budget is of the same octets under the same number, and the n-th deadline is n timeouts after the first, wrapping at 2^32 |
| `TunnellingSession.RequestGivesUpAfterBudget` | source/library/src/kmx/aio/knx/tunnelling_session.cpp:608-625 | an unanswered request is given up by timeout number max_retries + 1 and by no earlier one |
| `TunnellingSession.ConnectGivesUpExactlyWhen` | source/library/src/kmx/aio/knx/tunnelling_session.cpp:350-365 | an unanswered connect is given up, by timeout max_retries + 1, exactly when max_retries is below 65535; at 65535 the 16-bit counter wraps and nothing gives up |
| `TunnellingSession.DisconnectGivesUpExactlyWhen` | source/library/src/kmx/aio/knx/tunnelling_session.cpp:173-185 | the same for an unanswered disconnect |
| `TunnellingSession.HeartbeatsCloseAtLimit` | source/library/src/kmx/aio/knx/tunnelling_session.cpp:400-413 | the session closes at the heartbeat failure that reaches the limit, zero counting as one, and not before |
| `TunnellingSession.ExpiryAgreesExactlyWhen` | source/library/api/kmx/aio/knx/tunnelling_session.hpp:547-550 | on the wrapping 32-bit clock the signed deadline test agrees with the comparison of the true times exactly when they are within half a turn, whole turns aside |
| `TunnellingSession.ExpiryIsComparison` | source/library/api/kmx/aio/knx/tunnelling_session.hpp:423-426 | for true times at most 2^31 ms apart, a request or a connect has expired exactly when its deadline has passed |
| `TunnellingSession.InactivityAgreesExactlyWhen` | source/library/api/kmx/aio/knx/tunnelling_session.hpp:394-398 | for silences below 2^31 ms the inactivity test compares silence and timeout exactly when the timeout is below 2^31 ms; a longer one makes a session look silent at once |
| `TunnellingExchanges.WaitingTakesOnlyItsAck` | source/library/src/kmx/aio/knx/tunnelling_session.cpp:254-277 | a session waiting for an acknowledgement accepts exactly that one, passes over exactly the acknowledgements of others, and refuses everything else unchanged |
| `TunnellingExchanges.AwaitFollowsVerdict` | source/library/src/kmx/aio/knx/tunnelling_client.cpp:266-289 | for every sequence of replies the request ends as a judge that never sees the session says: silences count against the budget, stale acknowledgements are passed over, anything else abandons it |
| `TunnellingExchanges.SendLeavesWaitingExactlyWhen` | source/library/src/kmx/aio/knx/tunnelling_client.cpp:278-287 | a send that has ended leaves the session still waiting exactly when the request was abandoned |
| `TunnellingExchanges.HeartbeatContentExactlyWith` | source/library/src/kmx/aio/knx/tunnelling_client.cpp:291-318 | the heartbeat is content exactly with a good answer, the peer's heartbeat, its disconnect, or an acceptable tunnelled request, which it accepts without acknowledging or delivering it |
| `TunnellingExchanges.JoinFollowsReplies` | source/library/src/kmx/aio/knx/tunnelling_client.cpp:370-391 | for every sequence of replies a connect ends as they say: the first datagram decides it, connected, back to idle on a refusal, still connecting on anything else, and closed by the silence after the budget; with a budget of 65535 no number of silences ends it |
| `TunnellingExchanges.LeaveFollowsReplies` | source/library/src/kmx/aio/knx/tunnelling_client.cpp:320-368 | a disconnect reads past everything but its answer and ends closed when answered or after the budget of silences, still closing otherwise; with a budget of 65535 no number of silences ends it |
| `TunnellingExchanges.BeatFollowsReplies` | source/library/src/kmx/aio/knx/tunnelling_client.cpp:291-318 | a heartbeat passes over what is for another channel, out of turn or stale, and closes the session with exactly the failure that reaches the limit, silences and refusals counting alike; anything else ends it and leaves the session connected |
| `TunnellingExchanges.TransmissionsCounted` | source/library/src/kmx/aio/knx/tunnelling_client.cpp:266-391 | a packet is transmitted once more for each reply its exchange goes on after, a disconnect only for each silence |
| `TunnellingClient.Client.Send` | source/library/src/kmx/aio/knx/tunnelling_client.cpp:584-603 | sends a request from a connected session and ends as the replies alone decide: acknowledged, given up after the budget, or abandoned |
| `TunnellingClient.Client.Connect` | source/library/src/kmx/aio/knx/tunnelling_client.cpp:499-530 | sends nothing unless the session is idle and the packet fits; otherwise ends as the replies alone decide |
| `TunnellingClient.Client.Disconnect` | source/library/src/kmx/aio/knx/tunnelling_client.cpp:860-882 | sends nothing unless the session is connected; otherwise ends as the replies alone decide |
| `TunnellingClient.Client.Heartbeat` | source/library/src/kmx/aio/knx/tunnelling_client.cpp:620-638 | ends as the replies alone decide, and with success on the first datagram exactly when the session accepts it, whatever it is |
| `TunnellingClient.Client.Receive` | source/library/src/kmx/aio/knx/tunnelling_client.cpp:712-786 | checks inactivity before every wait, also one that then fails, and hands over a telegram only from the request its session has just accepted as new, acknowledged and opened |
| `TunnellingClient.Client.Exchanging` | source/library/src/kmx/aio/knx/tunnelling_client.cpp:266-391 | the four retry loops end as the replies alone decide, whatever state they were entered in, and keep the session invariant |
| `TunnellingClient.ReceivedIsNew` | source/library/src/kmx/aio/knx/tunnelling_client.cpp:775-784 | over every sequence of datagrams, what a receive returns is the request that last advanced the numbering, never a repeat |
| `TunnellingClient.ReceiveDatagramAppliesNothing` | source/library/src/kmx/aio/knx/tunnelling_client.cpp:712-737 | a raw receive succeeds exactly when the session is live and a datagram came, and then leaves the session as it was but for the time of activity: nothing is applied to it |
| `TunnellingClient.AbandonedForGood` | source/library/src/kmx/aio/knx/tunnelling_client.cpp:499-905 | after an abandoned request, in any sequence of operations without a shutdown or reset and whatever arrives, the session keeps waiting with the same request outstanding, and connecting, sending, the heartbeat, receiving telegrams and disconnecting all fail |
| `TunnellingClient.WaitingStep` | source/library/src/kmx/aio/knx/tunnelling_client.cpp:660-737 | on a waiting session a raw receive succeeds exactly if a datagram comes and poll exactly if no heartbeat is overdue; neither, nor any operation but a shutdown or reset, touches the request |
| `TunnellingServer.Server.Allocate` | source/library/src/kmx/aio/knx/generic_server.cpp:171-192 | asked for an address, exactly the channel of that address or the refusal that fits; otherwise the lowest free channel, refusing only when all are taken |
| `TunnellingServer.Server.Offer` | source/library/src/kmx/aio/knx/generic_server.cpp:459-478 | an offered channel was free and starts from nothing, whatever it carried before; no other channel is touched |
| `TunnellingServer.Server.TakeTunnelled` | source/library/src/kmx/aio/knx/generic_server.cpp:665-700 | a request is handed up only if its sender holds the channel, its number is due and its acknowledgement went out; a number is used up without that exactly by a failed acknowledgement |
| `TunnellingServer.Server.ClaimSequence` | source/library/src/kmx/aio/knx/generic_server.cpp:836-843 | every claim of an open channel gets the next number modulo 256 and changes nothing else in the table |
| `TunnellingServer.Server.Disconnect` | source/library/src/kmx/aio/knx/generic_server.cpp:872-879 | releases that channel and no other |
| `TunnellingServer.Server.Poll` | source/library/src/kmx/aio/knx/generic_server.cpp:895-918 | releases exactly the channels silent past the timeout on the wrapping clock, and none when there is no timeout |
| `TunnellingServer.NumbersAsClient` | source/library/src/kmx/aio/knx/generic_server.cpp:665-684 | the server takes as new, and as a repeat, exactly what a connected client session with the same numbering does, and moves the numbering alike |
| `TunnellingLink.ConnectingLinks` | source/library/src/kmx/aio/knx/generic_server.cpp:459-478 | the tunnel the results below start from is what connecting forms: a fresh client whose connect is answered with an offered channel |
| `TunnellingUplink.MoveInv` | source/library/src/kmx/aio/knx/generic_server.cpp:686-700 | issuing, re-sending, taking with or without a sent acknowledgement or a taker for the event, acknowledgements, housekeeping, the server's own sends and releasing the channel keep the client's requests and the server's numbering in step |
| `TunnellingUplink.OnlyTheNextIsAccepted` | source/library/src/kmx/aio/knx/generic_server.cpp:665-684 | in time, the server accepts exactly the next request of the client and recognises as a repeat exactly the last one |
| `TunnellingUplink.DeliveredExactlyTheKept` | source/library/src/kmx/aio/knx/generic_server.cpp:686-700 | over every run of a tunnel on a network that loses, repeats and reorders datagrams in time: everything the client issued has been accepted once and in order but perhaps the request outstanding or given up, and what was delivered is exactly the accepted requests whose acceptance went through to delivery, in order |
| `TunnellingUplink.KeptIsExact` | source/library/src/kmx/aio/knx/generic_server.cpp:691-699 | those deliveries are exactly the requests with a good fate, each once, in the order issued |
| `TunnellingUplink.ExactlyOnceExactlyWhen` | source/library/src/kmx/aio/knx/generic_server.cpp:691-699 | over every run, exactly-once in-order delivery holds if and only if no request was accepted and dropped that the client has since got past |
| `TunnellingUplink.ExactlyOnce` | source/library/src/kmx/aio/knx/generic_server.cpp:742-761 | so it holds over every run in which whatever the server receives is acknowledged and its event taken |
| `TunnellingUplink.FateIsFinal` | source/library/src/kmx/aio/knx/generic_server.cpp:691-699 | over every run and every continuation, an accepted request is delivered if and only if its one acceptance delivered it: a retransmission does not bring it back |
| `TunnellingUplink.DroppedRequestIsReachable` | source/library/src/kmx/aio/knx/generic_server.cpp:763-785 | from any tunnel there is a run that leaves the client connected and its request undelivered, because its first acknowledgement could not be sent or because nobody took the event |
| `TunnellingUplink.RetransmitIsIdentical` | source/library/api/kmx/aio/knx/tunnelling_session.hpp:147-150 | over every run a retry puts on the wire only the frame the request first went out as |
| `TunnellingUplink.ExchangeCompletes` | source/library/src/kmx/aio/knx/tunnelling_client.cpp:266-289 | once a frame has reached the server in any way, taking it again brings an acknowledgement that ends the request; it has been delivered exactly if the first way it was taken delivers |
| `TunnellingUplink.WindowIsTight` | source/library/src/kmx/aio/knx/generic_server.cpp:676-679 | a request 256 back is accepted as the next one and delivered again |
| `TunnellingUplink.AckWindowIsTight` | source/library/src/kmx/aio/knx/tunnelling_session.cpp:254-269 | an acknowledgement 256 back is taken for the one awaited |
| `TunnellingUplink.StaleRepeatIsDelivered` | source/library/src/kmx/aio/knx/generic_server.cpp:676-679 | from any tunnel there is a run, in step so far, after which a repeat of the first request is delivered a second time, so the window cannot be dropped |
| `TunnellingDownlink.MoveInv` | source/library/src/kmx/aio/knx/generic_server.cpp:845-870 | every move of either end, whatever the network does, keeps the server's numbers, the client's numbering and its deliveries in agreement with what was issued and accepted |
| `TunnellingDownlink.AcceptsExactlyTheDue` | source/library/api/kmx/aio/knx/tunnelling_session.hpp:354-373 | a connected client accepts exactly the first request and then the successor by eight-bit number of the last accepted, and takes for a repeat exactly one numbered as the last |
| `TunnellingDownlink.AcceptedExactlyTheFollowing` | source/library/src/kmx/aio/knx/tunnelling_client.cpp:754-801 | over every run, with nothing asked of the network: the requests accepted are exactly the first to reach the client and then each that follows the last accepted one by number, and the requests delivered are exactly those of them that came to a receive, could be acknowledged and were opened |
| `TunnellingDownlink.AcceptsExactlyTheLater` | source/library/api/kmx/aio/knx/tunnelling_session.hpp:370-373 | in time, a request is accepted if and only if it is the first, the one after the last accepted, or a whole number of turns of the counter after that |
| `TunnellingDownlink.InOrderAtMostOnce` | source/library/src/kmx/aio/knx/tunnelling_client.cpp:775-784 | over every run in time no request of the server is accepted or delivered twice, and they are accepted and delivered in order |
| `TunnellingDownlink.AllDeliveredExactlyWhen` | source/library/src/kmx/aio/knx/generic_server.cpp:845-870 | over every run in time, everything the server issued is delivered, once and in order, if and only if each request reached the client while connected, in its turn, and the first time in a way that delivers it: none lost, overtaken, overheard in another wait, unacknowledged or unopened |
| `TunnellingDownlink.DeafAfterMiss` | source/library/api/kmx/aio/knx/generic_server.hpp:208-210 | from any point of any run in time, if the request after the last accepted one does not reach the client, nothing is accepted or delivered until the server has issued 256 requests beyond the one missed, whatever else arrives |
| `TunnellingDownlink.OneLossDeafens` | source/library/src/kmx/aio/knx/generic_server.cpp:845-870 | from any tunnel there is a run in time in which the second of up to 257 requests is lost, every other one is received at once, and only the first is delivered |
| `TunnellingDownlink.HearsAgainAfterTurn` | source/library/api/kmx/aio/knx/tunnelling_session.hpp:370-373 | with the 258th request the numbers have come round: it is delivered, and the 256 before it never were |
| `TunnellingDownlink.WindowIsTight` | source/library/api/kmx/aio/knx/tunnelling_session.hpp:370-373 | with all accepted, a request 256 back is accepted as the next one and delivered again |
| `TunnellingDownlink.StaleRequestIsDelivered` | source/library/api/kmx/aio/knx/tunnelling_session.hpp:354-373 | from any tunnel there is a run in time that delivers everything, after which a repeat of the first request is delivered a second time |

## Left out

- ChannelWakeup.NoLostWakeup: assumes that loads of the throttle flag, and the tail load inside the wait, see the latest store; index loads of `try_push` and `try_pop` may be stale. The weaker orderings the source names do not give this, and `StaleFlagLoadStrandsProducer` shows it is needed.
- ChannelProtocol.StepInv: the watermarks are fixed for the run; `set_backpressure` concurrent with pushes and pops is not modelled.
- Channel.Channel.TryPush: the class is the sequential channel; `wait_until_can_send` is modelled only in the step system.
- Memory is modelled as stale reads of single atomic variables, not as the full C++ memory model; false sharing and alignment are not modelled.
- Scheduler.StepInv: tasks are numbers; what a task does, and an exception it throws, are not modelled, and nobody calls `wait_until_idle` on a scheduler whose destructor has started.
- AsyncMutex.AsyncMutex.Unlock: the class gives the state change; the coroutine it resumes runs in the `Call` model of the same module, where it does not touch guards held by others.
- BufferPool.Handle.Assign: states what happens to the two handles and the pool released to; that no other handle is affected is a result about runs (`LeasesAreExact`).
- The pool's mutex makes its operations atomic; they are not interleaved.
- PropertyService.EncodeDecoded: the convenience encoders for reads, writes and resets fill in `encode_property` and add nothing.
- GroupAddress.Format: `to_string` allocates a string and calls it.
- TunnellingUplink.DeliveredExactlyTheKept: requires that no request is taken once 255 later ones have been issued, and no acknowledgement once 256 have, which `WindowIsTight` and `AckWindowIsTight` show to be the widest such window. A run is one tunnel: datagrams of an earlier connection under the same channel number, from another peer, and the TCP rules under which nothing is acknowledged, are outside it.
- TunnellingDownlink.DeafAfterMiss: requires the same of the server's requests. That the heartbeat hears the data endpoint, which depends on the endpoints the server named, is allowed at any time.
- TunnellingServer.Server.TakeTunnelled: classifying, acknowledging and noting activity are one step, though the source releases the table lock in between; the transport and endpoint a channel belongs to are one number. Discovery, IPv6, connection-state answers, secure sessions and connections over TCP are not modelled.
- TunnellingSession.StepInv: the session is one value and its events functions on it; that the methods update fields in place is not captured there. `TunnellingClient.Client` holds that value in a field its loops reassign.
- TunnellingClient.Client.Send: the packet encoders are parameters, an encoder that fails changing nothing; so are the clock and the network. `operation_guard`, which refuses a second operation while one runs, is the reason operations are not interleaved.
- TunnellingClient.AbandonedForGood: `receive_telegram` and the group services wrap the operations it covers; with KNX IP Secure, a timed-out secure session shuts the session down inside `poll`.
- Session datagram dispatch by service type, a case distinction, is left out, as are the KNX routing, discovery, secure and Data Secure layers.
- The slab allocator, the executors, the descriptor and TLS layers, HTTP, QUIC, Modbus, OPC UA, SOME/IP, AVB and the other protocols are not part of this model.
- Datapoint types: their numeric encodings would only add easy round trips.
