# coreletd: the protocol core, modelled and proved

coreletd is a daemon that runs a MeshCore companion node on a LoRa radio. This
project models the part of it that decides what goes on the air and what is kept:
the transmit scheduler and its airtime budget, reliable delivery on top of it, the
supervision of the radio chip, the event loop's timers, relaying, routing and
automatic replies, and the codecs and the message store. It proves what these keep
over whole runs.

Layout, from the bottom up:

| file | what it holds |
|---|---|
| `Clock.dfy`, `Bytes.dfy`, `Search.dfy` | the wrapping 32-bit clock; byte strings and the sticky reader; the first element with a property |
| `AirtimeBudget.dfy`, `DedupTable.dfy` | the rolling one-hour budget; the tables of packets seen and messages delivered |
| `Packets.dfy`, `Payloads.dfy`, `Records.dfy`, `Frames.dfy` | the codecs |
| `Scheduler.dfy`, `SchedulerProofs.dfy`, `BudgetProofs.dfy`, `QueueOrder.dfy`, `WakeUps.dfy`, `ListenFirst.dfy`, `Sightings.dfy`, `Dispatch.dfy` | the transmit scheduler's steps; its runs: results, budget, order, wake-ups, busy channels, packets recognised; and the object |
| `Sender.dfy`, `SenderProofs.dfy`, `Delivery.dfy` | reliable delivery over the scheduler, its runs, and the object |
| `Radio.dfy`, `Recovery.dfy`, `Link.dfy` | the SX1262 driver's supervision; how long a recovery takes; driver and scheduler together |
| `EventLoop.dfy`, `EventLoopProofs.dfy`, `Repeats.dfy`, `TimerLimits.dfy`, `VirtualLoop.dfy` | timers, one-shot and repeating, the delays they can hold, and `advance` |
| `Inbox.dfy` | the durable message store |
| `Nodes.dfy`, `Mailroom.dfy`, `Mesh.dfy`, `Chain.dfy`, `Traces.dfy` | what a node does with a packet; a node and its store through crashes; many nodes; a chain of relays; traces |

Each stateful component is a class with the source's own fields, whose methods are
proved against a step function on an immutable `State` and keep, between calls, the
invariant the run theorems are about. An instant is an unbounded number of milliseconds, and every
comparison of instants goes through `Gap` or `Unsigned`, which are shown to read
nothing but the 32-bit values the source stores. What comes from outside (radio and
GPIO answers, random bytes, hashes, sealing and opening, whether a file could be
replaced) is a parameter, so every statement holds for all of it.

Where the code and its comments disagree, the code is followed:

- A radio that refuses a packet sends it to the front of the queue, whatever place it
  had; `QueueOrder.RefusalKeepsOrder` shows that this keeps the order exactly when it
  came from the front.
- A failed save does not withhold the acknowledgement: `store` answers false, the node
  logs it and acks, so acknowledged mail can be lost (`Mailroom.AckedCanBeLost`).
  `Mailroom.ReceivedSurvivesIff` says exactly when it is not.
- The start of a busy stretch is forgotten only when a packet is handed to the radio, so
  a packet can go over the very first busy reading of a later stretch
  (`ListenFirst.OldStretchIsRemembered`).
- `advance` with a step of 2^31 ms or more moves nothing; `VirtualLoop.EventLoop.Advance`
  says so.
- The bound that src/daemon/config.cpp:153 puts on `node.advert_interval`, and says
  keeps the interval from wrapping, is too large by a factor of two: from 2147484 s on
  the repeating timer armed at src/mesh/node.cpp:61 is due at once in every pass
  (`TimerLimits.DueAgainIff`).
- The driver reports elapsed time, so any interrupt latency makes a report longer than
  the airtime the budget was checked with; `BudgetProofs.OverspendIsOneOverrun` says by
  how much the budget can then be exceeded, and `BudgetProofs.OverReportingOverspends`
  that it can be.

## Model

| member | source | states |
|---|---|---|
| `Clock.GapReadsWrappedClock` | src/mesh/dispatcher.cpp:232-237 | the signed 32-bit comparison of two instants depends on their wrapped readings alone, at any distance |
| `Clock.GapIsDistance` | src/mesh/dispatcher.cpp:237 | it equals the true distance exactly when that fits a signed 32-bit integer |
| `Clock.UnsignedIsWrap` | src/mesh/dispatcher.cpp:300-301 | the unsigned difference is the distance modulo 2^32 |
| `Bytes.U16RoundTrip` | src/util/bytes.h:88-91 | a 16-bit value written little-endian reads back |
| `Bytes.U32RoundTrip` | src/util/bytes.h:93-98 | a 32-bit value written little-endian reads back |
| `Bytes.ReadsAddUp` | src/util/bytes.h:23-86 | failure is sticky: after any two reads the reader is good exactly when both fields were there, and they are consecutive |
| `AirtimeBudget.DutyCycle.PruneOld` | src/radio/radio.cpp:43-48 | leaves exactly the entries not older than the window, in order |
| `AirtimeBudget.DutyCycle.Record` | src/radio/radio.cpp:50-53 | prunes, then appends the new entry |
| `AirtimeBudget.DutyCycle.WaitMs` | src/radio/radio.cpp:62-92 | returns the specified wait and leaves the specified table, including the no-limit and oversize cases |
| `AirtimeBudget.PruneKeepsYoung` | src/radio/radio.cpp:43-48 | pruning never forgets airtime that still counts, whatever the clock has wrapped through |
| `AirtimeBudget.AdmittedFits` | src/radio/radio.cpp:62-92 | a wait of zero means the candidate fits the budget beside every entry younger than the window |
| `AirtimeBudget.ReleaseCountsDown` | src/radio/radio.cpp:80-91 | entries that leave the window during a wait are ones it waited for, so the rest of the wait is unchanged |
| `AirtimeBudget.WaitIsExact` | src/radio/radio.cpp:62-92 | asking again after t of a promised r ms gives r - t: zero at r and not before |
| `AirtimeBudget.AdmittedWithinWindow` | src/radio/radio.cpp:62-92 | with nothing new recorded, a packet is admitted at some instant of the next hour if and only if it fits the whole budget on its own |
| `AirtimeBudget.UnlimitedIff` | src/radio/radio.cpp:62-66 | no packet of any length is ever held back if and only if the percentage is not strictly between 0 and 100 |
| `DedupTable.Sweep` | src/mesh/dispatcher.cpp:168-173 | keeps exactly the entries that have not expired |
| `DedupTable.CheckAndMarkSeen` | src/mesh/dispatcher.cpp:155-166 | answers whether the packet is a repeat and refreshes its entry either way |
| `DedupTable.FirstDelivery` | src/mesh/node.cpp:651-666 | answers whether a message is new; a full table gives up expired entries first, then one |
| `DedupTable.CapHolds` | src/mesh/node.cpp:659-665 | the delivered table never exceeds 512 entries |
| `DedupTable.ForgottenIff` | src/mesh/node.cpp:651-666 | a live entry is forgotten if and only if it is the one chosen when a new key meets a table full of live ones; the others keep their times |
| `DedupTable.SightTracks` | src/mesh/node.cpp:651-666 | one sighting keeps the table in step with the unbounded-time history, with room made or not |
| `DedupTable.RefinesUnboundedTime` | src/mesh/dispatcher.cpp:155-173 | over every run with its sweeps, both tables answer exactly as a reference on unbounded time that forgets nothing |
| `DedupTable.RepeatsAreSuppressed` | src/mesh/dispatcher.cpp:155-173 | with or without sweeps, a key is recognised exactly until its lifetime after its last sighting |
| `Packets.AcceptedReencodes` | src/proto/packet.cpp:66-166 | every accepted byte string decodes to a valid packet that encodes back to the same bytes |
| `Packets.SurvivesWire` | src/proto/packet.cpp:66-166 | a valid packet survives encoding and decoding if and only if it is version 0 and has a payload |
| `Packets.EncodedDecodes` | src/proto/packet.cpp:66-166 | the round trip itself, transport codes included |
| `Packets.EncodedSize` | src/proto/packet.cpp:138-166 | a valid packet's encoding fits 255 bytes, so the scheduler's oversize branch is unreachable |
| `Packets.HopsKeepValidity` | src/proto/packet.cpp:44-64 | pushing and popping hops keep validity and, but for TRACE, the dedup region; when a push succeeds exactly; first hop and rest make up the path |
| `Packets.RegionsTellApart` | src/proto/packet.cpp:168-180 | two packets have the same hashed region if and only if they agree in type and payload and, for traces, in path length |
| `Payloads.AckHashedRegion` | src/proto/payloads.cpp:293-298 | the scan finds the region the hash covers |
| `Payloads.DecodeTextMessage` | src/proto/payloads.cpp:241-267 | decoding by cursor and scan, accepted exactly from five bytes on |
| `Payloads.ReencodingIsAckRegion` | src/proto/payloads.cpp:231-303 | for every plaintext of five bytes or more, encoding what it decodes to gives exactly the hashed region, and the two extended-attempt readings agree |
| `Payloads.PaddingLeavesRegion` | src/proto/payloads.cpp:287-298 | zero padding leaves the region alone if and only if the plaintext reaches the start of its text |
| `Payloads.EndsAgreeOnAck` | src/proto/payloads.cpp:305-312 | sender and receiver hash the same bytes with the same key, however much padding was added |
| `Payloads.DecodesPathIff` | src/proto/payloads.cpp:325-350 | a returned path is taken if and only if its hashes are one to three bytes wide and all of its at most 64 bytes are there |
| `Payloads.PathReturnSurvivesPadding` | src/proto/payloads.cpp:325-367 | a returned path survives encoding, padding and decoding; padding only lengthens what rides along |
| `Records.HexEncode` | src/util/hex.cpp:16-24 | builds the hex form in a loop |
| `Records.HexDecode` | src/util/hex.cpp:30-40 | refuses odd lengths and bad digits, decodes the rest |
| `Records.HexRoundTrip` | src/util/hex.cpp:16-40 | every byte string survives hex |
| `Records.Split` | src/mesh/record.h:25-38 | splits a line into exactly `count` fields or fails |
| `Records.SplitJoined` | src/mesh/record.h:25-38 | tab-free fields joined by tabs split back |
| `Records.UnsignedRoundTrip` | src/mesh/record.h:40-47 | decimal round trip within the bound |
| `Records.SignedRoundTrip` | src/mesh/record.h:49-57 | signed decimal round trip within the bounds |
| `Records.LinesOfUnlines` | src/mesh/inbox.cpp:91-169 | lines without newlines read back |
| `Frames.FrameReader.Feed` | src/companion/frames.cpp:8-10 | appends the bytes read |
| `Frames.FrameReader.Take` | src/companion/frames.cpp:12-44 | one call yields and leaves what the position-based reference says, resynchronisation on either start byte included, and terminates |
| `Frames.NextOfMore` | src/companion/frames.cpp:12-44 | more bytes never change a complete frame, and a wait resumes from the trimmed buffer |
| `Frames.DrainOfMore` | src/companion/frames.cpp:12-44 | draining early and then with more is draining all at once |
| `Frames.ChunkingDoesNotMatter` | src/companion/frames.cpp:8-44 | for every stream and every split into reads, frames and final buffer equal those of one read |
| `Frames.DrainedIsSmall` | src/companion/frames.cpp:12-44 | a drained buffer holds at most 8194 bytes and no frame exceeds 8192 |
| `Frames.FrameReadsBack` | src/companion/frames.cpp:12-44 | a frame of at most 8192 bytes that starts with 60 or 62, after any junk holding neither and before anything, is read whole and leaves the rest |
| `Frames.ResponseReadsBack` | src/companion/frames.cpp:46-53 | what the daemon frames for the app is read back by the same reader |
| `Frames.FramesRoundTrip` | src/companion/frames.cpp:12-53 | a stream of frames in either direction with junk between reads back as its payloads if and only if each is at most 8192 bytes |
| `Dispatch.Dispatcher.SchedulePump` | src/mesh/dispatcher.cpp:232-246 | an armed pump that wakes no later is kept, otherwise replaced |
| `Dispatch.Dispatcher.DropExpiredFront` | src/mesh/dispatcher.cpp:254-262 | drops the expired front, one failed result each |
| `Dispatch.Dispatcher.PumpQueue` | src/mesh/dispatcher.cpp:248-340 | the whole pump: expiry, radio-down hold, backoff, budget, channel-busy deferral, refusal or transmission; what that comes to is in `ListenFirst`, `WakeUps` and `QueueOrder` |
| `Dispatch.Dispatcher.SendPacket` | src/mesh/dispatcher.cpp:183-230 | refuses exactly the invalid; marks seen, inserts, evicts and pumps |
| `Dispatch.Dispatcher.InsertionPoint` | src/mesh/dispatcher.cpp:202-208 | the binary search of `std::upper_bound` |
| `Dispatch.Dispatcher.FindVictim` | src/mesh/dispatcher.cpp:211-219 | the loop finds the specified victim |
| `Dispatch.Dispatcher.OnPumpTimer` | src/mesh/dispatcher.cpp:241-245 | disarms, then pumps |
| `Dispatch.Dispatcher.OnTxDone` | src/mesh/dispatcher.cpp:342-350 | records the airtime and arms the next pump with jitter |
| `Dispatch.Dispatcher.SetPercent` | src/mesh/dispatcher.cpp:175-181 | takes the new percentage and pumps |
| `Dispatch.Dispatcher.OnReceive` | src/mesh/dispatcher.cpp:147-155 | suppresses a repeat and remembers the packet |
| `Dispatch.Dispatcher.ExpireSeen` | src/mesh/dispatcher.cpp:168-173 | sweeps the table |
| `Scheduler.PumpFits` | src/mesh/dispatcher.cpp:248-340 | a pump leaves only valid packets queued |
| `SchedulerProofs.StepConserves` | src/mesh/dispatcher.cpp:183-340 | in every step, by sequence number or by operation: queued before plus just queued equals queued after plus given a result; results are only appended |
| `SchedulerProofs.RunsAreSound` | src/mesh/dispatcher.cpp:175-350 | after every event of every run: each number issued is queued or has exactly one result, never both; issued = queued + resolved; true results = radio acceptances = reports + in flight; the queue bound; a waiting packet implies a transmission or an armed pump |
| `SchedulerProofs.InitialIsSound` | src/mesh/dispatcher.cpp:54-58 | the initial scheduler satisfies all of it |
| `SchedulerProofs.EverySendIsCounted` | src/mesh/dispatcher.cpp:183-340 | over every run, packets offered = waiting + taken by the radio + dropped, as the two counters say |
| `SchedulerProofs.EntriesComeFrom` | src/mesh/dispatcher.cpp:183-230 | an event leaves queued only what was there and what it asked for: that packet, priority and operation, not before the delay asked for and worth 10 s per step of priority |
| `SchedulerProofs.QueuedAsAsked` | src/mesh/dispatcher.cpp:183-230 | so over every run, each entry is as some send asked |
| `SchedulerProofs.RoomMeansKept` | src/mesh/dispatcher.cpp:197-226 | while there is room nothing is given up for a new packet |
| `SchedulerProofs.OnlyExpiredIsDropped` | src/mesh/dispatcher.cpp:254-262 | what a pump drops has expired, and it drops the whole expired front |
| `Sightings.StepSights` | src/mesh/dispatcher.cpp:155-195 | packets sent and packets heard enter the table of those seen, and only sweeps take any out |
| `Sightings.RepeatIff` | src/mesh/dispatcher.cpp:146-195 | over every run with sweeps under 2^31 ms apart, a packet is a repeat if and only if it was sent or heard less than 60 s before |
| `Sightings.OwnAttemptIsKnown` | src/mesh/sender.cpp:40-99 | an author takes its own attempt for a repeat when it is relayed back within 60 s, whatever hops it has gathered |
| `ListenFirst.BusyHoldsBack` | src/mesh/dispatcher.cpp:296-308 | while the channel reads busy and under 4 s have passed since the remembered start, nothing goes out, the start is kept and the pump is armed 60 to 119 ms on unless it was due before |
| `ListenFirst.ClearedIsOffered` | src/mesh/dispatcher.cpp:309-340 | otherwise the first packet whose backoff is over is handed to the radio and the start is forgotten |
| `ListenFirst.OnAirIff` | src/mesh/dispatcher.cpp:248-340 | a pump puts a packet on the air if and only if one is free to go, radio and budget allow it, the channel does not hold it back and the radio takes it |
| `ListenFirst.NoneInFourSeconds` | src/mesh/dispatcher.cpp:296-311 | over every run, no packet is handed over in the first 4 s of an unbroken stretch of busy readings |
| `ListenFirst.OldStretchIsRemembered` | src/mesh/dispatcher.cpp:296-311 | unless an earlier stretch left its start behind: then the first busy reading is transmitted over |
| `BudgetProofs.OverspendIsOneOverrun` | src/mesh/dispatcher.cpp:248-350 | at every instant of every run with a fixed percentage and any radio, airtime reported under an hour ago plus what is on the air exceeds the budget by at most what the last report exceeded its computed airtime by, and by nothing from the next admission on |
| `BudgetProofs.BudgetNeverExceeded` | src/mesh/dispatcher.cpp:248-350 | so while that overrun is zero the budget is never exceeded |
| `BudgetProofs.InitiallyInBudget` | src/radio/radio.cpp:43-92 | the initial scheduler is in budget |
| `BudgetProofs.OverReportingOverspends` | src/radio/sx1262.cpp:904-913 | the overrun is really spent: a radio that reports elapsed time above the computed airtime can overspend with its first packet |
| `BudgetProofs.ReportForgetsOld` | src/radio/radio.cpp:43-53 | a report leaves no entry in the table that reads as over an hour old |
| `QueueOrder.UpperBoundSplits` | src/mesh/dispatcher.cpp:202-208 | on a sorted queue the search lands where everything before is less and everything after greater, on unbounded time |
| `QueueOrder.InsertSorts` | src/mesh/dispatcher.cpp:202-209 | insertion keeps the queue sorted by (priority, expiry, sequence) |
| `QueueOrder.RefusalKeepsOrder` | src/mesh/dispatcher.cpp:325-330 | a refused packet put back at the front keeps the order if and only if it came from there |
| `QueueOrder.VictimIsOldestLeastUrgent` | src/mesh/dispatcher.cpp:211-219 | the victim is the oldest of the least urgent class, in any queue |
| `QueueOrder.QueueStaysSorted` | src/mesh/dispatcher.cpp:197-226 | in every run where the radio refuses nothing, and no packet is added while one of its urgency reads as expiring later, the queue stays sorted |
| `QueueOrder.StaleEntryUnsorts` | src/mesh/dispatcher.cpp:202-208 | with one entry of its urgency waiting, a new one is put in order if and only if the wrapped clock does not read the old one as the later |
| `QueueOrder.SendsMostUrgentReady` | src/mesh/dispatcher.cpp:274-340 | what is sent is the most urgent entry whose backoff has elapsed; past its expiry only behind a front entry in backoff |
| `QueueOrder.SentAsAsked` | src/mesh/dispatcher.cpp:183-340 | over every run, a packet that goes on the air is one that some send asked for, and goes once the delay asked for is over |
| `WakeUps.WakeUpsOnlyComeForward` | src/mesh/dispatcher.cpp:232-246 | over every run in which the pump timer is never overdue while something else is handled, an armed wake-up is only ever brought forward until it fires |
| `WakeUps.OverdueCanBePostponed` | src/mesh/dispatcher.cpp:232-246 | left overdue, a wake-up is replaced by a later one if and only if the lateness and the delay asked for together read as negative |
| `WakeUps.HeldIsTriedAgain` | src/mesh/dispatcher.cpp:263-330 | what is held back is tried again: in 1 s while the radio is down or untuned, at the end of the first backoff, when the budget has room or in 30 s, or 20 ms after a refusal |
| `WakeUps.DoneIsTriedAgain` | src/mesh/dispatcher.cpp:342-350 | after a transmission the next is tried 1 to 401 ms later |
| `Delivery.ReliableSender.Find` | src/mesh/sender.cpp:30-34 | the operation's place, or none |
| `Delivery.ReliableSender.EraseOp` | src/mesh/sender.cpp:36-38 | removes the operation and nothing else |
| `Delivery.ReliableSender.HandleTxResult` | src/mesh/sender.cpp:155-179 | arms the retry for the delay its attempt calls for, or for the next pass when nothing went out |
| `Delivery.ReliableSender.Attempt` | src/mesh/sender.cpp:40-99 | one attempt: unusable key and oversize drop the operation, otherwise its hash is noted and the packet handed over, results in hand before it returns |
| `Delivery.ReliableSender.Send` | src/mesh/sender.cpp:101-153 | joins exact duplicates, refuses beyond the limit, registers before transmitting; what the caller is told |
| `Delivery.ReliableSender.HandleRetry` | src/mesh/sender.cpp:181-203 | the next attempt, its packet flooded on the fourth; gives up after four or without a contact |
| `Delivery.ReliableSender.CompleteAck` | src/mesh/sender.cpp:205-218 | ends the first operation that accepts the hash and returns it |
| `Delivery.ReliableSender.FirePump` | src/mesh/dispatcher.cpp:241-245 | what a pump resolves reaches the operations it is for, and each still has exactly one event to come |
| `SenderProofs.NoSendIsStuck` | src/mesh/sender.cpp:40-218 | in every run, between events, each pending operation has exactly one of an outstanding scheduler callback and an armed retry timer; entries are within the limit and pairwise distinct; attempt numbers rise strictly; the packet of each attempt is flooded if and only if the contact had no path or it is the fourth, and otherwise carries the contact's path with one-byte hashes; the hash of every attempt made stays acceptable in reply |
| `SenderProofs.QueuedIsLogged` | src/mesh/sender.cpp:40-99 | over every run, what the scheduler holds for an operation is one of the packets so logged, free to go at once and worth 30 s |
| `Sender.AttemptsDiffer` | src/mesh/sender.cpp:40-99 | no two attempts at a message have the same plaintext |
| `SenderProofs.AttemptIsMade` | src/mesh/sender.cpp:40-99 | an attempt that can go is logged and handed over as one packet, and its hash ends the operation from then on |
| `SenderProofs.RetryTriesAgain` | src/mesh/sender.cpp:181-203 | a due retry makes the next attempt while fewer than four were made, the contact is there and the packet can go |
| `SenderProofs.RetryGivesUp` | src/mesh/sender.cpp:181-203 | otherwise it gives up that operation and no other, and queues nothing |
| `SenderProofs.ResultArms` | src/mesh/sender.cpp:155-179 | the retry comes 8, 16 or 32 s after the transmission by attempt, or 1 ms after none |
| `SenderProofs.RetriesAreSoon` | src/mesh/sender.cpp:155-179 | over every run, a retry waited for is at most 32 s away |
| `SenderProofs.ToldIsPending` | src/mesh/sender.cpp:101-153 | a caller told a hash has that very message pending under it, joined or new |
| `SenderProofs.FailedLeavesNothing` | src/mesh/sender.cpp:101-153 | a caller told of a failure has queued nothing and left nothing pending |
| `SenderProofs.ErrorsAreTrue` | src/mesh/sender.cpp:40-153 | each error says what was wrong |
| `SenderProofs.CommandIsSentOnce` | src/mesh/sender.cpp:101-153 | a command is queued once, under no operation |
| `SenderProofs.InitialIsInvariant` | src/mesh/sender.cpp:21-28 | the initial stack satisfies it |
| `SenderProofs.DeliverArms` | src/mesh/sender.cpp:155-179 | handing over results arms exactly the operations they are for |
| `SenderProofs.MovedOwns` | src/mesh/sender.cpp:155-179 | whatever the scheduler does, every result it drops from its queue reappears as one armed timer |
| `SenderProofs.AttemptKeeps` | src/mesh/sender.cpp:40-99 | an attempt of an unowned operation leaves it owned once, with the callback inside the call or after it |
| `SenderProofs.AtMostFourAttempts` | src/mesh/sender.cpp:181-203 | no operation is attempted more than four times |
| `SenderProofs.NoAttemptOnceOver` | src/mesh/sender.cpp:181-218 | once acked or given up, an operation stays over and no attempt of it is ever queued again, in every run |
| `SenderProofs.AckEndsOne` | src/mesh/sender.cpp:205-218 | a matching acknowledgement ends exactly one operation, another ends none |
| `Radio.Sx1262.Start` | src/radio/sx1262.cpp:314-369 | begins with supervision and a recovery, or one bring-up without retries; true exactly when set up and, without retries but with a frequency, up |
| `Radio.Sx1262.Recover` | src/radio/sx1262.cpp:371-390 | starts a recovery only from down, idle and with a frequency |
| `Radio.Sx1262.Release` | src/radio/sx1262.cpp:392-404 | the reset line is let go and polling armed |
| `Radio.Sx1262.Poll` | src/radio/sx1262.cpp:406-465 | one poll: again, give up at the deadline, or up and programmed |
| `Radio.Sx1262.FailRecovery` | src/radio/sx1262.cpp:467-478 | leaves the recovery with no timer |
| `Radio.Sx1262.Tick` | src/radio/sx1262.cpp:480-490 | probes a healthy idle chip and takes it down if it does not answer, recovers a down one |
| `Radio.Sx1262.TakeDown` | src/radio/sx1262.cpp:492-513 | down, retune forgotten, a transmission under way reported done with no airtime |
| `Radio.Sx1262.SetParams` | src/radio/sx1262.cpp:664-697 | new parameters retune now, after the transmission, or start a bring-up |
| `Radio.Sx1262.RetuneNow` | src/radio/sx1262.cpp:699-712 | reprograms, or goes down |
| `Radio.Sx1262.BackToReceive` | src/radio/sx1262.cpp:714-720 | the put-off retune, or receive mode, or down |
| `Radio.Sx1262.Transmit` | src/radio/sx1262.cpp:805-845 | accepts exactly when healthy, idle, sized and obeyed, and arms the timeout |
| `Radio.Sx1262.TxTimedOut` | src/radio/sx1262.cpp:837-844 | a timeout ends the transmission with no airtime |
| `Radio.Sx1262.HandleIrq` | src/radio/sx1262.cpp:847-902 | completion, errors and receive failures, in the source's order |
| `Radio.Sx1262.Close` | src/radio/sx1262.cpp:959-986 | shuts down with every timer disarmed |
| `Radio.StepSupervised` | src/radio/sx1262.cpp:314-513 | every event keeps the supervision invariant, whatever the hardware answers |
| `Radio.AlwaysSupervised` | src/radio/sx1262.cpp:664-720 | in every reachable state: busy iff its timeout is armed, and healthy; a put-off retune only while busy; recovering iff its timer is armed, not healthy and nothing taken for programmed; healthy without a put-off retune is programmed with the parameters; acceptances = reports + the one in flight |
| `Radio.TransmissionEnds` | src/radio/sx1262.cpp:837-913 | by interrupt, timeout or going down, a transmission is reported done once and the radio is free |
| `Radio.ReportsOnce` | src/radio/sx1262.cpp:314-513 | no event but a send accepts one, and none reports more than the one under way |
| `Radio.DownIffFails` | src/radio/sx1262.cpp:480-902 | whatever happens to it, a healthy radio goes down if and only if an access it makes fails: the probe of an idle tick, a command of a send, an interrupt read or clear, reprogramming or the return to receive mode |
| `Radio.UpIff` | src/radio/sx1262.cpp:314-465 | a radio that is down comes up in the listed ways and no other |
| `Radio.RecoveringIff` | src/radio/sx1262.cpp:371-478 | exactly when a recovery is under way after an event |
| `Radio.ParametersReachTheChip` | src/radio/sx1262.cpp:664-720 | new parameters are on the chip as soon as the radio is up and idle, now or after the transmission under way |
| `Radio.ShutIsQuiet` | src/radio/sx1262.cpp:959-986 | once shut down no timer is left, nothing is taken for sending and no interrupt is read |
| `Radio.GoodHardwareRecovers` | src/radio/sx1262.cpp:371-490 | a chip that answers is up and programmed after a tick and the two recovery steps it arms, which is a legal run |
| `Radio.LostChipComesBack` | src/radio/sx1262.cpp:371-490 | a chip that stops answering is down at the next idle tick and, once it answers again, up and programmed after a further tick and two recovery steps |
| `Recovery.RecoveryIsBounded` | src/radio/sx1262.cpp:371-478 | in every timed run, whatever the hardware answers, a recovery re-arms its poll at most 98 times and never for later than 10 ms past its deadline, and the first poll at or past the deadline ends it |
| `Recovery.InitiallyBounded` | src/radio/sx1262.cpp:119-120 | a new driver satisfies what these runs start from |
| `Link.OneReportAtATime` | src/radio/sx1262.cpp:492-513 | the driver makes at most one report per event, only while busy |
| `Link.AlwaysATimer` | src/mesh/dispatcher.cpp:248-350 | over every run of scheduler and driver together, the scheduler's view of the radio is the driver's, and a waiting packet always has an armed timer: the pump or the transmit timeout |
| `Link.InitiallyLinked` | src/mesh/dispatcher.cpp:54-58 | they start linked |
| `EventLoop.RunDueClears` | src/daemon/eventloop.cpp:72-98 | for delays from 1 ms to under 2^31 ms, one pass fires what is due, leaves nothing due behind and fires nothing early |
| `EventLoop.AddedIsDue` | src/daemon/eventloop.cpp:33-44 | a timer is due its delay from now, under an id of its own |
| `EventLoop.StopsIffTold` | src/daemon/eventloop.cpp:72-98 | a pass leaves the loop stopped if and only if a callback it ran asked for that |
| `Repeats.RepeatsFired` | src/daemon/eventloop.cpp:72-98 | a repeating timer fired once per interval of the span, or was cancelled |
| `TimerLimits.DueAtOnceIff` | src/daemon/eventloop.cpp:33-44 | a timer is due the moment it is added if and only if its delay is zero or 2^31 ms or more |
| `TimerLimits.DueAgainIff` | src/daemon/eventloop.cpp:72-98 | a repeating timer just fired is due again at once if and only if its interval is 2^31 ms or more |
| `TimerLimits.PassClearsIff` | src/daemon/eventloop.cpp:72-98 | for callbacks that cancel nothing, a pass leaves nothing due if and only if every due interval is under 2^31 ms and every delay armed is from 1 ms to under 2^31 ms |
| `EventLoop.NextDueIsSoonest` | src/daemon/eventloop.cpp:53-63 | the minimum over live timers, on the wrapping clock |
| `EventLoop.ReapKeeps` | src/daemon/eventloop.cpp:100-107 | reaping removes tombstones and nothing else |
| `EventLoopProofs.RunDueContinues` | src/daemon/eventloop.cpp:72-98 | whatever callbacks add, cancel or stop, the firing history of every timer stays consistent through a pass |
| `EventLoopProofs.DueOneShotsFired` | src/daemon/eventloop.cpp:72-98 | a live one-shot due in the span fired exactly once, or was cancelled and never fired |
| `VirtualLoop.EventLoop.AddEntry` | src/daemon/eventloop.cpp:33-44 | a new timer under a fresh id |
| `VirtualLoop.EventLoop.CancelTimer` | src/daemon/eventloop.cpp:46-51 | the entry becomes a tombstone |
| `VirtualLoop.EventLoop.RunDueTimers` | src/daemon/eventloop.cpp:72-98 | snapshot of due ids, each fired unless cancelled meanwhile |
| `VirtualLoop.EventLoop.Reap` | src/daemon/eventloop.cpp:100-107 | the specified reap |
| `VirtualLoop.EventLoop.NextDueMs` | src/daemon/eventloop.cpp:53-63 | the specified minimum |
| `VirtualLoop.EventLoop.Advance` | src/daemon/eventloop.cpp:174-200 | terminates; time lands exactly on the target across the wrap unless stopped; nothing fires early or late; every live one-shot due in the span fires exactly once and every repeating timer once per interval, unless cancelled; from 2^31 ms on nothing moves |
| `Inbox.RecordRoundTrip` | src/mesh/inbox.cpp:46-89 | a storable message survives its line, any other is rejected |
| `Inbox.SaveLoadRoundTrip` | src/mesh/inbox.cpp:46-169 | loading what was saved gives the queue back if every message in it is storable, and reads as corrupt otherwise |
| `Inbox.LoadsIff` | src/mesh/inbox.cpp:91-169 | a file is taken if and only if it has the version header and every line is blank, a comment or a good record |
| `Inbox.LoadKeepsNewest` | src/mesh/inbox.cpp:91-169 | reloaded under any limit, the newest messages are kept and the rest counted as dropped |
| `Inbox.NothingToWriteIsExact` | src/mesh/inbox.cpp:21-89 | over every run, whenever there is nothing to write a reload gives exactly the queue, and there is nothing to write after a store or flush that replaced the file |
| `Inbox.PathlessIsInMemory` | src/mesh/inbox.cpp:21-52 | without a path no file is read or written and every message counts as stored |
| `Inbox.MessageInbox.Accept` | src/mesh/inbox.cpp:21-36 | appends, evicts the oldest beyond the limit and commits; what is answered |
| `Inbox.MessageInbox.Take` | src/mesh/inbox.cpp:38-44 | pops the oldest |
| `Inbox.MessageInbox.Commit` | src/mesh/inbox.cpp:46-89 | the file is replaced as a whole or left alone |
| `Inbox.MessageInbox.Parse` | src/mesh/inbox.cpp:91-169 | the loop over lines reads exactly the specified messages and whether the header was there |
| `Inbox.MessageInbox.Restore` | src/mesh/inbox.cpp:91-169 | missing, corrupt and loaded, and the queue each leaves |
| `Inbox.RunsAreDurable` | src/mesh/inbox.cpp:21-169 | in every run the queue and the file are each a contiguous stretch of what was stored, in order |
| `Inbox.PromisedMailSurvives` | src/mesh/inbox.cpp:21-169 | over every run of stores, pops, flushes, failed saves and crashes, each message whose store answered true and was not popped or evicted is there after reloading, in order |
| `Inbox.ReloadedIff` | src/mesh/inbox.cpp:21-169 | a message still in the queue is there after reloading if and only if it had reached the file |
| `Inbox.StoredSurvivesIff` | src/mesh/inbox.cpp:21-169 | after anything short of a crash, a message not popped or evicted is reloaded in its place if and only if its own store answered true or some later store or flush replaced the file |
| `Nodes.Node.OnText` | src/mesh/node.cpp:299-389 | delivery, reply and whether the packet goes on, in every case; that the reply acknowledges is `Nodes.RecipientAcknowledges` |
| `Nodes.Node.OnAck` | src/mesh/node.cpp:435-468 | completes an operation, offers the route again when the ack was flooded |
| `Nodes.Node.OnPath` | src/mesh/node.cpp:470-509 | learns a one-byte route, takes an ack inside, answers a flood along the route given |
| `Nodes.Node.DeliverText` | src/mesh/node.cpp:337-352 | a message new to the delivered table is stored, a repeat is not |
| `Nodes.Node.Receive` | src/mesh/node.cpp:151-206 | the whole dispatch, with relaying |
| `Nodes.AtMostOneAnswer` | src/mesh/node.cpp:151-509 | every packet triggers at most one packet: a reply of strictly lower rank or a relayed copy |
| `Nodes.RepliesTerminate` | src/mesh/node.cpp:299-509 | whatever the nodes and their states, an exchange of automatic replies ends after two |
| `Mailroom.AckedMailSurvives` | src/mesh/node.cpp:337-379 | over every run of receiving, answering, collecting, flushing, failed saves, sweeps and crashes between any two of them, every acknowledged text that was neither collected nor evicted is there after reloading, as that text and in order, if and only if it had reached the disk |
| `Mailroom.ReceivedSurvivesIff` | src/mesh/node.cpp:675-681 | a text heard for the first time, followed by anything short of a crash, is reloaded if and only if its own save or a later one succeeded |
| `Mailroom.AckedCanBeLost` | src/mesh/node.cpp:675-681 | whenever a new text's save fails it is acknowledged all the same, and a crash then leaves the store as if it had never come |
| `Mailroom.RepliesAcknowledge` | src/mesh/node.cpp:299-380 | every reply to a text, the first copy or a retry, is such an acknowledgement, on disk already if its store committed |
| `Mailroom.StoredIsDescribed` | src/mesh/node.cpp:337-350 | what a node stores for a contact with a 32-byte key is storable and is the text received |
| `Mailroom.StoredOncePer300Seconds` | src/mesh/node.cpp:635-673 | over every run of a node, a text is stored if and only if no copy of it, of any attempt number, was heard in the 300 s before |
| `Mailroom.EmptyIsKept` | src/mesh/inbox.cpp:21-36 | a fresh node satisfies what these runs start from |
| `Nodes.AttemptsDecodeAlike` | src/mesh/node.cpp:635-645 | attempts at one message have one identity, attempt number aside |
| `Nodes.RetryIsAckedNotStored` | src/mesh/node.cpp:337-379 | in any state, an attempt is stored exactly when no attempt at that message is in the delivered table, and is answered either way |
| `Nodes.AckMatchesAttempt` | src/mesh/node.cpp:354-360 | the recipient's acknowledgement begins with the hash the author noted for that attempt |
| `Nodes.RecipientAcknowledges` | src/mesh/node.cpp:299-389 | from the recipient's own handling in any state: exactly one reply to an attempt that reached it, an ACK beginning with the attempt's hash along the route it has, or for a flood a PATH sealing the path taken with such an acknowledgement inside |
| `Nodes.AckIsSixBytes` | src/proto/payloads.cpp:314-323 | four bytes of hash, the extended attempt the decoder reads, one random |
| `Nodes.UserReadsText` | src/proto/payloads.cpp:241-285 | a text without zeros comes out as written, padding or not, a signed one without its key |
| `Nodes.StoredSignal` | src/mesh/node.cpp:36-38 | kept beside the text: signal, and hops and hash width of a flood or 255 |
| `Nodes.PathIsLearnt` | src/mesh/node.cpp:470-509 | a returned path of one-byte hashes becomes that contact's route; nothing else changes a contact |
| `Nodes.PathIsAnsweredAlongItself` | src/mesh/node.cpp:470-509 | a flooded PATH is answered along the route it gave with the path it came by, a direct one not at all |
| `Nodes.FloodedAckIsAnswered` | src/mesh/node.cpp:435-468 | an ack of ours is answered, 3 s later along the known route with the path it came by, if and only if it was flooded by a contact with a route and a secret |
| `Nodes.OutsAreTimed` | src/mesh/node.cpp:548-623 | how urgent and how delayed replies, relayed floods, routed packets and traces are |
| `Nodes.AckEndsOperation` | src/mesh/node.cpp:435-509 | the recipient's own answer, whatever it is, heard by the author ends exactly that operation; nothing is assumed of what the answer holds |
| `Nodes.OnlyAcksEnd` | src/mesh/node.cpp:151-509 | no packet ends an operation but an ack, on its own or inside a path a contact returned |
| `Mesh.NodesRelayExactly` | src/mesh/node.cpp:151-206 | in any state, a node relays a packet if and only if it passes the node by and the mesh model's hop has something to send, and then sends just that |
| `Mesh.HopKeeps` | src/mesh/node.cpp:548-592 | a hop keeps type, payload, route type and dedup region; a flood gains one hash and stays within the relay's limit and 63 hops |
| `Mesh.StepFloods` | src/mesh/dispatcher.cpp:146-195 | every hearing, loss, sweep or other traffic keeps the flood invariant |
| `Mesh.FloodDiesOut` | src/mesh/node.cpp:548-565 | on every topology and from whatever the nodes saw before, n nodes cause at most n transmissions of a packet while each node's sightings are under 60 s apart |
| `Mesh.RunKnows` | src/mesh/dispatcher.cpp:155-173 | no traffic and no sweep takes a packet off a node's record before its 60 s are over |
| `Chain.StepSpreads` | src/mesh/node.cpp:548-592 | on a chain, copies spread outward one relay at a time, floods listing and direct packets shedding the relays passed |
| `Chain.HeardThroughAll` | src/mesh/node.cpp:548-592 | what the recipient hears went through every relay once and in order |
| `Chain.UndisturbedArrivesIff` | src/mesh/node.cpp:151-206 | when nothing is lost, a packet the relays neither keep nor answer, direct along the chain's route or a flood within the hop limits, is delivered, in a run whose every relay step is the output of that relay's own node, if and only if no relay has it on record from the last 60 s |
| `Chain.RecipientReturnsPath` | src/mesh/node.cpp:391-433 | the answer to a flooded text is a flooded PATH sealing the path it came by, unreversed |
| `Chain.AuthorLearnsPath` | src/mesh/node.cpp:470-509 | opening it, the author stores that path for the contact |
| `Chain.AuthorLearnsRoute` | src/mesh/node.cpp:391-509 | flood out, answer home by any way: the author's stored path is the chain's relays in order |
| `Chain.RouteIsTravelled` | src/mesh/node.cpp:567-592 | from any records, a packet sent along the flood's path is forwarded by exactly its relays, once each, in the same order, and is heard with an empty path; undisturbed it gets there if and only if no relay has it on record |
| `Chain.LearnedRouteIsSound` | src/mesh/routing.h:12-24 | the whole exchange on one mesh whose records carry over from flood to answer to the author's next packet, with both halves of that condition |
| `Chain.FloodIsOnRecord` | src/mesh/dispatcher.cpp:146-166 | after the flood and the answer, every node past the author has the text on record for 60 s from its last sighting |
| `Chain.ResentTextIsDropped` | src/mesh/sender.cpp:107-110 | so the same text sent again in that time stops at the first relay, or is a repeat to a recipient next to the author |
| `Traces.NamedNextRelays` | src/mesh/node.cpp:594-623 | a node sends a trace on if and only if it relays and the route names it next, with its reading added and nothing else changed |
| `Traces.TraceVisitsRoute` | src/mesh/node.cpp:594-623 | a trace visits the relays of its route in order and carries the readings of all those visited |
| `Traces.TraceStops` | src/mesh/node.cpp:594-623 | at the end of its route no node sends it on |

## Left out

- Cryptography (src/crypto): sealing, opening and hashes are functions supplied from outside; where a theorem needs opening to return the padded plaintext, or both ends to share the acknowledgement hash, it says so as a hypothesis.
- SPI, GPIO and register programming (`configure`, `set_rx_mode`, `channel_busy`): each access is an answer from outside; configuring either programs the current parameters or fails.
- Floating-point airtime (`airtime_ms`): the computed airtime is a parameter of the pump, and the budget is computed over reals.
- Sockets, poll, the companion session's command handlers, configuration and settings files: plumbing and field copying that would only add easy members.
- Contacts and channels files: the same format machinery as the message store, already covered there; a contact's last-heard data is not kept.
- `durable_replace`: an atomic replace that may fail.
- Adverts, group texts and requests: only whether the packet is passed on, supplied from outside; what they store is not modelled.
- Direct TRACE packets follow their payload rather than their path and are the subject of `Traces`; the mesh theorems are for everything else. Of that, the theorems that bound transmissions hold for every type; those that say a packet arrives are for the packets `Mesh.NodesRelayExactly` shows the relays pass on.
- `EventLoop::run`, file-descriptor watches and the wall clock: `advance` is the loop's timed behaviour without them.
- Counters of 32 and 64 bits (sequence numbers, operation ids, timer ids, total airtime) are unbounded here, so their overflow is not modelled.
- Instants are kept unbounded beside their 32-bit readings; a stale duty-cycle entry more than 2^31 ms old is judged by the wrapped comparison, as in the source, but the overflow of subtracting a negative age is not modelled.
- Scheduler callbacks are handed over when the scheduler call returns rather than in the middle of it; none of them calls back into the scheduler, so only the order of log lines differs.
- Packets.HopsKeepValidity: `push_hop` and `pop_hop` are modelled on values rather than in place; callers copy the packet first.
- Bytes.ReadsAddUp: the reader is a value that each read replaces, rather than an object with an offset; its callers are the only holders of one.
- Mailroom.AckedMailSurvives: two different texts on file are taken to have different identity hashes.
- TimerLimits.PassClearsIff: for callbacks that cancel nothing, since a callback can arm an unreadable delay and cancel it again; with cancelling, `EventLoop.RunDueClears` gives one direction.
- ListenFirst.NoneInFourSeconds: for a stretch that begins with no start remembered; `ListenFirst.OldStretchIsRemembered` says what a remembered one does.
- Sightings.RepeatIff: keys are the packets' hashes, so two packets whose hashes collide are one.
- WakeUps.WakeUpsOnlyComeForward: while the pump timer is not left overdue; `WakeUps.OverdueCanBePostponed` says exactly what happens then.
- Mailroom.StoredOncePer300Seconds: for sweeps less than 2^31 ms apart and fewer than 512 texts live, since a fuller table gives one up.
- Dispatch.Dispatcher.SetPercent: the radio's own reconfiguration, which the source calls between setting the percentage and pumping, is a separate event in `Link`, because it makes no report to the scheduler (`Radio.ReconfigureReportsOnce`).
- VirtualLoop.EventLoop.Advance: for callbacks that arm delays from 1 ms to under 2^31 ms; `TimerLimits.PassClearsIff` says exactly what other delays do to a pass.
- EventLoopProofs.RunDueContinues: for the same delays.
- EventLoop.RunDueClears: for the same delays.
- QueueOrder.QueueStaysSorted: a packet added while one of its urgency has waited 2^31 ms can be misplaced (`QueueOrder.StaleEntryUnsorts`).
- BudgetProofs.BudgetNeverExceeded: the airtime is as reported; a transmission that timed out, or during which the radio went down, is reported as zero and counted as zero.
- Frames.FrameReader.Take: the reader's bytes are a sequence, so the cost of erasing from the front is not modelled.
- Logging, statistics other than the sent and dropped counters, packaging and the Python tools.
