# A verified model of rust-rdma-bench

The project models the benchmark tool's protocols and proves what its measurements can be trusted for.

* **Accuracy benchmark** (`AccuracyProtocol`, `AccuracySystem`, `EarlyStop`, `Losses`, `Duplicates`,
  `RunBuilder`, `OutOfOrder`, `AccuracySender`, `AccuracyReceiver`, `SlotRegion`, `Ledger`, `LedgerLaws`,
  `Scoring`, `Payloads`, `Splitmix`, `SplitmixPeriod`). A windowed sender, its NIC, a network, and a receiver with its NIC form
  one transition system. The NIC may read a posted slot at any moment before it completes the request; the
  network may delay and reorder and, as parameters, drop, duplicate, damage and inject messages. The loops are
  methods of `Sender` and `Receiver`, which work on the real memory region and keep a history of protocol
  states; their invariants say that every history is a run of the protocol (`Valid`, `OnTrack`).
* **Bandwidth pipeline** (`Bandwidth`, `CompletionQueue`, `Polls`, `Drains`). One credit window per side; both
  loops are methods of `Pipeline`. The drain loop of both receivers is a function of what its polls return and
  the clock shows (`Drains`); the send loops' ends are declared in the same terms (`Polls`). All four loops are
  proved against that in every world that may answer their polls. The completion queue that both directions of
  an endpoint share is a system of its own.
* **Latency ping-pong** (`BoundedWait`, `PingPong`, `RoundTrips`, `LatencyTiming`, `LatencyHosts`). The bounded
  wait is a function of what its polls return, the clock and its deadline. Both sides, both queue pairs and the
  network form one system, and `wait_for`, `ping` and `pong` are methods of `Host`, which stamp every step with
  what the clock last showed. The rest of the world takes arbitrary steps between any two of theirs.
* **Out-of-band session** (`Session`, `SessionScripts`, `UnmatchedBarrier`, `Comm`, `SessionHosts`,
  `AccuracySession`, `LatencySession`, `BandwidthSession`). Two scripts of JSON lines and barrier bytes over
  two byte streams, read and written byte by byte, so every fragmentation is covered. `Comm.Conn` is the
  buffered connection that reads lines and single bytes from one reader, and `RunOnce` and `HandleConnection`
  are the two programs over it, proved to play their scripts. `AccuracySession`, `LatencySession` and
  `BandwidthSession` put a benchmark inside its session: the CPUs act only where their scripts let them.
* **Arithmetic** (`LatencyStats`, `Sweep`). Nearest-rank statistics on exact numbers, and the sweep over
  powers of two with the plan built from it.

`Wrappers`, `Counting`, `Powers` and `Machine` are helpers. Exchange numbers, sequence numbers and slots count from zero.

What the NIC and the operating system are taken to do: a send queue completes in order (the step `Complete` of
`AccuracyProtocol`, needed by the accuracy sender alone; `InOrderNeeded` says in which configurations); a poll
takes a prefix of the completion queue no longer than its buffer; while sends are wanting, some later poll
completes one or fails (`Lively`, without which the send loops would not end: `EndsIffLively`); the clock never
stands still; TCP is a reliable byte stream in each direction.

Where the code and its comments part, the model follows the code:

* `wait_for` is described as returning what never showed up (src/bench/latency.rs:66-68); it returns 0 or an
  error (`Host.WaitFor`). It tests the deadline after counting completions, so a wait that has seen everything
  may still report a timeout. `TimesOutSatisfied` says exactly when, and `TimeoutMayDiscardRoundTrip` that it can
  befall any round trip.
* A late echo cannot be timed by a later round trip (src/bench/latency.rs:13-15 says it can), because `ping`
  stops at its first timeout (`Chain`).
* `lost` is described as the sequence numbers that never showed up (src/comm.rs:93). Duplicates and strays
  count towards the number of completions the receiver waits for, so it may stop early and report as lost a
  message still on its way; a message damaged in its header is reported lost although it arrived.
  `StopByCountIsComplete` says on which networks a stop by count means that nothing is reported lost, and
  `StopByCountIsDelivered` on which it means that every message was sent and delivered, damaged or not.
* The depths given on the command line are converted to 32-bit numbers when the queues are created
  (src/client.rs:180, src/transport/rc.rs:14-15). `CreatedQueueSuffices` and `WindowFits` say for which depths
  the queues are as large as the loops take them to be; no check rejects the others.
* An unmatched barrier is described as a deadlock (src/comm.rs:15). That is so when it meets a line read; at the
  end of the other side's exchanges it fails, and a line lets it pass (`HangsOnRead`, `FailsAtEnd`, `PassesOnLine`).
* `next_power_of_two` overflows for a minimum above 2^63: a panic in a debug build, an endless loop of zero
  sizes in a release build. The model gives it an outcome of its own, `Overflow`.

## Model

| member | source | states |
|---|---|---|
| AccuracySystem.EndToEnd | src/bench/accuracy.rs:102-199 | over a network that may drop, delay and reorder, in any interleaving, the report charges exactly the messages not reaped, scores the others in full, and has every other fault counter at zero; it is perfect iff every message was reaped |
| AccuracySystem.LosslessIsPerfect | src/bench/accuracy.rs:102-199 | without losses, a receiver that outwaits every delivery reports perfection |
| Duplicates.EndToEndDuplicating | src/bench/accuracy.rs:102-199 | over a network that may also duplicate, nothing is reported damaged, every message seen scores in full once, every other completion is a duplicate, and the numbers seen are those of which a copy was checked |
| AccuracySystem.ReportBalances | src/bench/accuracy.rs:163-252 | whatever the network does, the counters add up to what was sent, bound one another, and the overshoot stays within one window |
| AccuracySystem.FetchReadsPayload | src/bench/accuracy.rs:115-138 | in every reachable state the slot of every request not yet reaped holds that request's own payload, so the NIC can never read a slot refilled too early |
| OutOfOrder.InOrderNeeded | src/bench/accuracy.rs:128-133 | were requests completed in any order, every slot the NIC owns would hold its own payload in every run iff the window is one or no slot is used twice |
| OutOfOrder.OvertakenSlot | src/bench/accuracy.rs:120-135 | in every other configuration a run in which the next message is written over one the NIC has not read |
| AccuracySystem.SlotOwnership | src/bench/accuracy.rs:156-193 | every receive slot is in exactly one place: with the NIC, in an unreaped completion, in the batch, or in hand |
| AccuracySystem.RunInv | src/bench/accuracy.rs:102-199 | the invariant of both sides holds in every state of every run |
| AccuracySystem.RunAccounted | src/bench/accuracy.rs:102-199 | without duplication and damage the messages on the wire and delivered are a sub-multiset of what the sender's NIC read, and equal to it without drops |
| AccuracySystem.LogIsClean | src/bench/accuracy.rs:172-188 | what such a run's receiver checks are distinct, undamaged payloads |
| EarlyStop.StopByCountIsComplete | src/bench/accuracy.rs:172-194 | for every configuration: a drain that stops by count never reports a loss iff the network neither damages nor injects messages and does not duplicate them either, unless a single message is sent |
| EarlyStop.StopByCountIsDelivered | src/bench/accuracy.rs:172-194 | for every configuration: a stop by count means every message sent, none dropped and none left on the wire or unreaped iff the network neither duplicates nor injects messages, even if it damages them |
| EarlyStop.DamageUnnamesOne | src/bench/accuracy.rs:172-213 | for every configuration a network that only damages can make the receiver report as lost a message that arrived, all others being intact |
| EarlyStop.DuplicateLeftOver | src/bench/accuracy.rs:172-194 | for every configuration a duplicating network can leave a message on the wire at a stop by count |
| EarlyStop.DuplicateHidesArrival | src/bench/accuracy.rs:172-194 | for every run of more than one message a duplicating network can make the receiver report as lost a message still on the wire |
| EarlyStop.StraysTakeAllPlaces | src/bench/accuracy.rs:172-213 | for every configuration strays can use up the count before anything is sent |
| EarlyStop.RunGenuine | src/bench/accuracy.rs:102-199 | a network that invents nothing delivers payloads of this run only, however often it duplicates them |
| EarlyStop.RunConserved | src/bench/accuracy.rs:102-199 | without duplicates and strays, what the sender's NIC read is on the wire, delivered or dropped, one for one, damaged or not |
| Losses.LossIsDrops | src/bench/accuracy.rs:172-194 | once everything sent is delivered or dropped, the loss reported is the number of messages dropped, and the numbers it counts are theirs |
| AccuracyProtocol.Window | src/bench/accuracy.rs:41-65 | a run that is not refused has a window between one and the number of messages on either side |
| AccuracyProtocol.WindowIsLargest | src/bench/accuracy.rs:41-65 | which error refuses which run, and that the window is the largest number the side's own depth and the number of messages allow, at least one |
| AccuracyProtocol.SlotsDistinct | src/bench/accuracy.rs:128-133 | sequence numbers less than a window apart use different slots |
| AccuracyProtocol.SlotsInTurn | src/bench/accuracy.rs:115-135 | the first window of messages fills the slots in order and every later one takes the slot a window before it |
| AccuracyProtocol.TxInvNext | src/bench/accuracy.rs:102-138 | every step of sender and NIC keeps the credit window and the payloads of all outstanding slots |
| AccuracyProtocol.RxInvNext | src/bench/accuracy.rs:156-193 | every step of receiver and NIC keeps slot ownership, the count of messages and the ledger as the fold of what was read |
| AccuracySender.Sender.Send | src/bench/accuracy.rs:102-143 | in every world that answers its polls the send loop is a run of the protocol that ends; it fails iff a poll does before every message has completed, makes no poll too many, and otherwise posts and reaps every message once |
| Polls.EndsBroken | src/bench/accuracy.rs:120-127 | a send loop ends in failure iff the world fails a poll before enough completions have come |
| Polls.EndsIffLively | src/bench/accuracy.rs:120-127 | a send loop ends iff, while completions are wanting, a poll that is not empty always comes |
| Polls.EndsOnce | src/bench/accuracy.rs:120-127 | the number of polls a send loop makes is fixed by the world |
| AccuracySender.Sender.FillAndPost | src/bench/accuracy.rs:115-138 | fills the next message's slot with its payload and changes no other slot, free or outstanding, in the region that the protocol's slots are cut from |
| AccuracyReceiver.Receiver.Receive | src/bench/accuracy.rs:146-199 | whatever answers its polls, the loop ends exactly as the drain does on the polls made and has received what they returned; it is a run of the protocol, and its report is the protocol's |
| AccuracyReceiver.Receiver.PollQueue | src/bench/accuracy.rs:172-181 | a poll fails or moves so many completions into the batch, as the world answers it |
| AccuracyReceiver.Receiver.Check | src/bench/accuracy.rs:204-252 | the in-place check of one message does what the ledger's step says, through every early return |
| AccuracyReceiver.Receiver.HandleOne | src/bench/accuracy.rs:182-191 | checks exactly the bytes of the slot that the completion covers, as they were before the call, and leaves its slot posted again |
| AccuracyReceiver.Receiver.Finish | src/bench/accuracy.rs:194-198 | counts the sequence numbers never seen |
| SlotRegion.SlotsApart | src/bench/accuracy.rs:74-78 | byte ranges of different slots are disjoint |
| SlotRegion.RangesRepresentable | src/bench/accuracy.rs:66-78 | every bound of every slot's range is a 64-bit number iff the size of the region is |
| SlotRegion.SlotWritten | src/bench/accuracy.rs:74-78 | writing one slot's bytes changes that slot of the region and no other |
| Ledger.FoldIsDeclarative | src/bench/accuracy.rs:163-252 | checking messages one by one equals the declarative report: the first message per in-range header scored, later ones duplicated, the rest unidentifiable |
| Ledger.FirstOfIsFirst | src/bench/accuracy.rs:222-226 | the message scored for a sequence number is the earliest one carrying it |
| LedgerLaws.Conservation | src/bench/accuracy.rs:163-194 | every reaped message and every sequence number is accounted for exactly once |
| LedgerLaws.IntegrityBounds | src/bench/accuracy.rs:233-251 | correct bytes, correct bits, truncated, corrupted and lost bound one another |
| LedgerLaws.PerfectAccuracy | src/report.rs:107-110 | either percentage is 100 iff nothing was lost and nothing corrupted |
| LedgerLaws.AccuracyIsShare | src/report.rs:107-110 | either percentage is the share of the bytes or bits sent that arrived correct |
| LedgerLaws.SeenIffAttributed | src/bench/accuracy.rs:222-226 | a sequence number is marked seen iff some message checked carried it |
| LedgerLaws.OrderIrrelevant | src/bench/accuracy.rs:172-231 | received, lost, duplicated and unidentifiable do not depend on the order of arrival |
| LedgerLaws.ReportIgnoresOrder | src/bench/accuracy.rs:172-252 | nor does anything in the report when equal headers mean equal messages |
| LedgerLaws.CleanReport | src/bench/accuracy.rs:163-252 | distinct intact payloads make a report without faults other than loss |
| LedgerLaws.SwapCharged | src/bench/accuracy.rs:211-251 | a message under another's header loses at least a byte per full body word and counts as corrupted from 16 bytes on; at 8 bytes it cannot be told apart |
| Scoring.BytesAreMatches | src/bench/accuracy.rs:238-243 | the byte score is the number of positions at which the messages agree |
| Scoring.BitsAreHamming | src/bench/accuracy.rs:238-246 | matching bits plus the Hamming distance are eight per byte |
| Scoring.ScoreBounds | src/bench/accuracy.rs:238-249 | either score is full iff the messages agree, and eight times the bytes never exceed the bits |
| Scoring.SwapDetected | src/bench/accuracy.rs:92-99 | a swapped header costs at least one byte in every full word of the body |
| Payloads.FillPayload | src/bench/accuracy.rs:92-99 | overwrites exactly the given range with the payload, whatever was there before, including a partial last word |
| Payloads.PayloadIsStream | src/bench/accuracy.rs:92-99 | a payload is its sequence number followed by the words the generator draws from it, one after the other, cut off where the message ends |
| Payloads.HeaderRoundTrip | src/bench/accuracy.rs:211-215 | the header of a payload decodes to its sequence number |
| Payloads.PayloadInjective | src/bench/accuracy.rs:92-99 | payloads are equal iff their sequence numbers are |
| Payloads.PayloadPrefix | src/bench/accuracy.rs:92-99 | shorter payloads are prefixes of longer ones |
| Splitmix.NextWord | src/bench/accuracy.rs:82-88 | the state drawn from can be recovered from the word drawn |
| Splitmix.MixInvertible | src/bench/accuracy.rs:82-88 | all five mixing rounds modulo 2^64 are invertible |
| Splitmix.WordsStayApart | src/bench/accuracy.rs:82-88 | different seeds disagree in every word they draw |
| Splitmix.ReferenceWords | src/bench/accuracy.rs:82-88 | the first three words drawn from seed 0 are the generator's reference values |
| SplitmixPeriod.PeriodIsFull | src/bench/accuracy.rs:82-88 | words drawn from one seed repeat after 2^64 positions and never sooner |
| Bandwidth.Pipeline.Send | src/bench/bandwidth.rs:106-125 | in every world that answers its polls: keeps the window full, ends, fails iff a poll does before every send has completed, and otherwise posts and reaps every id below the count exactly once |
| Bandwidth.Pipeline.Receive | src/bench/bandwidth.rs:45-83 | whatever answers its polls, the loop ends exactly as the drain does on the polls made; the posted ids are the window plus one per completion, and the shortfall reported is exact |
| Drains.DrainDeclared | src/bench/bandwidth.rs:55-76 | every way the drain can end and at which poll: a failed one, the first at which the completions add up to the count, or the first empty one that comes `IDLE_TIMEOUT` after the last that was not empty or after the beginning, whichever is first |
| Drains.StillDraining | src/bench/accuracy.rs:172-193 | the drain goes on exactly as long as none of these has happened, and counts and times what the polls say |
| Bandwidth.Pipeline.Refill | src/bench/bandwidth.rs:70-75 | one new post per completion until all are posted, never into a full queue |
| CompletionQueue.CapacityIsExact | src/client.rs:180-182 | no run of an endpoint overflows a completion queue shared by both its work queues iff its capacity is at least the sum of their depths |
| CompletionQueue.ConversionsWrap | src/client.rs:180 | the conversions of depths to 32 bits keep the low bits and land in the type's range |
| CompletionQueue.CreatedQueueSuffices | src/client.rs:180-182 | with the conversions of the depths (src/transport/rc.rs:14-15) and of their sum, the completion queue created is never overflowed iff the converted depths add up to less than 2^31 |
| CompletionQueue.WindowFits | src/bench/bandwidth.rs:106-109 | the window a loop opens with fits the work queue created for it iff it is at most the converted depth |
| CompletionQueue.FitsNext | src/client.rs:180-182 | every post, completion and poll keeps each kind's requests, unreaped ones included, within its depth |
| Bandwidth.SendCanFinish | src/cli.rs:133-140 | the send loop can reach its exit iff the depth is not zero or there is nothing to send |
| Bandwidth.WindowCanFinish | src/bench/bandwidth.rs:106-125 | a loop that opens with a window can go on to its exit iff the window fits the queue |
| PingPong.InvNext | src/bench/latency.rs:115-170 | every step of either CPU, either NIC or the network keeps the exchange's invariant |
| PingPong.Chain | src/bench/latency.rs:115-170 | samples, echoes, pings reaped and pings sent form a chain at most one message long, and sample i timed the echo of ping i |
| PingPong.SatisfiedWaitIsClean | src/bench/latency.rs:118-133 | a satisfied wait of `ping` leaves nothing outstanding and no stale completion |
| PingPong.NeverStuck | src/bench/latency.rs:115-170 | without losses, as long as no wait has run out, some step brings the exchange forward, although `pong` echoes before it reposts |
| PingPong.RunsAreBounded | src/bench/latency.rs:115-170 | such an exchange is over after a bounded number of steps |
| BoundedWait.OutcomeDeclared | src/bench/latency.rs:72-93 | every way a wait can end and at which poll: a failed poll, a look at the clock at or past the deadline, or everything wanted seen, whichever is first |
| BoundedWait.TimesOutSatisfied | src/bench/latency.rs:77-91 | a wait that has seen everything reports a timeout iff the poll that completed it is a hundredth one whose look at the clock is the first at or past the deadline |
| BoundedWait.FewLatePolls | src/bench/latency.rs:83 | no more than a hundred polls follow the first after which the clock has reached the deadline |
| RoundTrips.DiscardedExactly | src/bench/latency.rs:118-133 | in every reachable state of a wait of `ping`: when it can time out, when it can take a sample, and when it discards a round trip that is complete |
| RoundTrips.AbandonedExactly | src/bench/latency.rs:162-170 | in every reachable state of a wait of `pong`: when it can time out, when it takes the ping, and when it gives up on a ping it has reaped |
| RoundTrips.GivingUpIsFinal | src/bench/latency.rs:163-171 | a ping `pong` gave up on is never echoed |
| RoundTrips.TimeoutMayDiscardRoundTrip | src/bench/latency.rs:77-128 | for every number of round trips and every one of them there is a run that completes it and discards it |
| RoundTrips.SendQueueNeeded | src/bench/latency.rs:162-170 | with no assumption on when sends complete, a send queue is never too short for `pong` iff it holds the echoes of the whole run |
| RoundTrips.OrderlySendsFit | src/bench/latency.rs:162-170 | if an echo's send completes before the next ping is delivered, `pong` never occupies more than one entry |
| LatencyHosts.Host.WaitFor | src/bench/latency.rs:72-93 | returns what the bounded wait makes of the polls made, with the deadline `timeout` after it began, and leaves the exchange in the state that goes with it; it ends |
| LatencyHosts.Host.Ping | src/bench/latency.rs:96-141 | the client's loop is a run of the exchange; each sample is half the time between a reading before its ping was posted and one after its wait, every wait lasts until `IDLE_TIMEOUT` after a beginning later than the post, and it stops short only if such a wait ran out or a poll failed |
| LatencyHosts.Host.RoundTrip | src/bench/latency.rs:117-132 | one turn of that loop: the steps it takes, in order, with the readings of the clock around them, in each of its three endings |
| LatencyHosts.Host.Pong | src/bench/latency.rs:144-177 | the server's loop is a run of the exchange and counts its echoes; it gives up only if a poll failed or the wait begun after its last repost ran out `IDLE_TIMEOUT` after it began |
| LatencyTiming.GivingUpTakesTime | src/bench/mod.rs:16-20 | a side that gives up has read a clock two seconds past the beginning of its wait |
| LatencyHosts.ClearBits | src/bench/latency.rs:78-81 | clearing the bits of completed ids leaves the mask of the requests still missing |
| LatencyHosts.MaskZero | src/bench/latency.rs:77 | the mask is zero iff no request is missing |
| Session.LinesArriveAsSent | src/comm.rs:126-143 | in every run each side receives exactly the peer's lines at the exchanges they were sent for, but for a last line cut short by an abort, and barriers consume only barrier bytes |
| Session.NeverStuck | src/comm.rs:126-176 | while a side is running some step other than an abort is possible, also when the peer has gone |
| Session.AbortEndsPeer | src/comm.rs:133-143 | after an abort, a session that can go no further has the other side failed, ended on a line cut short, or done and in possession of all the aborting side's script had to send |
| Session.PendingReadEnds | src/comm.rs:133-176 | a read that waits on an empty stream whose other end is closed is over at the side's next step, with an error or, at most, on a line cut short |
| Session.EndedShort | src/comm.rs:133-143 | in every reachable state a side that has ended although its peer had more to write has failed or accepted a cut line |
| Session.SessionsEnd | src/comm.rs:126-176 | every session is bounded, whatever its scripts |
| Session.CompleteSession | src/comm.rs:126-176 | without aborts nothing fails and each side ends with every line of the other |
| Session.BarrierHolds | src/comm.rs:145-157 | in every run, whoever aborts, nobody passes a barrier before the peer has reached it with its work up to there done |
| Session.InvNext | src/comm.rs:126-176 | every byte written, read or missed at the end of the stream keeps the streams and positions in step |
| SessionScripts.ScriptsAreDual | src/client.rs:185-228 | the client's and the server's halves answer each other for every mode, a rejection and a refused run; for the one-sided modes the server's half is src/bench/rdma.rs:54-56 |
| SessionScripts.StreamsIntoPostedReceives | src/bench/bandwidth.rs:45-109 | once a side may be in its data loop, the peer has reached the barrier before it with its receives posted |
| SessionScripts.StreamsBetweenConnectedPairs | src/client.rs:170-206 | by then both queue pairs are built and connected |
| AccuracySession.SendsMeetPostedReceives | src/bench/accuracy.rs:113-159 | in every run of the benchmark inside its session a message is posted only when the receiver has posted every slot of its window, and the benchmark's part is a run of the benchmark alone |
| AccuracySession.LoopsAreOver | src/bench/accuracy.rs:138-199 | whoever has left the last barrier, the other's loop is over: all sends completed, or the drain stopped |
| AccuracySession.ReportInSession | src/bench/accuracy.rs:102-199 | what the benchmark alone is proved to report, it reports in its session |
| LatencySession.PingsMeetPostedReceives | src/bench/latency.rs:114-162 | in every run of the exchange inside its session a ping is posted only when both sides have posted their first receives, and the exchange's part is a run of the exchange alone |
| LatencySession.ExchangeIsOver | src/bench/latency.rs:118-172 | whoever has left the last barrier, the other's loop is over, and the samples are those of their own round trips |
| BandwidthSession.SendsMeetPostedReceives | src/bench/bandwidth.rs:45-109 | in every run inside the session a message is posted only when the receiver has posted its whole window; both queues run as they do alone, and no more is received than was sent |
| BandwidthSession.LoopsAreOver | src/bench/bandwidth.rs:77-127 | whoever has left the last barrier, the other's loop is over: all sends reaped, or the drain ended |
| SessionScripts.LoopsEndTogether | src/bench/bandwidth.rs:77-127 | nobody leaves the final barrier before the peer has left its data loop |
| UnmatchedBarrier.HangsOnRead | src/comm.rs:15-18 | for any scripts that part at a barrier opposite a line read, in every run without aborts both sides are still running when it can go no further |
| UnmatchedBarrier.FailsAtEnd | src/comm.rs:151-176 | opposite the end of the other script the barrier is never passed, and a run that can go no further has that side failed and the other done |
| UnmatchedBarrier.PassesOnLine | src/comm.rs:151-176 | opposite a line the barrier is passed in every run that is carried on, and on the first byte of the line |
| UnmatchedBarrier.CoreNext | src/comm.rs:126-176 | until the barrier's side comes to an end of its wait, every step keeps the run one of the matched part and what was done since |
| SessionHosts.RunOnce | src/client.rs:167-230 | a successful client has written its whole script and consumed exactly the server's, and none of its RDMA work failed; a failed one stopped before the exchange whose work failed; if the server's bytes are complete and parse, the result is fixed by which work fails and by the mode; a rejection is recognised and an unsupported request writes nothing |
| SessionHosts.HandleConnection | src/server.rs:31-84 | the same for the server, which plays the rejecting or the running script of any mode according to the request it reads |
| SessionScripts.SupportedIsOffered | src/bench/mod.rs:46-57 | a combination is supported iff its transport is implemented and has the operation the mode needs |
| SessionHosts.Receives | src/comm.rs:133-143 | reads the line of the peer's next exchange, whatever follows it, and fails only if the stream ends before it |
| SessionHosts.Ahead | src/comm.rs:126-176 | what has been consumed so far determines what the next bytes are |
| Comm.Conn.SendMsg | src/comm.rs:126-131 | writes the text and a newline, which read back as one line whatever follows iff the text holds no newline |
| Comm.Conn.RecvMsg | src/comm.rs:133-143 | the result depends on the bytes and not on their fragmentation: the text up to the newline, the rest at the end of the stream, an error if there is none |
| Comm.Conn.Sync | src/comm.rs:151-176 | writes one byte and takes exactly one from the reader that also reads lines |
| Comm.FeedReadsOneLine | src/comm.rs:133-143 | reading a line at once equals the session's byte-by-byte reading and leaves the same bytes |
| LatencyStats.NearestRank | src/report.rs:62 | a percentile is a sample, at least ceil(p n) samples are at or below it and fewer strictly below |
| LatencyStats.FiguresMeasure | src/report.rs:47-75 | there is a row iff there are samples; its median, p99 and p99.9 are samples with enough samples at or below them and too few below, its average and variance are those of the samples as given |
| LatencyStats.FiguresOrdered | src/report.rs:47-75 | min, median, p99, p99.9 and max stand in order, the average is between min and max, and both ends are samples |
| LatencyStats.StatsIgnoreOrder | src/report.rs:47-75 | the figures do not depend on the order of the samples |
| LatencyStats.VarianceZero | src/report.rs:55-61 | the variance is never negative and zero iff all samples are equal |
| LatencyStats.SortSorts | src/report.rs:52-53 | sorting permutes and orders |
| Sweep.PowerOfTwoSizes | src/cli.rs:168-199 | lists exactly the powers of two in the range, ascending, up to the top of the 64-bit range; every error in exactly its case |
| Sweep.ListsUnique | src/cli.rs:168-199 | only one list does that |
| Sweep.SweepDoubles | src/cli.rs:184-191 | each size is twice the one before |
| Sweep.RoundUpIsLeast | src/cli.rs:183 | the first size is the least power of two at or above the minimum |
| Sweep.MakePlan | src/cli.rs:128-163 | when arguments make a plan, with which modes and sizes, and which error is returned otherwise |
| Sweep.AllModes | src/cli.rs:229 | a sweep over all modes runs each mode that this client can initiate exactly once |
| Sweep.SkipsWhatFails | src/client.rs:83-101 | the sizes a mode skips are exactly those its benchmark would refuse |
| Sweep.AcceptedPlanRuns | src/cli.rs:128-163 | under an accepted plan the bandwidth sender can post its window and reach its exit iff the window fits the depth converted to 32 bits, and the accuracy benchmark accepts exactly the sizes its mode admits |

## Left out

- ibverbs calls, device opening, memory registration and queue pair building (`src/device.rs`, `src/transport/`): only queue capacities, polling and in-order send completion are modelled.
- UD, which is not implemented.
- RDMA WRITE and READ: the responder's exchanges are modelled, the memory it lends and the initiator, which is another program, are not. The initiator's half of the script is the one the responder's is written for.
- The JSON encoding: a message is a text without control characters; what a line cut short parses as is left open.
- SessionHosts.RunOnce: the lines a side writes are fixed beforehand, the data loops between two barriers are work of which it is given whether it fails (their own modules model them), and building the queue pair is one such step.
- SessionHosts.HandleConnection: the same; the accept loop and what it prints are not modelled.
- An error inside a benchmark after the handshake is the session's `Abort`, which may happen at any point on either side.
- AccuracySender.Sender.FillAndPost: the region is filled before the protocol takes one `Write` step, so the NIC does not act in the middle of a fill; the protocol itself allows any number of partial writes.
- The clock counts nanoseconds and is read once after each poll of a drain; the settling sleeps are not modelled.
- Counters are unbounded numbers; `ReportBalances` bounds them by the sizes of the run, and `RangesRepresentable` says when the region's bounds are 64-bit numbers.
- Floating point: the statistics are over exact numbers, the sum of samples and the rates are not rounded, the square root of the variance is not taken, and the order that `total_cmp` gives to special values is not modelled.
- Throughput figures, tables, CSV text, tracing and argument parsing.
