# Verification of the messaging load generators

A Dafny model of the repository's load generators that hold real state: the
AMQP-to-TCP bridge, the benchmark senders and receivers, the slow HTTP server
and its client, the programs that stream messages in chunks, and the two
loaders that open links by the thousand. Check it with
`dafny verify dfyconfig.toml`.

## What is modelled

Each program that handles events is modelled twice, and the two are tied
together. A state machine on values (`Bridge`, `CreditLink`, `WindowOne`,
`Clogger`, `ChunkedSender`, `OomSender`, `LinkScale`, `LinkLoader`,
`AddressLoader`) has one function for each handler, an invariant, a lemma that
each step keeps it, and the theorems about every run. A class
(`BridgeContext.Context`, `BenchClients.SenderClient` and so on) has the
program's own variables, which its methods update in place with the program's
own branches and loops; each method is proved to take exactly the machine's step.

Proton, pyngus and the sockets are foreign code. They appear as small classes or
events with a stated contract: an advance uses one credit; a delivery has one
terminal outcome; a receive returns any non-empty prefix of what is there, or
nothing at the end; a write may be short where the program allows for it. Clock
readings, what the peer does and how the network splits octets are parameters,
so every theorem holds for all of them.

**The bridge** (`Ring`, `BridgeLink`, `Bridge`, `BridgeRuns`, `BridgeWakes`,
`BridgeFailures`, `BridgeContext`). Two handlers share a ring of 128 slots, one
kept free. Octets go from an AMQP delivery to a slot, from there by reference to
the raw connection, and from there to the wire. The peer may begin as many
deliveries as it has credit for, one behind the other, and each has its own
events. The file is a draft that does not compile as it stands (`slots` for
`buffers`, `amqp_conn` and `amqp_connection`, `link` and `event` undeclared); its
evident intent is modelled, with one link, and the receive at line 279 is from
the context's link.

The code relies on three things it does not make sure of. Each is a named
predicate, with a theorem that says exactly when it is needed and a run from the
start in which it fails:

- `HandedBack`: `raw_send` starts at `consumer_slot` each time, so it lends a
  slot again while the first lending is still out. `LendingTwice` proves the
  assumption necessary and sufficient; after the run in `DuplicateOctetOnWire`
  one octet reaches the server twice.
- `Timely`: a delivery event that comes while an earlier delivery is still
  unfinished, as when the ring is full, fails the assertion at line 266; with
  assertions compiled out it is used up, and nothing wakes the bridge for its
  delivery later. `TimelyStep` and `InTurnExactly` prove which steps and runs keep
  the assertion, `StepAwake` which steps lose a wake-up; `EventOutOfTurn` and
  `DeliveryStranded` are the runs. `AwakeExactly` proves the same for whole runs
  and wake-ups, and `QuietMeansDone` needs no more than it. A peer that sends one delivery at a time is
  safe except for one race with a wake (`OneAtATime`, `EventStale`).
- A current delivery when a wake comes: `WakeFindsDelivery`, `WakeWithoutDelivery`.

The closing of the link makes no event, so a bridge that is idle then never
closes its TCP connection: `ClosedWhenQuiet`, with the run in `LeftOpen`.

**Credit** (`CreditLink`, `CreditRuns`, `CreditGrants`, `BenchClients`). The
sender, the receiver, and a link between them with transfers, flow frames and
dispositions in order, under the credit rule of section 2.6.7 of AMQP 1.0. When it
refills its credit, the receiver reduces `grant` to what it still wants, under a
comment that says it does not grant more than that, and then flows the amount that
is not reduced (receiver.c, lines 184-191). The model follows the code. Each refill
is of half the window, rounded up (`RefillAmount`), so the comment holds of every
refill of every run exactly when the limit is at most that or a whole multiple of
it, or the sender stops before the last refill: `RefillsExactly`;
`RefillBeyondWanted` builds a run that breaks it. `GrantedExactly` is about the total
instead. A flow event may come at any time in all the senders' models;
`SpareFlowChangesNothing` is why the composed system can leave the surplus ones out.

**One message at a time** (`WindowOne`, `WindowOneClients`). The latency and
blocking senders wait for each outcome. A presettled blocking sender is never
prompted by one, so it sends exactly one message for each flow event that finds
credit, however much there is: `PresettledSendsOncePerFlow`.

**Stalls** (`StallClock`, `StallRuns`). The credit-based sender records the waits
from the end of one flow event in which it sent to the beginning of the next
(`WaitsBetweenSends`); the blocking sender those from its latest attempt without
credit to the next message (`StallLastsToNextSend`).

**HTTP framing** (`Numerals`, `HttpText`, `HttpFraming`, `HttpExchange`,
`HttpEndings`, `HttpPeers`). The line reader, the header loop and the body loop over a stream
that is split anyhow, after sections 2.2, 6.2, 6.3 and 9.3.2 of RFC 9112; strip,
lower and int as Python has them for ASCII text. A pipeline that is cut short ends
with the connection closed, except where the cut falls between a content length's
colon and the first digit of its value: there `int` raises, and the exception ends
the server's loop (`CutPipelineEnds`).

**Streaming a message in chunks** (`AmqpMessage`, `Clogger`, `CloggerClient`,
`ChunkedSender`, `ChunkedSenderClient`, `OomSender`, `OomSenderClient`,
`LinkScale`, `LinkScaleClients`). Writes spread over many events add up to
exactly one encoded message; what is sent decodes by sections 1.6.19, 3.2.1,
3.2.4 and 3.2.8 of AMQP 1.0, and nothing cut short does.

**Statistics** (`Statistics`). Running sums and sums of squares from which an
integer variance is printed. It is not negative for any samples while the
accumulators are exact, which they are if and only if the sum of squares fits
(`ExactIff`, `NoSignedOverflow`); `VarianceCanUnderflow` has two samples for which
it is negative. Once the sums have wrapped, its sign has no simple condition: two
remainders modulo 2^64 are compared, which bear no fixed relation to the samples.

**Loaders** (`LinkLoader`, `LinkLoaderClient`, `AddressLoader`,
`AddressLoaderClient`). Cycle counters whose assertions cannot fail, names and
addresses that are all different, and runs that end after exactly the number of
steps asked for. A peer that closes a link before it is asked to keeps the link
loader from ever stopping, and nothing else does: `CanStopExactly`. The address loader prints `num_conns * links_per_conn` as the
total; `PrintedTotal` proves for which settings that is true.

## Model

| member | source | states |
|---|---|---|
| Ring.FullAndEmpty | skupper-router/clients/amqp-tcp-bridge.c:66-74 | full and empty are 127 and 0 slots in use: one slot is always kept free |
| Ring.SlotStep | skupper-router/clients/amqp-tcp-bridge.c:61-64 | stepping a slot number goes one further round the ring, past the last slot to the first |
| Ring.SlotsDiffer | skupper-router/clients/amqp-tcp-bridge.c:61-64 | fewer than 128 steps apart on the ring are different slots |
| Ring.PutQueue | skupper-router/clients/amqp-tcp-bridge.c:92-112 | filling free slots appends the chunks to the queue from consumer to producer, wrap-around included |
| Ring.ReleaseQueue | skupper-router/clients/amqp-tcp-bridge.c:114-128 | moving the consumer on removes the oldest buffers from the queue and no others |
| Bridge.DrainedKeeps | skupper-router/clients/amqp-tcp-bridge.c:114-128 | taking back written buffers keeps the account of every octet and drops exactly the written ones from the queue |
| Bridge.SentKeeps | skupper-router/clients/amqp-tcp-bridge.c:130-151 | lending from the consumer slot keeps every invariant when nothing is out |
| Bridge.ReceivedKeeps | skupper-router/clients/amqp-tcp-bridge.c:92-112 | receiving keeps lent buffers' memory and the account of every octet |
| Bridge.LentInOrder | skupper-router/clients/amqp-tcp-bridge.c:120-125 | every buffer that comes back is the one at the consumer slot, as the drain asserts |
| Bridge.WrittenKeeps | skupper-router/clients/amqp-tcp-bridge.c:136-146 | the transport's partial writes from ring memory put the queue's octets on the wire in order |
| Bridge.AmqpHandledKeeps | skupper-router/clients/amqp-tcp-bridge.c:268-294 | the arm that delivery and wake events share keeps the stream, the lending and the deliveries behind the current one |
| Bridge.RawHandledKeeps | skupper-router/clients/amqp-tcp-bridge.c:322-333 | the raw handler keeps them when every lent buffer was written or the connection takes no more |
| Bridge.StepKeeps | skupper-router/clients/amqp-tcp-bridge.c:265-333 | every event keeps the bridge's invariant, with as many deliveries as there is credit for |
| Bridge.RawLendsAll | skupper-router/clients/amqp-tcp-bridge.c:130-151 | after a raw event with every lent buffer written, either every slot in use is lent or exactly as many more as the connection accepts, in ring order; the written ones are gone |
| Bridge.AmqpMakesRoom | skupper-router/clients/amqp-tcp-bridge.c:268-294 | with data to read the arm takes back all written buffers, fills a slot for each chunk received, stirs the raw side exactly if there was one, and accepts exactly a delivery that is complete and all read |
| BridgeRuns.WireIsPrefix | skupper-router/clients/amqp-tcp-bridge.c:92-151 | in every run the wire is a prefix of what was received, a prefix of what arrived; the rest is the ring's content and what the open deliveries hold; closing leaves nothing unwritten; credit and unsettled deliveries make up the window |
| BridgeRuns.ReturnedSlotIsConsumer | skupper-router/clients/amqp-tcp-bridge.c:121-122 | the drain's assertion holds each time it is evaluated, in every run |
| BridgeLink.BegunKeeps | skupper-router/clients/amqp-tcp-bridge.c:226-226 | a delivery begun behind others uses a credit of the window granted and leaves their octets alone |
| BridgeLink.ArrivedKeeps | skupper-router/clients/amqp-tcp-bridge.c:265-268 | a transfer adds to the newest delivery and keeps events in the order of their deliveries |
| BridgeLink.AcceptedKeeps | skupper-router/clients/amqp-tcp-bridge.c:287-293 | accepting makes the next delivery current and gives its credit back |
| BridgeWakes.TimelyStep | skupper-router/clients/amqp-tcp-bridge.c:265-294 | the assertion at line 266 goes on holding if and only if the step is timely: a transfer behind the current delivery finds an event waiting, the delivery of an event handled with others behind it is finished, and a wake finishes none that has an event |
| BridgeWakes.OneAtATime | skupper-router/clients/amqp-tcp-bridge.c:265-294 | with one delivery at a time the only untimely step is a wake that finishes the delivery while its event waits |
| BridgeWakes.InTurnExactly | skupper-router/clients/amqp-tcp-bridge.c:265-268 | of the runs with prompt receives, those whose steps are timely are exactly those in which the assertion holds throughout |
| BridgeWakes.StepAwake | skupper-router/clients/amqp-tcp-bridge.c:268-294 | a step leaves every side that could make progress with an event waiting if and only if it does not finish a delivery with the next one readable, a slot free and no AMQP event waiting |
| BridgeWakes.InTurnStep | skupper-router/clients/amqp-tcp-bridge.c:265-333 | while the assertion holds no step loses a wake-up |
| BridgeWakes.RunInTurn | skupper-router/clients/amqp-tcp-bridge.c:265-333 | in every run in turn the assertion holds at the end, readable data with a free slot has an AMQP event queued, and a filled slot has a lent buffer, a raw event or no connection yet |
| BridgeWakes.AwakeExactly | skupper-router/clients/amqp-tcp-bridge.c:265-333 | of the runs with prompt receives those that strand no delivery are exactly those in which no wake-up is ever lost |
| BridgeWakes.InTurnStrandsNone | skupper-router/clients/amqp-tcp-bridge.c:265-294 | a run in which the assertion holds strands no delivery |
| BridgeWakes.QuietMeansDone | skupper-router/clients/amqp-tcp-bridge.c:265-333 | no lost wake-up in any run that strands no delivery: with no event waiting and no lent buffer unwritten, every octet that arrived on any delivery is on the wire |
| BridgeWakes.ClosedWhenQuiet | skupper-router/clients/amqp-tcp-bridge.c:256-260 | at rest after the link closed, the TCP connection is closed if and only if octets, a raw event or the connection were still to come then, or a raw event came of itself |
| BridgeFailures.DuplicateOctetOnWire | skupper-router/clients/amqp-tcp-bridge.c:130-151 | a run from the start after which a second raw event sends one octet to the server twice |
| BridgeFailures.WakeWithoutDelivery | skupper-router/clients/amqp-tcp-bridge.c:268-275 | a run from the start after which a wake finds no current delivery |
| BridgeFailures.EventOutOfTurn | skupper-router/clients/amqp-tcp-bridge.c:265-266 | a run from the start after which the assertion fails: the ring full, the event that waits is for the second delivery |
| BridgeFailures.DeliveryStranded | skupper-router/clients/amqp-tcp-bridge.c:268-294 | that run continued with assertions compiled out: the second delivery is current and readable, slots are free, and no AMQP event waits |
| BridgeFailures.EventStale | skupper-router/clients/amqp-tcp-bridge.c:265-266 | a run with one delivery at a time after which the assertion fails, the event's delivery being settled already |
| BridgeFailures.LeftOpen | skupper-router/clients/amqp-tcp-bridge.c:256-260 | a run from the start that comes to rest with the link closed and the TCP connection open |
| BridgeRuns.LendingTwice | skupper-router/clients/amqp-tcp-bridge.c:135-146 | the raw handler leaves each slot lent once, in order, if and only if all lent buffers were written or none is accepted |
| BridgeRuns.SecondReturnFailsAssertion | skupper-router/clients/amqp-tcp-bridge.c:121-122 | otherwise a slot comes back that is not the consumer slot |
| BridgeRuns.WakeFindsDelivery | skupper-router/clients/amqp-tcp-bridge.c:322-333 | the AMQP side is woken exactly when a full ring got a free slot, and then finds no delivery exactly when the last was already accepted |
| BridgeContext.Context.constructor | skupper-router/clients/amqp-tcp-bridge.c:47-59 | a fresh context is the machine's initial state |
| BridgeContext.Context.LinkReceive | skupper-router/clients/amqp-tcp-bridge.c:92-112 | the receive loop's effect on ring, link and history; each receive asks for a whole buffer; it stops with the ring full or nothing pending |
| BridgeContext.Context.RawWriteDrain | skupper-router/clients/amqp-tcp-bridge.c:114-128 | takes back all written buffers, its assertion holding each time |
| BridgeContext.Context.RawSend | skupper-router/clients/amqp-tcp-bridge.c:130-151 | lends the slots in use, in ring order from the consumer slot, each with its size: all of them or as many as are accepted, behind what is lent already |
| BridgeContext.Context.HandleAmqp | skupper-router/clients/amqp-tcp-bridge.c:268-294 | the shared arm in place drains, receives, wakes and accepts as the machine does, and reports a null current delivery |
| BridgeContext.Context.OnDelivery | skupper-router/clients/amqp-tcp-bridge.c:265-294 | the assertion is evaluated, and true exactly when the event is for the current delivery; then the handler takes the machine's step |
| BridgeContext.Context.OnWake | skupper-router/clients/amqp-tcp-bridge.c:268-294 | takes the machine's step, and reports a null current delivery |
| BridgeContext.Context.OnRawEvent | skupper-router/clients/amqp-tcp-bridge.c:322-333 | takes the machine's step |
| CreditLink.SenderFlowKeeps | benchmarks/clients/src/sender.c:302-357 | the sender's flow arm keeps the order of messages, uses all credit and keeps the limit |
| CreditLink.ReceiverDeliveryKeeps | benchmarks/clients/src/receiver.c:137-193 | the receiver's delivery arm keeps credit above half the window and no more than the window |
| CreditLink.DispositionArrivesKeeps | benchmarks/clients/src/sender.c:359-408 | the sender's delivery arm keeps one acknowledgement for each message the receiver settled, accepted or not |
| CreditLink.InformationalChangesNothing | benchmarks/clients/src/sender.c:359-408 | an outcome that is not final changes no counter and stops the sender no sooner |
| CreditLink.SpareFlowChangesNothing | benchmarks/clients/src/sender.c:302-357 | a flow event beyond those that flow frames bring changes nothing |
| CreditLink.NextKeeps | benchmarks/clients/src/sender.c:302-408 | every action of sender, link and receiver keeps the system's invariant |
| CreditRuns.LinkIsFaithful | benchmarks/clients/src/receiver.c:133-193 | in every run: sent is received plus in flight, in order; received is acknowledged plus dispositions in flight; credit is credit seen less sent; at most a window is out |
| CreditRuns.OutcomesCounted | benchmarks/clients/src/sender.c:370-393 | in every run accepted is the number of PN_ACCEPTED outcomes that arrived, not accepted that of the other final ones, and acknowledged both |
| CreditRuns.PotentialFalls | benchmarks/clients/src/sender.c:309-348 | every action leaves fewer still to come |
| CreditRuns.QuietMeansFinished | benchmarks/clients/src/receiver.c:179-193 | no stuck state: with nothing under way all is sent, received and acknowledged, and the sender stops |
| CreditRuns.EveryRunFinishes | benchmarks/clients/src/sender.c:302-408 | a run has at most 6 * limit + 2 actions, and at its end an unsettled sender has stopped if and only if the receiver takes at least the limit, a presettled one if and only if it was granted the limit |
| CreditGrants.GrantedExactly | benchmarks/clients/src/receiver.c:182-193 | the total credit granted is fixed by the count received; at the limit it is no more than the limit if and only if the window is one |
| CreditGrants.PresettledFinishes | benchmarks/clients/src/receiver.c:182-193 | where a run ends a presettled sender has stopped if and only if the receiver takes all or its settings grant enough |
| CreditGrants.RefillAmount | benchmarks/clients/src/receiver.c:182-193 | a refill is always of half the window, rounded up, and comes with every multiple of that but the last message |
| CreditGrants.RefillsExactly | benchmarks/clients/src/receiver.c:185-191 | some run has a refill of more than is still wanted, against the comment at line 186, if and only if the limit is more than a refill and no multiple of it and the sender sends as far as the last refill |
| CreditGrants.RefillBeyondWanted | benchmarks/clients/src/receiver.c:185-191 | and then there is such a run from the start |
| BenchClients.SenderClient.SendBurst | benchmarks/clients/src/sender.c:327-348 | the send loop sends numbered messages until credit or limit is used up |
| BenchClients.SenderClient.OnLinkFlow | benchmarks/clients/src/sender.c:302-357 | the flow arm takes the machine's step and accounts for the stall that ends and the one that begins |
| BenchClients.SenderClient.OnDelivery | benchmarks/clients/src/sender.c:359-408 | the delivery arm takes the machine's step: PN_ACCEPTED counts as accepted and any other final outcome as not accepted, and it stops at the limit |
| BenchClients.ReceiverClient.TopUp | benchmarks/clients/src/receiver.c:182-193 | credit at or below half the window is brought up to the window, by the amount the code flows |
| BenchClients.ReceiverClient.OnDelivery | benchmarks/clients/src/receiver.c:137-197 | the delivery arm takes the machine's step, measures and settles once |
| BenchClients.ReceiverClient.PrintedVariance | benchmarks/clients/src/receiver.c:290-294 | the variance printed is that of the latencies measured, negative ones included, and not negative |
| StallClock.Stalls.End | benchmarks/clients/src/sender.c:310-321 | the end of a stall records its length if above zero, and the accumulators stay those of the lengths recorded |
| StallClock.Stalls.PrintedVariance | benchmarks/clients/src/sender.c:513-517 | the variance printed is that of the stalls and not negative while their squares' sum fits 64 bits |
| StallRuns.WaitsBetweenSends | benchmarks/clients/src/sender.c:310-355 | over any flow events: stalled exactly when something was sent and the limit is not reached, since the last event that sent; recorded are, in order, the waits above zero from the end of each sending event to the beginning of the next |
| StallRuns.SendsIff | benchmarks/clients/src/sender.c:302-310 | a flow event sends exactly if it finds credit and the limit is not reached |
| StallRuns.StallLastsToNextSend | benchmarks/clients/src/blocking-sender.c:279-345 | over any attempts: stalled exactly while there is one without credit and no message since, from the latest such; recorded are the waits above zero that a message ended |
| StallRuns.StallOfOutcome | benchmarks/clients/src/blocking-sender.c:373-418 | an outcome ends a stall when it leads to a message, begins one when there is no credit for the next, and leaves it alone otherwise |
| Statistics.CauchySchwarz | benchmarks/clients/src/latency-receiver.c:308-312 | the square of a sum is at most the count times the sum of squares |
| Statistics.VarianceNotNegative | benchmarks/clients/src/receiver.c:290-294 | with both divisions cut toward zero, the variance of any samples of either sign is not negative |
| Statistics.VarianceBounds | benchmarks/clients/src/receiver.c:290-294 | for samples of either sign it is less than one below the true variance and less than twice the mean's magnitude plus one above it |
| Statistics.TallyHolds | benchmarks/clients/src/sender.c:314-319 | the accumulators are the count, the sums modulo 2^64 and the largest sample |
| Statistics.ExactIff | benchmarks/clients/src/latency-receiver.c:209-213 | the accumulators are exact if and only if the sum of squares is below 2^64 |
| Statistics.ExactWithin64Bits | benchmarks/clients/src/latency-receiver.c:209-213 | so they are if the count times the largest square is below 2^64 |
| Statistics.PrintedVariance | benchmarks/clients/src/latency-receiver.c:308-312 | and then what is printed is the samples' variance and not negative |
| Statistics.VarianceCanUnderflow | benchmarks/clients/src/latency-receiver.c:308-312 | two samples beyond that for which the subtraction goes below zero |
| Statistics.StallSquareFits | benchmarks/clients/src/sender.c:317-317 | the signed square of a stall is defined if and only if it is at most 3037000499 microseconds |
| Statistics.LatenciesHold | benchmarks/clients/src/receiver.c:163-168 | the signed accumulators are the count, sums and extremes of the latencies |
| Statistics.NoSignedOverflow | benchmarks/clients/src/receiver.c:163-168 | the signed accumulators stay within 64 bits all the way if and only if the final sum of squares does |
| Statistics.DiffRounds | benchmarks/clients/src/sender.c:129-134 | a time that passed is never negative, is within 1.5 microseconds, and is rounded exactly when the division's dividend is not negative or divides evenly |
| WindowOne.StepKeeps | benchmarks/clients/src/latency-sender.c:195-298 | every event keeps at most one message without an outcome, matched samples, and no idle credit |
| WindowOne.OneAtATime | benchmarks/clients/src/blocking-sender.c:279-418 | in every run sent less acknowledged is one while waiting and zero otherwise; accepted plus not accepted is acknowledged; the limit holds; it stops exactly when all are acknowledged |
| WindowOne.OutcomesCounted | benchmarks/clients/src/latency-sender.c:256-284 | in every run accepted is the number of PN_ACCEPTED outcomes, not accepted that of the other final ones |
| WindowOne.StepClocks | benchmarks/clients/src/latency-sender.c:195-284 | a message sent adds its own clock reading to the history, and each final outcome exactly one sample, of its delivery and its time |
| WindowOne.LatencyIsOwn | benchmarks/clients/src/latency-sender.c:256-288 | the i-th latency is of the i-th message: outcome time less send time if and only if the clock has not gone back, else that plus 2^64 |
| WindowOne.RestMeansDone | benchmarks/clients/src/latency-sender.c:286-298 | no stuck state without presettling: at rest the credit is used or the limit reached and acknowledged |
| WindowOne.PresettledSendsOncePerFlow | benchmarks/clients/src/blocking-sender.c:279-371 | presettled, exactly one message is sent for each flow event that finds credit, up to the limit, and the client stops if and only if those reach it |
| WindowOne.NothingSent | benchmarks/clients/src/latency-sender.c:386-391 | nothing has been sent, and the averages divide by zero, if and only if no flow event has found credit |
| WindowOneClients.LatencySender.SendMsg | benchmarks/clients/src/latency-sender.c:195-224 | sends one message if there is credit, none is waited for and the limit allows |
| WindowOneClients.LatencySender.OnFlow | benchmarks/clients/src/latency-sender.c:249-254 | the flow arm takes the machine's step |
| WindowOneClients.LatencySender.OnDelivery | benchmarks/clients/src/latency-sender.c:256-298 | the delivery arm takes the machine's step and keeps the statistics those of the samples |
| WindowOneClients.LatencySender.PrintedVariance | benchmarks/clients/src/latency-sender.c:388-391 | there is no value exactly when nothing was sent; else, dividing by the messages sent, also while one is waited for, the variance is not negative |
| WindowOneClients.BlockingSender.SendMsg | benchmarks/clients/src/blocking-sender.c:279-345 | sends one message under the same conditions; without credit a stall begins, a send ends it |
| WindowOneClients.BlockingSender.OnFlow | benchmarks/clients/src/blocking-sender.c:367-371 | the flow arm takes the machine's step and accounts for the stall |
| WindowOneClients.BlockingSender.OnDelivery | benchmarks/clients/src/blocking-sender.c:373-418 | the delivery arm takes the machine's step and accounts for the stall |
| Numerals.ValueOfDecimal | skupper-router/stress_tests/tcp_backpressure/slow-server:62-63 | a printed number is read back as itself |
| HttpText.PlainHeader | skupper-router/stress_tests/tcp_backpressure/slow-server:60-63 | any other header line leaves the content length alone |
| HttpText.LengthHeader | skupper-router/stress_tests/tcp_backpressure/slow-server:60-63 | a Content-Length line in any case, with white space and leading zeros, sets it to its value |
| HttpFraming.ReadsOneMessage | skupper-router/stress_tests/tcp_backpressure/slow-server:48-76 | a well-formed message is consumed exactly, whatever octets its body has and whatever follows |
| HttpFraming.MessageGrows | skupper-router/stress_tests/tcp_backpressure/slow-server:48-76 | a message that is complete stays so as more octets come |
| HttpFraming.CutMessageIsNotRead | skupper-router/stress_tests/tcp_backpressure/slow-server:53-76 | a stream cut anywhere inside a message does not give that message |
| HttpFraming.ReadsCompleteMessages | skupper-router/stress_tests/tcp_backpressure/slow-server:45-81 | of any pipeline cut at any octet exactly the complete messages are read |
| HttpFraming.ReadsWholePipeline | skupper-router/stress_tests/tcp_backpressure/slow-server:45-81 | a whole pipeline is read as exactly its messages |
| HttpEndings.HeadersExactly | skupper-router/stress_tests/tcp_backpressure/slow-server:49-66 | the header loop raises if and only if a line before the empty one cannot be decoded or is a content length without a value by int; else it ends with the stream, or with the last content length |
| HttpEndings.OutcomeExactly | skupper-router/stress_tests/tcp_backpressure/slow-server:48-76 | so does the reading of a message; otherwise it is complete exactly if the empty line and the last content length's octets are there |
| HttpEndings.CutMessageEnds | skupper-router/stress_tests/tcp_backpressure/slow-server:53-76 | a message cut anywhere reads as closed, except right before a content length's value, where it raises |
| HttpEndings.CutPipelineEnds | skupper-router/stress_tests/tcp_backpressure/slow-server:45-76 | and so ends any pipeline cut at any octet |
| HttpEndings.PipelineCloses | skupper-router/stress_tests/tcp_backpressure/slow-server:53-57 | the server's loop ends with the connection closed after every whole pipeline |
| HttpEndings.LengthCut | skupper-router/stress_tests/tcp_backpressure/slow-server:60-63 | a content-length line cut short raises exactly while no digit of its value has come |
| HttpEndings.EndsAfterColon | skupper-router/stress_tests/tcp_backpressure/slow-server:60-63 | a stream that ends after "Content-Length:" raises |
| HttpEndings.SignedNumeral | skupper-router/stress_tests/tcp_backpressure/slow-server:62-63 | a value with a sign is read as the number it denotes, below zero included |
| HttpEndings.LettersRaise | skupper-router/stress_tests/tcp_backpressure/slow-server:62-63 | a value with a small letter in it raises |
| HttpExchange.PutRequestIsMessage | skupper-router/stress_tests/tcp_backpressure/client-blaster:72-77 | the request printed is a message with a host field and its body's length |
| HttpExchange.NotFoundIsResponse | skupper-router/stress_tests/tcp_backpressure/slow-server:80-81 | the response printed is a message with an empty body |
| HttpExchange.CopiesAreRead | skupper-router/stress_tests/tcp_backpressure/client-blaster:92-102 | any number of copies of a message are read as that many, with nothing left over |
| HttpExchange.ClientAndServerAgree | skupper-router/stress_tests/tcp_backpressure/client-blaster:40-104 | for any host, port, count and body length each peer reads what the other prints as exactly that many messages |
| HttpExchange.BodyLengthLiteral | skupper-router/stress_tests/tcp_backpressure/client-blaster:74-76 | the length written into the request is its body's |
| HttpPeers.ReadLine | skupper-router/stress_tests/tcp_backpressure/slow-server:30-38 | reads up to the first line feed or the end of the stream, and no further |
| HttpPeers.DrainHeaders | skupper-router/stress_tests/tcp_backpressure/slow-server:49-64 | the header loop's result depends only on the octets |
| HttpPeers.DrainBody | skupper-router/stress_tests/tcp_backpressure/slow-server:68-76 | the body loop consumes exactly the content length, or fails if the stream is shorter |
| HttpPeers.DrainMessage | skupper-router/stress_tests/tcp_backpressure/client-blaster:40-69 | one message read, closed or raised, as the framing says; it raises exactly if a header line has no value or cannot be decoded |
| HttpPeers.HandleRequests | skupper-router/stress_tests/tcp_backpressure/slow-server:40-81 | the server sends one response for each message of the stream, however the stream is split; it returns closed after any whole pipeline, and raises exactly if a header line after the last complete message does |
| HttpPeers.GetResponses | skupper-router/stress_tests/tcp_backpressure/client-blaster:99-102 | the client counts the responses there are, up to those wanted, and raises exactly if one is missing because a header line raises |
| HttpPeers.RunClient | skupper-router/stress_tests/tcp_backpressure/client-blaster:71-104 | all requests go out, then as many responses are read as there are, up to the first that raises |
| AmqpMessage.NetworkOrderReads | clients/chaos/clogger.c:156-159 | a length in network order is read back as itself |
| AmqpMessage.DecodeEncode | clients/chaos/clogger.c:88-103 | header, length and data decode to the data |
| AmqpMessage.CutMessageDoesNotDecode | skupper-router/clients/link-loader.c:63-77 | nothing shorter decodes, such as the fragment a link is closed with |
| Clogger.WakeKeeps | clients/chaos/clogger.c:163-205 | one chunk, short or not, keeps the delivery a prefix of the message and the timer set while it is incomplete |
| Clogger.OfferExactly | clients/chaos/clogger.c:163-185 | a write offers the least of what is left of the body, the frame and the block, and never nothing |
| Clogger.WakeSends | clients/chaos/clogger.c:163-205 | a wake short of the end sets the timer again; with the last octet the delivery is finished and the next begun exactly if there is credit and more to send |
| Clogger.StepKeeps | clients/chaos/clogger.c:238-309 | every event keeps: a delivery is current exactly when a timer or a wake is pending, and the counts |
| Clogger.DeliveriesAreMessages | clients/chaos/clogger.c:135-205 | in every run each finished delivery decodes to its body of zeros, one in progress not before it is whole, and the limit is kept |
| Clogger.OutcomesCounted | clients/chaos/clogger.c:257-293 | in every run accepted is the number of PN_ACCEPTED outcomes, not accepted that of the other final ones |
| Clogger.RestMeansNoCredit | clients/chaos/clogger.c:238-309 | with no timer, wake or flow event pending, the credit is used up or the limit sent |
| CloggerClient.CloggerClient.StartMessage | clients/chaos/clogger.c:135-160 | begins a delivery with its prologue; called only with none in process, so it cannot abort |
| CloggerClient.CloggerClient.SendMessageData | clients/chaos/clogger.c:163-205 | offers one chunk, the least of what is left, the frame and the block, and finishes the delivery with its last octet |
| CloggerClient.CloggerClient.OnFlow | clients/chaos/clogger.c:238-249 | takes the machine's step |
| CloggerClient.CloggerClient.OnWake | clients/chaos/clogger.c:299-309 | takes the machine's step for whatever the write took |
| CloggerClient.CloggerClient.OnDelivery | clients/chaos/clogger.c:257-293 | takes the machine's step |
| ChunkedSender.TotalsAfterUpdate | benchmarks/clients/src/chunked-sender.c:228-308 | an event on one link changes the totals over all links by that link's change |
| ChunkedSender.FlowKeeps | benchmarks/clients/src/chunked-sender.c:228-269 | a flow event keeps what is sent a prefix of the message up to the link's offset |
| ChunkedSender.FlowSends | benchmarks/clients/src/chunked-sender.c:228-269 | a flow event on a link with a delivery or one to begin sends the lesser of 64 octets and what is left with fewer than 1024 buffered, and nothing otherwise |
| ChunkedSender.OutcomeKeeps | benchmarks/clients/src/chunked-sender.c:271-308 | an outcome keeps acknowledged within finished |
| ChunkedSender.ChunksMakeMessages | benchmarks/clients/src/chunked-sender.c:228-308 | over any links and interleaving: chunks add up to a prefix of the message, to all of it when advanced; acknowledged is at most finished; count is finished plus in progress, within the limit |
| ChunkedSender.FinishedAfterChunks | benchmarks/clients/src/chunked-sender.c:245-269 | in every run a link has finished one message for every ceil(length / 64) of the flow events in which it could send |
| ChunkedSender.OutcomesCounted | benchmarks/clients/src/chunked-sender.c:271-308 | in every run accepted is the number of PN_ACCEPTED outcomes, not accepted that of the other final ones |
| ChunkedSenderClient.ChunkedSenderClient.OnFlow | benchmarks/clients/src/chunked-sender.c:228-269 | takes the machine's step |
| ChunkedSenderClient.ChunkedSenderClient.OnDelivery | benchmarks/clients/src/chunked-sender.c:271-308 | takes the machine's step |
| OomSender.FlowProgress | skupper-router/oomster/oom-sender.c:173-198 | a flow event sends the most octets that batch, body and open window have room for, none while the window is full; the delivery is advanced exactly when the counter was UINT32_MAX |
| OomSender.FlowOctets | skupper-router/oomster/oom-sender.c:92-103 | those octets are the digits 0 to 9 in turn with a zero byte at the batch's end, behind what the delivery had or behind its prologue; earlier deliveries stay as they were |
| OomSender.FailsExactly | skupper-router/oomster/oom-sender.c:163-174 | in every run a flow event uses a null delivery if and only if a message has been finished for every credit granted so far |
| OomSender.RunsOut | skupper-router/oomster/oom-sender.c:163-198 | from any current delivery on the last credit, flow events finish its message and then use a null delivery |
| OomSender.OneCreditRunsOut | skupper-router/oomster/oom-sender.c:150-198 | such a run from the start |
| OomSender.FlowRespectsWindow | skupper-router/oomster/oom-sender.c:150-198 | a flow event leaves no more buffered than before or the window, plus 16 octets if it begins a message |
| OomSender.FinishedAreWhole | skupper-router/oomster/oom-sender.c:73-89 | in every run each finished delivery decodes to UINT32_MAX octets, and every octet has left the session or is buffered |
| OomSender.BufferedWithinWindow | skupper-router/oomster/oom-sender.c:157-198 | over any run with windows of at most w octets, never more than w + 16 are buffered |
| OomSenderClient.OomSenderClient.OnFlow | skupper-router/oomster/oom-sender.c:150-198 | takes the machine's step, the null delivery included |
| LinkScale.OctetsConserved | skupper-router/clients/amqp_link_scale/link-receiver.c:103-131 | each link carries one message, accepted at most once and with a total of exactly 16 + body_length however it was cut up |
| LinkScale.AdvancedWhenWhole | skupper-router/clients/amqp_link_scale/link-sender.c:164-189 | the delivery is advanced exactly when it decodes, after exactly as many writing flow events as the body has buffers |
| LinkScale.StopsWhenAllAccepted | skupper-router/clients/amqp_link_scale/link-sender.c:191-213 | the sender exits exactly when every link is closed, and then every message was received |
| LinkScale.ThereIsProgress | skupper-router/clients/amqp_link_scale/link-sender.c:164-213 | until then every open link with credit or a message begun has an event that leaves less to do |
| LinkScale.StepKeeps | skupper-router/clients/amqp_link_scale/link-sender.c:164-213 | every event at either end keeps the invariant and leaves no more to do |
| LinkScaleClients.Sender.StartMessage | skupper-router/clients/amqp_link_scale/link-sender.c:99-135 | begins the link's message with its prologue |
| LinkScaleClients.Sender.OnFlow | skupper-router/clients/amqp_link_scale/link-sender.c:164-189 | takes the machine's step |
| LinkScaleClients.Sender.OnDelivery | skupper-router/clients/amqp_link_scale/link-sender.c:191-213 | takes the machine's step |
| LinkScaleClients.Receiver.OnDelivery | skupper-router/clients/amqp_link_scale/link-receiver.c:103-131 | the read loop's total is what was read in all events together; it is carried on, or accepted with when the message is whole or a receive fails |
| LinkLoader.NamesDiffer | skupper-router/clients/link-loader.c:146-149 | a link's name tells its cycle and number |
| LinkLoader.NameParts | skupper-router/clients/link-loader.c:146-149 | a name is the prefix, the numeral of the cycle, the only colon and the numeral of the link |
| LinkLoader.NamesFit | skupper-router/clients/link-loader.c:147-148 | no name of two 32-bit numbers is cut by its buffer |
| LinkLoader.AssertsHold | skupper-router/clients/link-loader.c:173-180 | neither assertion can fail when a close arrives |
| LinkLoader.StepKeeps | skupper-router/clients/link-loader.c:155-198 | the count is the links with a fragment while filling and the links not freed while closing |
| LinkLoader.StopsAfterAllCycles | skupper-router/clients/link-loader.c:134-213 | every run stops at exactly its 2 * link_limit * repeat_count-th productive event |
| LinkLoader.SomethingToWaitFor | skupper-router/clients/link-loader.c:155-198 | in a run in which the peer closes only in answer, until it stops a link can take credit for a fragment or awaits the answer to its close |
| LinkLoader.EarlyCloseNeverStops | skupper-router/clients/link-loader.c:173-176 | a link the peer closes early is never freed, and the run never stops |
| LinkLoader.EarlyCloseFromStart | skupper-router/clients/link-loader.c:173-176 | such a close can come from the start |
| LinkLoader.CanStopExactly | skupper-router/clients/link-loader.c:155-198 | from any state some run stops if and only if no link has been closed early |
| LinkLoader.AllNamesDiffer | skupper-router/clients/link-loader.c:146-149 | all links of a run have different names |
| LinkLoaderClient.LinkLoaderClient.OpenLinks | skupper-router/clients/link-loader.c:184-190 | the loop opens link_limit links named after the cycle |
| LinkLoaderClient.LinkLoaderClient.CloseLinks | skupper-router/clients/link-loader.c:164-168 | the loop closes every link |
| LinkLoaderClient.LinkLoaderClient.OnFlow | skupper-router/clients/link-loader.c:155-171 | takes the machine's step |
| LinkLoaderClient.LinkLoaderClient.OnRemoteClose | skupper-router/clients/link-loader.c:173-198 | takes the machine's step, its assertions holding |
| AddressLoader.AddressLength | clients/chaos/address-loader:52-64 | an address has the length requested or what it needs, whichever is more |
| AddressLoader.AddressParts | clients/chaos/address-loader:52-64 | the prefix is first, the counter's numeral last, the identifier right before it, and nothing but X between |
| AddressLoader.AddressesDiffer | clients/chaos/address-loader:52-64 | different counter values give different addresses for every length requested |
| AddressLoader.StepKeeps | clients/chaos/address-loader:84-116 | every answer keeps one request open, the pairs visited in order, and the tables of connections and receivers |
| AddressLoader.EveryRunEnds | clients/chaos/address-loader:84-116 | exactly one request is open until every connection and link has answered, no sooner and no later; then each connection holds its own receivers |
| AddressLoader.EachPairOnce | clients/chaos/address-loader:97-112 | each pair of indices is opened once, at its place in the order |
| AddressLoader.AddressesOfRunDiffer | clients/chaos/address-loader:45-64 | no two receivers of a run ask for the same address |
| AddressLoader.PrintedTotal | clients/chaos/address-loader:113-116 | the total printed is the number of links opened if and only if both settings are at least one, or both are minus one |
| AddressLoaderClient.UnicastGenerator.Call | clients/chaos/address-loader:52-64 | returns the address of the counter and counts on |
| AddressLoaderClient.Loader.OnConnectionOpened | clients/chaos/address-loader:87-95 | takes the machine's step |
| AddressLoaderClient.Loader.OnLinkOpened | clients/chaos/address-loader:97-116 | takes the machine's step; the entry it looks up is there |

## Left out

- BridgeRuns.WireIsPrefix: for runs in which a raw event finds every lent buffer written or the connection full; BridgeRuns.LendingTwice shows that exactly then the ring stays sound.
- BridgeContext.Context.HandleAmqp: after it reports a null current delivery the model goes on as if nothing had been done; BridgeFailures.WakeWithoutDelivery shows that it happens.
- BridgeWakes.QuietMeansDone: for runs that strand no delivery, which BridgeWakes.AwakeExactly shows to be those that lose no wake-up; after the link has closed, what was unread on it is lost, as in the code.
- BridgeWakes.ClosedWhenQuiet: a raw event may come of itself in the model; whether Proton posts one is not modelled.
- The bridge's listener, its disconnects and the freeing of its context; a second link, which the code does not really reject.
- BenchClients.ReceiverClient.PrintedVariance: the signed accumulators are unbounded integers, which is what C computes exactly under the condition of Statistics.NoSignedOverflow; past it C leaves the result undefined.
- StallClock.Stalls.End: a stall of more than 3037000499 microseconds, whose signed square C leaves undefined, is squared modulo 2^64; Statistics.StallSquareFits has the bound.
- CreditRuns.LinkIsFaithful: a point-to-point link stands for the router, which may change an outcome on its way but not lose it.
- HttpText.PlainHeader: lines with octets outside ASCII count as undecodable; text in UTF-8, and numerals of more than 4300 digits, which newer Pythons refuse, are not modelled.
- HttpFraming.ReadsCompleteMessages: messages framed by Content-Length, as the code frames them; chunked bodies are not, and an empty line before a request line is answered as a request.
- OomSender.FinishedAreWhole: one link is modelled; with several, the byte total is one for all of them and only printed.
- Clogger.StepKeeps: outcomes come for finished deliveries only, and a timer set is a timer that expires once.
- ChunkedSender.ChunksMakeMessages: outcomes come for finished deliveries only; presettled and aborted deliveries do not occur in the code.
- LinkScale.OctetsConserved: the receiver is one end of a point-to-point link, a terminal outcome comes only after it has accepted, and no receive fails; LinkScaleClients.Receiver.OnDelivery has the branch for one that does.
- LinkLoader.StopsAfterAllCycles: a freed link has no more events.
- Delivery tags, beyond the counters the senders take them from.
- Message encoding and decoding by Proton: an encoded message is any non-empty string of octets where the program does not write it out itself.
- Command lines, signals, printing, real clocks, rates in floating point and the square root itself.
- Teardown after a client has decided to stop.
- latency-receiver.c's handler, which is receiver.c's with errors that end the program; its accumulators and variance are in Statistics.
- multi-flow-sender.c, throughput programs, server.c, session-loader.c, the scale and perf programs, the drain and spout clients and oom-receiver.c: the same loops in easier form, or plain socket pumping.
