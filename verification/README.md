# Verified model of the peer transport, fault placement and measurement logic

This project models, in Dafny, the parts of the repository that move messages between committee
members and the arithmetic around them, and proves what they promise.

**The reliable transport.** `Transport.dfy` is the connection actor as a transition system: three
delivery classes (durable with reply targets, durable detached, volatile with a key), a channel, two
coalescers with flush deadlines, a retry buffer, an optional delay queue, a queue of written frames
awaiting acknowledgement, and the requeue-and-drop procedure at the end of a session. Its events are
submission, arrival, the two flushes, a write that succeeds or fails, release from the delay queue, an
acknowledgement or read error, a connect that succeeds or fails, arrival while backing off, the closing
of a reply target and the passing of time. Writes, reads, connects and time are nondeterministic.
`Connection.dfy` is the same actor as an object with mutable fields and loops; each method is proved to
perform exactly the corresponding step. Whole-run theorems follow: `Conservation.dfy` (nothing durable
is lost, everything is in exactly one place), `Drops.dfy` (every lost volatile message is accounted
for), `Order.dfy` and `Reconnect.dfy` (order inside a session and across sessions), `Timers.dfy`
(deadlines and latency), `Sizes.dfy` and `FrameSizes.dfy` (frame sizes), `LinkLog.dfy` (link reports).

**The other half of the link.** `Codec.dfy` and `AuthCodec.dfy` model length-delimited frames with a
counter-bound tag, `ChannelAuth.dfy` the handshake, `Bundle.dfy` and `Coalescer.dfy` bundling,
`Receiver.dfy` the read loop. `Link.dfy` composes sender, codec, network and receiver. On an
authenticated link the network may deliver arbitrary bytes, subject to one hypothesis: a valid tag of
the session for a direction, counter and payload occurs only where the peer produced it. On a plain link
it delivers a prefix of what was written. Either way a frame whose write reported failure may still
arrive. `Delivery.dfy` states what the handler is given and how that relates to what is acknowledged.
`SimpleSender.dfy` is the best-effort variant, built on the same coalescer object.

**Committee arithmetic.** `Committee.dfy` has the stake thresholds with their 32-bit arithmetic,
`Modular.dfy` the greatest common divisor, `Placement.dfy`, `Strides.dfy` and `Groups.dfy` the maps that
decide who receives what under fault injection, with 64-bit arithmetic and with the validation that
admits a configuration.

**Measurement.** `Histogram.dfy` relates the counted map to the sorted list it stands for, `Backlog.dfy`
and `Window.dfy` relate the backlog sweeps to time-indexed definitions, and `Pacing.dfy` covers the
client's rate accumulator.

Conventions. A message carries an identifier, its bytes and its class; an entry additionally records
the messages it was built from, and every theorem about entries shows that its bytes, reply targets and
key are the ones computed from those messages. Hashes and tags are function parameters. Time is a
natural number. `Seqs.dfy` and `Words.dfy` hold sequence filters and the byte encodings of integers.

Where the code and its documentation differ, the model follows the code:

- The comment on the quorum threshold speaks of 2f + 1; the code computes N - f, and the two agree only
  when N = 3f + 1 (`Committee.QuorumIsTwoFaultsPlusOne`).
- The comment on the leader-relay groups says they expose every correct leader to some faulty lane; they
  do exactly when f (f - 1) >= n - f, which fails for instance with ten members
  (`Groups.AcceptedRelayCoverage`, `Groups.TenAreNotCovered`).
- Validation admits every coprime stride; with 64-bit overflow some of them place inexactly unless the
  committee size is a power of two (`Strides.EveryStrideIsExact`, `Placement.WrappedStrideRepeats`).
- The accounting error of the windowed backlog is meant to be zero; it is not for an attack shorter than
  its guards, whose window ends before it starts (`Window.BooksBalance`, `Window.ShortAttackMiscounts`).
- The size cap of a coalescer bounds a bundle only if messages are not empty
  (`FrameSizes.BoundHoldsExactly`, `FrameSizes.EmptyBundleGrows`).
- An acknowledgement says that a frame was received, not that its messages were handled
  (`Delivery.AcknowledgedIsHandled`, `Delivery.AcknowledgedButRefused`).

## Model

| member | source | states |
|---|---|---|
| `Conservation.MessagesAreConserved` | network/src/reliable_sender.rs:742-1073 | over every run of any length, with any failed writes, lost sessions and failed connects: the copies of a message handed to the sender equal the copies held in the channel, coalescers, buffer, delay queue and pending queue plus those acknowledged, cancelled or lost; only volatile messages are ever lost, and a discarded entry has reply targets that are all closed, so detached messages are never discarded |
| `Order.ExactlyOnePlace` | network/src/reliable_sender.rs:742-1073 | in every run each message handed over is in exactly one place |
| `Conservation.DurableIsNeverLost` | network/src/reliable_sender.rs:571-573 | a durable or detached message that is not acknowledged and whose reply target is open is still held by some container |
| `Drops.VolatileLossIsAccounted` | network/src/reliable_sender.rs:717-725 | over every run with a drop map, the peer's entry is the minimum of its starting value and the keys of all volatile messages lost (shed, arrived while disconnected, unacknowledged at session end, also inside bundles); every volatile message that is neither held nor acknowledged is among them; between sessions the buffer holds no volatile entry; without a map the entry never moves |
| `Drops.MinKeyIsLeast` | network/src/reliable_sender.rs:583-585 | the merged key of a list of messages is attained by one of its volatile messages and is a lower bound of all of them |
| `Drops.LeastKeyIsMinKey` | network/src/reliable_sender.rs:931-957 | the keys recorded on entries are the least keys of the messages inside them |
| `Link.AcknowledgedMeansReceived` | network/src/reliable_sender.rs:912-927 | end to end, composed with the codec, an arbitrary network and the read loop: whenever a message counts as acknowledged, the receiver has taken a frame that decodes to a bundle containing it; the pending queue is the written frames minus the acknowledged prefix; a real acknowledgement never meets an empty pending queue; a frame whose write failed may still have reached the peer |
| `Link.AckMeetsItsFrame` | network/src/receiver.rs:178-223 | the frame that a genuine acknowledgement settles is the frame the receiver took at the same position |
| `Link.AcceptedIsPrefix` | network/src/codec.rs:178-212 | on either kind of link, whatever chunks arrive, an end accepts a prefix of what the other end wrote in the session |
| `Link.EntryReadsBack` | network/src/batch.rs:55-81 | the frame of a written entry decodes to exactly the messages the entry stands for |
| `Delivery.HandlerSeesWhatWasWritten` | network/src/receiver.rs:178-231 | during every session of every run, the handler has been given, in order and once each, the messages of the frames the read loop took: all of them while it still runs, and everything before the last frame and part of that frame once the handler has refused one |
| `Delivery.AcknowledgedIsHandled` | network/src/receiver.rs:194-223 | the read loop acknowledges before it dispatches, so acknowledged frames are not always handled: during every session of every run the handler has been given every message of the acknowledged frames if and only if it has refused nothing, or what it refused came in a frame that is not acknowledged yet |
| `Delivery.AcknowledgedButRefused` | network/src/receiver.rs:194-223 | a concrete legal run in which the sender counts a message as acknowledged that the handler refused |
| `Order.SessionWritesInArrivalOrder` | network/src/reliable_sender.rs:816-864 | in every run and for each delivery class: what the session has written, then what is delayed, buffered and coalescing, is what the session found in the buffer followed by what arrived, in that order, without cancelled messages, and without repetition |
| `Reconnect.OrderHoldsExactly` | network/src/reliable_sender.rs:931-957 | in every mode, with any batching and latency, and for durable, detached or (unbatched) all retried messages: acknowledged, pending, delayed, buffered, coalescing and queued messages are in submission order after every event of a run if and only if every lost session is lost without overtaking |
| `Reconnect.ReconnectsKeepSubmissionOrder` | network/src/reliable_sender.rs:931-938 | unbatched and without latency no loss overtakes: for any pattern of write failures and lost sessions, acknowledged, pending, buffered and queued durable and detached messages are the submission history without cancelled ones, in submission order |
| `Reconnect.LostSessionOrder` | network/src/reliable_sender.rs:1040-1071 | one lost session keeps a stream in submission order if and only if the coalescer is empty or nothing else is queued, and nothing is still delayed or nothing is in front of it; a released entry whose write failed goes in front |
| `Reconnect.BatchingCanReorder` | network/src/reliable_sender.rs:939-945 | a concrete legal run in which an unacknowledged first message is requeued behind a second one that was still coalescing |
| `Timers.TimersArePunctual` | network/src/reliable_sender.rs:842-1020 | in every run: a flush timer is set exactly while its coalescer is non-empty and equals the oldest message's arrival plus the maximum delay; the coalescer is below the cap; release times never decrease along the delay queue; nothing is written before the latency has passed since it reached the connection |
| `FrameSizes.EntriesFitFrames` | network/src/reliable_sender.rs:842-863 | over every run with non-empty messages of at most M bytes and a cap of B bytes, every entry is at most 5B + 3 + M bytes, so within the frame limit no write is refused for its size |
| `FrameSizes.EntriesAreBounded` | network/src/reliable_sender.rs:842-863 | over every run, empty messages included, an entry is at most 5B + 3 + M bytes and four more for each empty message in it |
| `FrameSizes.BoundIsReached` | network/src/reliable_sender.rs:842-863 | the bound is reached by a legal run for every cap and every M >= 1 |
| `FrameSizes.BoundHoldsExactly` | network/src/reliable_sender.rs:842-863 | for message sizes from `least` to M the bound holds over all runs if and only if `least` is at least one, or batching is off, or the cap is zero |
| `FrameSizes.EmptyBundleGrows` | network/src/batch.rs:110-112 | for every k a legal run from the start puts k empty messages into one entry of 4 + 4k bytes, so a positive cap does not bound a bundle of empty messages |
| `Sizes.CappedBundleSize` | network/src/batch.rs:102-112 | a bundle whose bytes before the last item are below the cap is at most 5B + 3 + M bytes and four more for each empty item |
| `LinkLog.LinkReportsAlternate` | network/src/reliable_sender.rs:728-739 | over every run the link reports alternate, and the last one is up exactly while a session is up |
| `Connection.DirtyMap.Merge` | network/src/reliable_sender.rs:717-725 | the peer's entry becomes the smaller of the old and the new key; other peers are untouched |
| `Connection.Connection.constructor` | network/src/reliable_sender.rs:742-745 | a new connection is the initial state of the transition system |
| `Connection.Connection.ReportDropped` | network/src/reliable_sender.rs:717-725 | the object's drop entry follows the specification step and nothing else changes |
| `Connection.Connection.ReportLink` | network/src/reliable_sender.rs:728-739 | only transitions are reported |
| `Connection.Connection.RetainOpen` | network/src/reliable_sender.rs:780-793 | the in-place filter keeps exactly the entries with an open reply target, in order, and accounts for the others |
| `Connection.Connection.WaitArrive` | network/src/reliable_sender.rs:780-793 | the back-off branch performs the specification's step for a message that arrives while disconnected |
| `Connection.Connection.FlushDurables` | network/src/reliable_sender.rs:899-903 | a durable flush performs the specification's step |
| `Connection.Connection.FlushVolatiles` | network/src/reliable_sender.rs:904-908 | a volatile flush performs the specification's step, labelling the bundle with its least key |
| `Connection.Connection.CoalesceDurable` | network/src/reliable_sender.rs:842-850 | push, arm and size flush of the durable coalescer perform the specification's step |
| `Connection.Connection.CoalesceVolatile` | network/src/reliable_sender.rs:851-861 | push, arm and size flush of the volatile coalescer perform the specification's step |
| `Connection.Connection.OnArrival` | network/src/reliable_sender.rs:817-864 | the router performs the specification's step for every class and both batching modes |
| `Connection.Connection.Arrive` | network/src/reliable_sender.rs:909-911 | taking one message from the channel performs the specification's step |
| `Connection.Connection.Connected` | network/src/reliable_sender.rs:747-760 | a successful connect performs the specification's step |
| `Connection.Connection.ConnectFailed` | network/src/reliable_sender.rs:765-767 | a failed connect performs the specification's step |
| `Connection.Connection.PumpOne` | network/src/reliable_sender.rs:877-893 | one turn of the buffer loop performs the specification's step, on write success and failure |
| `Connection.Connection.FlushBuffer` | network/src/reliable_sender.rs:877-893 | the whole buffer loop is a legal run of buffer steps that ends with an empty buffer or a lost session |
| `Connection.PumpShrinks` | network/src/reliable_sender.rs:877-893 | each turn of the buffer loop takes one entry or ends the session |
| `Connection.Connection.ReleaseOne` | network/src/reliable_sender.rs:991-1007 | the delay-queue arm performs the specification's step |
| `Connection.Connection.ReadOne` | network/src/reliable_sender.rs:912-927 | the reader arm performs the specification's step for acknowledgements, errors and end of stream |
| `Connection.RequeueAll` | network/src/reliable_sender.rs:931-938 | popping a queue from the back onto the front of the buffer yields its unkeyed entries, in order, in front of the buffer, and merges the keys of the others |
| `Connection.RetainUnkeyed` | network/src/reliable_sender.rs:950-956 | the final filter keeps the unkeyed entries in order and merges the keys of the dropped ones |
| `Connection.LeastOf` | network/src/reliable_sender.rs:946-949 | the fold over drained volatile messages returns their least key |
| `Connection.Connection.Requeue` | network/src/reliable_sender.rs:1040-1071 | the requeue loops leave in the buffer the coalesced durables followed by the unkeyed delayed, pending and buffered entries, and return the least key of everything dropped |
| `Connection.Connection.EndSession` | network/src/reliable_sender.rs:931-957 | session end performs the specification's step: requeue, drop, account, report |
| `Connection.Connection.GiveUp` | network/src/reliable_sender.rs:887-891 | a failed write puts the entry back in front of the buffer and ends the session |
| `Connection.RequeuedBuffer` | network/src/reliable_sender.rs:931-957 | dropping keyed entries while requeueing and once more at the end leaves the same buffer as one filter over delayed, pending and buffered entries |
| `Connection.RequeuedKey` | network/src/reliable_sender.rs:931-957 | the keys merged along the way are the least key of everything dropped |
| `Bundle.DecodesExactly` | network/src/batch.rs:55-81 | decoding yields a list if and only if its sizes fit 32 bits and the input starts with the encoding of that list |
| `Bundle.RoundTrip` | network/src/batch.rs:34-81 | decode(encode(ms) followed by any bytes) is ms if and only if count and lengths fit 32 bits |
| `Bundle.NoTwoReadings` | network/src/batch.rs:34-43 | no input starts with the encodings of two different lists that fit |
| `Bundle.CountCheckIsHarmless` | network/src/batch.rs:55-65 | the early count check rejects only inputs the item loop would reject |
| `Bundle.ShortBundleFits` | network/src/batch.rs:34-43 | a bundle shorter than 2^32 bytes is not affected by the casts to u32 |
| `Bundle.EncodeBundle` | network/src/batch.rs:34-43 | the buffer loop writes the encoding |
| `Bundle.DecodeBundle` | network/src/batch.rs:55-81 | the cursor loop reads only inside the input and agrees with the recursive decoder, errors included |
| `Coalescer.Coalescer.Push` | network/src/batch.rs:102-107 | appends the item, keeps the byte count equal to the sum of item lengths, and reports exactly the empty-to-non-empty transition |
| `Coalescer.Coalescer.OverCap` | network/src/batch.rs:110-112 | true exactly when the item lengths sum to at least the cap |
| `Coalescer.Coalescer.Flush` | network/src/batch.rs:115-121 | returns the bundle of the items and their extras in order, and empties the accumulator |
| `Coalescer.Coalescer.Drain` | network/src/batch.rs:124-127 | hands back the items unencoded and empties the accumulator |
| `Codec.AcceptsOnlyInOrder` | network/src/codec.rs:178-212 | over an arbitrary byte stream in which a valid tag for (direction, counter, payload) exists only where the peer produced it, the payloads accepted before the first error are the peer's from the expected counter on: no reorder, replay or gap |
| `Codec.DecodeResumes` | network/src/codec.rs:178-212 | decoding can stop after any byte: what was decoded stays and the rest decodes from the leftover; a failure is final |
| `Codec.ChunksDoNotMatter` | network/src/codec.rs:178-212 | any cutting of a stream into chunks decodes to the same payloads and state |
| `Codec.ChunkedRoundTrip` | network/src/codec.rs:139-212 | payloads within the limit, encoded by one end and cut into any chunks, decode at the other end to exactly those payloads with nothing left over |
| `Codec.PartialStream` | network/src/codec.rs:178-212 | a part of a genuine stream decodes to a prefix of the payloads and never fails |
| `Codec.AcceptedWithinLimit` | network/src/codec.rs:73-86 | every accepted payload is within the payload limit, with and without a tag |
| `Codec.FrameDecodes` | network/src/codec.rs:139-171 | one encoded frame decodes to its payload, leaves exactly what followed it, and both counters stay paired |
| `AuthCodec.TagsMatch` | network/src/codec.rs:125-134 | the comparison without early exit is equality |
| `AuthCodec.AuthCodec.Encode` | network/src/codec.rs:139-171 | refuses exactly the payloads over the limit and then changes nothing; otherwise appends the frame and advances the send counter |
| `AuthCodec.AuthCodec.Decode` | network/src/codec.rs:178-212 | takes one frame off the buffer exactly as the functional decoder, advancing the receive counter only on acceptance |
| `AuthCodec.AuthCodec.DecodeAvailable` | network/src/codec.rs:178-212 | the read loop yields exactly what the functional decoder yields from all buffered bytes |
| `ChannelAuth.HelloRoundTrip` | network/src/channel_auth.rs:189-202 | a hello parses back to its index and salt |
| `ChannelAuth.HandshakeAgrees` | network/src/channel_auth.rs:128-179 | after unmodified hellos each side succeeds exactly when its own checks allow it, and then both hold the same session key and the listener names the dialer |
| `ChannelAuth.AuthenticatedRoundTrip` | network/src/channel_auth.rs:86-180 | handshake and stream together: with keys from the handshake and opposite directions, any payloads within the limit sent by either end in any chunks arrive as exactly that list |
| `Receiver.Connection.Serve` | network/src/receiver.rs:178-223 | one acknowledgement per frame before decoding, then dispatch up to the first refusal; an undecodable bundle ends the loop |
| `SimpleSender.Sender.PeerReadsInOrder` | network/src/simple_sender.rs:347-473 | at every point of every run: the messages the peer decodes from the written frames, followed by those of a failed frame, of the delay queue and of the coalescer, are exactly everything received since the connection was made |
| `SimpleSender.FramesReadBack` | network/src/simple_sender.rs:347-473 | written frames decode to the groups of messages they were built from |
| `SimpleSender.Sender.constructor` | network/src/simple_sender.rs:347-358 | a sender starts unconnected with nothing received |
| `SimpleSender.Sender.DrainUntil` | network/src/simple_sender.rs:273-290 | everything that arrives before the retry timer fires is discarded, in order, and nothing of it is kept |
| `SimpleSender.Sender.FramesFit` | network/src/simple_sender.rs:371-385 | with non-empty messages of at most M bytes every frame, written, scheduled or failed, is at most 5B + 3 + M bytes, so within the frame limit none is refused for its size |
| `SimpleSender.Sender.ReceiveBatched` | network/src/simple_sender.rs:447-456 | a message joins the accumulator, arms the deadline exactly when it is the first, and the bundle leaves exactly when the cap is reached; all invariants are kept |
| `SimpleSender.Sender.ReceiveSingle` | network/src/simple_sender.rs:457-459 | without batching a message is written or scheduled as its own frame |
| `SimpleSender.Sender.DeadlineDue` | network/src/simple_sender.rs:361-370 | at the deadline the bundle is written or scheduled and the accumulator is empty |
| `SimpleSender.Sender.ReleaseDue` | network/src/simple_sender.rs:433-441 | the front frame is written no earlier than its release instant; a failed write ends the connection and loses that frame only |
| `SimpleSender.Sender.Reply` | network/src/simple_sender.rs:395-405 | replies are ignored; anything else ends the connection |
| `Committee.QuorumIsTotalLessFaults` | config/src/lib.rs:1621-1624 | for every stake assignment the quorum is N - f, with f = (N-1)/3, if and only if 1 <= N < 2^31 |
| `Committee.ValidityIsOneMoreThanFaults` | config/src/lib.rs:1627-1630 | the validity threshold is f + 1 if and only if 1 <= N < 2^32 |
| `Committee.QuorumIsTwoFaultsPlusOne` | config/src/lib.rs:1621-1624 | the documented 2f + 1 is the quorum exactly when N = 3f + 1 |
| `Committee.QuorumsIntersect` | config/src/lib.rs:1621-1630 | any two sets of quorum stake share at least validity stake |
| `Committee.QuorumSurvivesFaults` | config/src/lib.rs:1621-1624 | removing any set of at most f stake leaves a quorum |
| `Committee.ValidityReachesACorrectOne` | config/src/lib.rs:1627-1630 | a set of validity stake has stake outside every set of at most f stake |
| `Modular.GcdLoop` | config/src/lib.rs:1969-1974 | the loop returns the recursive greatest common divisor |
| `Modular.GcdDividesBoth` | config/src/lib.rs:1969-1974 | the result divides both arguments |
| `Modular.GcdIsGreatest` | config/src/lib.rs:1969-1974 | every common divisor divides the result |
| `Modular.StrideIsInjective` | config/src/lib.rs:1849-1853 | steps of a stride coprime to n reach different slots until they have gone all the way round |
| `Placement.StaggeredIsExact` | config/src/lib.rs:1847-1854 | for every committee size, sender, width and coprime stride the destinations are exactly `width` distinct members without the sender, unless 64-bit overflow interferes (n + width * stride >= 2^64 and n does not divide 2^64) |
| `Placement.AcceptedStaggerIsExact` | config/src/lib.rs:1210-1232 | the same whenever validation accepts the configuration |
| `Placement.WrappedStrideRepeats` | config/src/lib.rs:1210-1232 | a configuration of three members that validation accepts and whose overflowing stride withholds from one member instead of two |
| `Strides.EveryStrideIsExact` | config/src/lib.rs:1847-1854 | every coprime 64-bit stride is exact for every sender and width if and only if the committee size divides 2^64 |
| `Strides.BadStride` | config/src/lib.rs:1849-1853 | for every other committee size there is a coprime stride that returns to the sender before going round |
| `Groups.AcceptedRelayStaysBelowValidity` | config/src/lib.rs:1934-1967 | whenever validation accepts the leader-relay profile, a publisher's lane goes to exactly f - 1 distinct non-publishers, one holder short of validity stake with the author |
| `Groups.RelayCoverage` | config/src/lib.rs:1934-1967 | the groups together reach every non-publisher if and only if f (f - 1) >= n - f |
| `Groups.AcceptedRelayCoverage` | config/src/lib.rs:1934-1967 | whenever validation accepts the profile, every correct member receives some faulty lane directly exactly when f (f - 1) >= n - f |
| `Groups.TenAreNotCovered` | config/src/lib.rs:1934-1967 | a committee of ten whose accepted configuration leaves a correct member without any faulty lane |
| `Groups.FourFaultsSuffice` | config/src/lib.rs:1934-1967 | every committee with f >= 4 is covered |
| `Groups.DirectIsExact` | config/src/lib.rs:1868-1906 | a mixed-open direct group is exactly f distinct correct members |
| `Groups.MixedOpenPartitions` | config/src/lib.rs:1868-1924 | for every n and exactly f publishers, withheld members, direct group and publisher partition the committee |
| `Groups.AcceptedMixedOpenPartitions` | config/src/lib.rs:1868-1924 | whenever validation accepts the profile: the partition, f direct correct members, n - 2f withheld correct members, and every other publisher withheld |
| `Histogram.StandsForSortedList` | metrics/src/stat.rs:68-75 | for every sequence of weighted observations the counted map expands to the sorted list of exactly those observations, and the count is its length |
| `Histogram.SumIsExact` | metrics/src/stat.rs:57-61 | the running sum is the true sum if and only if the true sum is below 2^64 |
| `Histogram.IndexIsExact` | metrics/src/stat.rs:140-143 | in 64-bit arithmetic the index is count * p / 1000 if and only if the product is below 2^64 |
| `Histogram.IndexInside` | metrics/src/stat.rs:140-143 | a per-mille below 1000 is always inside a non-empty histogram; while the product fits 64 bits, 1000 and more are outside |
| `Histogram.PreciseHistogram.constructor` | metrics/src/stat.rs:68-75 | a new histogram stands for the empty list |
| `Histogram.PreciseHistogram.ObserveN` | metrics/src/stat.rs:68-75 | updates points, sum and count in place as the specification's observation, which ignores zero counts |
| `Histogram.PreciseHistogram.Find` | metrics/src/stat.rs:102-109 | the scan with a running count returns the element of the sorted expanded list at the target index, or nothing past its end |
| `Histogram.PreciseHistogram.Percentiles` | metrics/src/stat.rs:94-112 | each result is the element of the sorted list at its index; nothing is returned exactly for an empty histogram; it panics exactly when the histogram is non-empty and some index is past the end, so never for per-milles below 1000 |
| `Histogram.PreciseHistogram.Max` | metrics/src/stat.rs:119-121 | the greatest observation, or nothing exactly when there is none |
| `Histogram.PreciseHistogram.Clear` | metrics/src/stat.rs:134-138 | back to the empty list |
| `Backlog.OpenBacklog` | docker-bench/recovery_report.py:75-97 | the peak is the greatest number of views open at any one instant (opened by it and not sealed before it), attained unless zero, independent of input order; the final value counts the views opened and never sealed up to the cutoff |
| `Backlog.Sweep` | docker-bench/recovery_report.py:86-97 | after every prefix the outstanding set is opened minus sealed, and the peak is the maximum over prefixes |
| `Backlog.PeakIsMostOpen` | docker-bench/recovery_report.py:84-97 | with openings sorted before sealings of the same instant, the maximum over prefixes is the maximum over instants |
| `Backlog.GaugeStep` | docker-bench/recovery_report.py:89-96 | one sweep step keeps outstanding equal to opened minus sealed, also for views opened after their seal |
| `Backlog.Collect` | docker-bench/recovery_report.py:76-83 | the collecting loop builds the specified timeline |
| `Backlog.ItemsMember` | docker-bench/recovery_report.py:76-83 | the timeline holds exactly the counted events up to the cutoff |
| `Timeline.SortIsSorted` | docker-bench/recovery_report.py:84-85 | the timeline is in (time, openings first, view) order |
| `Timeline.SortCount` | docker-bench/recovery_report.py:84-85 | sorting keeps every item as often as before |
| `Window.ErrorCountsInversions` | docker-bench/recovery_report.py:206-245 | in a proper window the accounting error is the number of views served in it but arriving after it, minus the number arriving in it but served before it |
| `Window.InvertedWindowError` | docker-bench/recovery_report.py:268-270 | the exact error when the window ends before it starts |
| `Window.BooksBalance` | docker-bench/recovery_report.py:268-270 | when no seal precedes its arrival, the error is zero if and only if the window is proper or as many views arrive as are served in the inverted stretch |
| `Window.WindowIsProper` | docker-bench/recovery_report.py:199-204 | the window is proper if and only if the attack is at least twice the guard and the guard fits after the first third |
| `Window.ShortAttackMiscounts` | docker-bench/recovery_report.py:199-204 | a short attack with one causal view for which the error is not zero |
| `Window.RowsAreCausal` | docker-bench/recovery_report.py:206-214 | if each node seals a view after opening it, the latest seal is not before the latest opening |
| `Window.Sustained` | docker-bench/recovery_report.py:231-245 | the sweep ends at starting backlog plus arrivals less services; for causal views its peak is the greatest number of views present at one instant of the window or the starting backlog, and attained |
| `Window.PeakIsMostPresent` | docker-bench/recovery_report.py:231-245 | the maximum over prefixes of the sorted movements is the maximum over the window's instants |
| `Window.SweepLevels` | docker-bench/recovery_report.py:231-245 | the loop's final value and maximum over prefixes |
| `Pacing.CarryIsTheRemainder` | node/src/client.rs:130-135 | after any number of ticks 20 * sent + carry is ticks * rate, with carry below 20 |
| `Pacing.StretchIsProportional` | node/src/client.rs:130-135 | any stretch of ticks sends its share of the rate, less than one transaction off |
| `Pacing.SecondIsExact` | node/src/client.rs:130-135 | any 20 consecutive ticks send exactly the rate |
| `Pacing.WholeBatch` | node/src/client.rs:137-151 | a non-empty counted tick contains exactly one sample, numbered by the tick, an uncounted one none, and the other transactions carry the next identifiers in order |
| `Pacing.RunSendsSamples` | node/src/client.rs:126-178 | over any number of ticks the samples sent are one for each counted, non-empty tick |
| `Pacing.SamplesNumberTicks` | node/src/client.rs:142-146 | those samples are in increasing order and number exactly the counted, non-empty ticks |
| `Pacing.RunSendsIdentifiers` | node/src/client.rs:126-178 | over any number of ticks the background identifiers follow each other from tick to tick without a gap or a repetition, modulo 2^64 |
| `Pacing.RunFollowsRate` | node/src/client.rs:126-178 | the run sends as many transactions as the rate prescribes |
| `Pacing.Client.constructor` | node/src/client.rs:114-118 | a client starts with no carry and nothing sent |
| `Pacing.Client.Tick` | node/src/client.rs:126-179 | everything sent after a tick is the history of the run at its rate, with carry and identifier in step; when the connection fails, a prefix of the tick's batch was sent |
| `Pacing.Client.Pace` | node/src/client.rs:130-135 | the accumulator yields the burst of the tick and keeps the remainder |
| `Pacing.Client.Send` | node/src/client.rs:137-173 | the inner loop sends the batch in order and stops at the first failure |

## Left out

- Consensus, worker and store logic are not part of this model.
- Sockets, tasks and clocks appear only as nondeterministic events over byte streams and a time that never runs backwards.
- Hash, tag and signature internals are function parameters; nothing is claimed about secrecy or about sessions with different keys.
- The internals of the length-delimited codec, beyond the four-byte prefix and the frame limit, are not modelled.
- Retry backoff, reconnect notifications and the `had_failure` flag: connects happen at any time, and who is told about them is not modelled.
- The consumer that clears the drop map is not modelled: the entry is followed from its value when the connection starts.
- Delivery of link and reconnect notifications is best effort in the source; the model logs the reports the actor makes.
- Metrics, logging, high-watermarks and shutdown are not modelled.
- A receiver that keeps processing frames of an old session after the sender has opened a new one is not modelled; what it took while the session was current stays recorded.
- Link.AcknowledgedMeansReceived: assumes, as the protocol does, a peer that acknowledges frames and writes nothing else on the connection.
- AuthCodec.AuthCodec.Encode: the frame counters are unbounded, so their wrap after 2^64 frames is not modelled.
- Histogram.PreciseHistogram.ObserveN: models integer observations; counts are unbounded, and durations, which clamp instead of wrapping, are not modelled.
- Histogram.PreciseHistogram.Percentiles: a debug build checks p < 1000 and the product for overflow before anything else; the model is the release build.
- Placement.StaggeredIsExact: for one given stride that overflows, exactness is not decided; the condition is exact over all strides of a committee size (Strides.EveryStrideIsExact). Overflow wraps as in a release build.
- Placement.AcceptedStaggerIsExact: carries the same overflow condition; validation is modelled as a predicate, without the order and text of its error messages.
- Window.Sustained: the sampled series, rates and slope fit use floating point and are not modelled; times beyond `sys.maxsize` are excluded.
- Pacing.Client.Tick: payload filling, timestamps and the wait for the activation time are not modelled; the counter and the accumulator are unbounded.
- Latency tables, averages and standard deviations are floating point and not modelled.
- Command line, key files, configuration import and export, benchmark drivers, plotting, the public-key index codec and the peer session counts are not modelled.
