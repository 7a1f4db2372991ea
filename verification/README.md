# A verified model of Hysteria's stateful core

This project models the parts of Hysteria whose behaviour is hardest to see from the code alone, and proves
what they keep over whole runs. `dafny verify dfyconfig.toml` checks all of it.

- **UDP relay** (`UdpCodec.dfy`, `Frag.dfy`): the wire form of relayed messages, splitting, and the reassembler
  that rewrites the last fragment object into the complete message.
- **Gecko obfuscation** (`GeckoFrame.dfy`, `Gecko.dfy`, `GeckoRun.dfy`): bit-packed frames, the capped reassembly
  table with its redundant counts, and runs of frames, evictions and expiry sweeps.
- **BBR** (`RingBuffer.dfy`, `PacketQueue.dfy`, `WindowedFilter.dfy`, `AckPoints.dfy`, `BandwidthSampler.dfy`,
  `A0Queries.dfy`, `SampleRates.dfy`, `SamplerHistory.dfy`, `BbrSender.dfy`, `BbrRuns.dfy`, `BbrWindows.dfy`,
  `BbrModel.dfy`, `BbrEstimates.dfy`): a growing ring under a sparse queue under the sampler, the three-slot maximum
  filter, and the sender's estimates, modes, recovery and windows.
- **Pacer and Brutal** (`Pacer.dfy`, `Brutal.dfy`): the token bucket, and the five-slot table against a log of events.
- **Server** (`UdpSessions.dfy`, `UdpService.dfy`, `ServerLifecycle.dfy`, `ServerService.dfy`): the session manager and
  the shutdown protocol as atomic steps that interleave in any order, what they keep, and what they can always do.
- **Access control** (`Addresses.dfy`, `Acl.dfy`, `GeoIP.dfy`, `Geosite.dfy`): the result cache, the bisection over
  networks and the domain index, each against the plain scan it replaces.
- **Printers and parsers** (`UrlEscape.dfy`, `UrlQuery.dfy`, `PortUnion.dfy`, `PortText.dfy`): percent-encoding,
  query strings, port unions.
- `Basics.dfy` and `Slots.dfy` hold shared types and lemmas.

Code that changes state is modelled by classes whose methods are proved against functions on values; the properties
are lemmas about these functions, over single steps and over whole runs. Where the code does not keep what one would
expect of it, the model follows the code, and lemmas say exactly when the expectation holds or show an input on which
it fails, in most cases both:

- More than 255 fragments overrun the list of fragments (`Frag.SplitPanicsIff`), which a long address can cause
  (`Frag.LongAddressOverrunsList`).
- After a query for a lower value than before, trimming the A0 candidates can change the answer
  (`AckPoints.FallingQueriesDiffer`); with acknowledgements in rising packet order it changes no sample
  (`A0Queries.TrimmingIsInvisible`).
- A sample can make the filter's second estimate worse than another sample of the same time
  (`WindowedFilters.CoversAlwaysIff`, `WindowedFilters.SlippingStream`).
- A port range that starts at zero matches every port (`Acl.PortRangeIsExact`).
- Bisection can miss an address that belongs to nested networks (`GeoIP.NestedNetworkIsMissed`); which addresses it
  answers rightly is said by `GeoIP.AnswerIsRightIff`.
- Redirecting an inverted port range that starts at 65535 wraps around (`PortUnions.RedirectedLosesFirstPort`).
- A key without values does not survive printing and parsing (`UrlQuery.TableRoundTrip`).
- The documentation of `ParseQuery` promises the first error; a semicolon error replaces an earlier one
  (`UrlQuery.FirstErrorIsReportedIff`).

Integers are unbounded where the code does not rely on their width; the `uint8` fragment counters, the `uint16` ports
and fragment lengths, and division that truncates or rounds up are written out. Floating-point gains and rates are reals
or arbitrary non-negative targets. Times are parameters, in nanoseconds; random draws, padding bytes, the outcome of
dialling, evictions and the interleaving of goroutines are arbitrary.

## Model

| member | source | states |
|---|---|---|
| `Frag.EndToEnd` | core/internal/frag/frag.go:7-80 | For every message with an address of 1 to 2048 bytes that is split into at least two fragments: each fragment fits `maxSize` and survives the wire; delivering the fragments in any order, with any omissions and repetitions, to a reassembler that does not already hold this packet ID and count returns nothing except at the delivery that completes the set, which returns the original data and addressing, once |
| `Frag.FragUDPMessage` | core/internal/frag/frag.go:7-34 | The splitting loop, with its `uint8` fragment count and counter, returns exactly the specified list, or runs past the end of the list |
| `Frag.SplitPanicsIff` | core/internal/frag/frag.go:16-32 | Splitting runs past the end of its list if and only if the message does not fit and needs more than 255 fragments |
| `Frag.LongAddressOverrunsList` | core/internal/frag/frag.go:16-32 | An address of 1180 bytes with 4096 bytes of data in datagrams of 1200 needs 410 pieces, and overruns the list |
| `Frag.FillFragments` | core/internal/frag/frag.go:20-32 | The loop stays within the list if and only if the pieces fit its wrapped length, and then the list holds exactly the fragments of the pieces |
| `Frag.SplitFits` | core/internal/frag/frag.go:7-34 | Every fragment is at most `maxSize` long; the fragments carry the addressing unchanged, are numbered 0 to count-1, hold non-empty payloads, and the payloads joined in order are the original data |
| `Frag.ChunksCoverData` | core/internal/frag/frag.go:16-31 | The pieces joined are the data, and their number is the length divided by the room, rounded up |
| `Frag.Defragger.constructor` | core/internal/frag/frag.go:40-45 | A new reassembler holds nothing |
| `Frag.Defragger.Feed` | core/internal/frag/frag.go:47-80 | Whatever message object is fed, the counters keep agreeing with the slots; the returned object is the fed one, rewritten to the complete message exactly when the last missing fragment arrives; for a fresh object the new state is the specified one |
| `Frag.Defragger.Store` | core/internal/frag/frag.go:62-65 | A fragment stored in a free slot raises the count by one and the size by its payload, and both still agree with the slots |
| `Frag.Defragger.Restart` | core/internal/frag/frag.go:55-61 | A fragment of another message forgets the unfinished one and starts with exactly this fragment |
| `Frag.Defragger.Complete` | core/internal/frag/frag.go:66-76 | The last fragment object becomes the complete message, and so does the slot that holds it |
| `Frag.Defragger.Assemble` | core/internal/frag/frag.go:68-72 | The buffer of the accumulated size is filled exactly by the stored payloads in order |
| `Frag.DeliverFragment` | core/internal/frag/frag.go:47-80 | One delivery: the set of held fragments grows by the delivered one, and the message comes out exactly when this completes the set |
| `Frag.HoldsAfter` | core/internal/frag/frag.go:47-80 | After any order of deliveries the reassembler holds exactly the fragments that arrived |
| `Frag.OutputInRun` | core/internal/frag/frag.go:47-80 | What each delivery of a run returns: the whole message at the completing one, nothing at every other |
| `Frag.FragmentsTravel` | core/internal/protocol/proxy.go:168-222 | Every fragment of a split message fits, and is parsed back as it was sent |
| `Frag.WholeMessage` | core/internal/frag/frag.go:8-10 | A message that fits is passed on unsplit, and an unsplit message is delivered at once and disturbs nothing |
| `UdpCodec.VarintRoundTrip` | core/internal/protocol/proxy.go:226-255 | Reading a variable-length integer (section 16 of RFC 9000) gives the written number back and leaves what follows |
| `UdpCodec.VarintPut` | core/internal/protocol/proxy.go:226-255 | Writes exactly the variable-length form of every number below 2^62 and nothing beyond it |
| `UdpCodec.VarintIsShortest` | core/internal/protocol/proxy.go:226-255 | A number takes the fewest bytes that hold it: one below 64, two below 16384, four below 2^30 (section 16 of RFC 9000) |
| `UdpCodec.Encode` | core/internal/protocol/proxy.go:168-175 | The wire form is exactly `Size` bytes long |
| `UdpCodec.Serialize` | core/internal/protocol/proxy.go:177-190 | A buffer that is too short is refused untouched; otherwise exactly the front of the buffer holds the wire form |
| `UdpCodec.RoundTrip` | core/internal/protocol/proxy.go:177-222 | Parsing a serialised message gives it back if and only if its address has 1 to 2048 bytes and it carries data; the other cases give the two errors of the source |
| `UdpCodec.CutMessage` | core/internal/protocol/proxy.go:192-222 | The first bytes of a sendable message are refused up to the first byte of its data, with the error that says where they end, and beyond it are the message with less data |
| `UdpCodec.EncodedLayout` | core/internal/protocol/proxy.go:177-190 | Where each field of a message lies in its wire form |
| `UdpCodec.ParsedSurvivesResending` | core/internal/protocol/proxy.go:192-222 | Whatever a parse accepts can be serialised and parsed again with the same result |
| `GeckoFrame.EncodeFrame` | extras/obfs/gecko_frame.go:39-59 | An invalid header or a short buffer is refused with its error and nothing is written; a failing random source is reported; otherwise exactly the frame is written; nothing beyond the place of the frame changes |
| `GeckoFrame.DecodeFrame` | extras/obfs/gecko_frame.go:63-86 | Whatever is decoded has a valid header |
| `GeckoFrame.FrameRoundTrip` | extras/obfs/gecko_frame.go:39-86 | Decoding undoes encoding for every valid header, padding and payload |
| `GeckoFrame.DecodedIsFrame` | extras/obfs/gecko_frame.go:63-86 | What a decoder accepts is a frame of the decoded header and payload, up to the seven unused bits of the first byte |
| `GeckoFrame.ChunksCoverPacket` | extras/obfs/gecko.go:114-129 | The pieces of a packet joined are the packet, also when it is shorter than the number of pieces |
| `GeckoFrame.WriteFragmented` | extras/obfs/gecko.go:112-139 | The sending loop writes exactly the frames of the packet, numbered, padded and cut as specified |
| `GeckoFrame.FramesDecode` | extras/obfs/gecko.go:112-139 | Every written frame decodes to its number, its count, its message ID and its piece |
| `GeckoFrame.RandomPadLen` | extras/obfs/gecko.go:144-151 | A padded frame stays between the configured minimum and maximum sizes, and no padding is added to a chunk that is already too long |
| `GeckoFrame.PaddingReachesEverySize` | extras/obfs/gecko.go:144-151 | The random draws reach every size between the limits and no other |
| `GeckoRun.PacketComesBack` | extras/obfs/gecko.go:199-274 | For every run of frames of any keys, evictions and expiry sweeps: as long as the packet is admitted and its entry survives, its frames return nothing until the one that brings the last missing piece, in whatever order and with whatever repetitions, and that one returns exactly the packet |
| `GeckoRun.PacketArrives` | extras/obfs/gecko.go:199-274 | The same without assuming survival: if the first frame finds room for its source, the table is never full, and no sweep comes more than eight seconds after that frame, the frame that brings the last missing piece returns exactly the packet |
| `GeckoRun.SurvivesInTime` | extras/obfs/gecko.go:199-274 | In such a run the entry survives, and ends eight seconds after the first frame, whatever pieces follow |
| `GeckoRun.StepOutlives` | extras/obfs/gecko.go:199-304 | Pieces do not prolong the eight seconds of an entry; a sweep takes it out exactly when they have passed, a frame of its own only when the packet is complete, and a frame of another packet only when the table is full and no entry ends earlier |
| `GeckoRun.RunKeepsCaps` | extras/obfs/gecko.go:199-274 | On every run the table holds at most 4096 entries, at most eight of them from one source |
| `GeckoRun.NinthIsRefused` | extras/obfs/gecko.go:203-210 | A source with eight entries gets no ninth one, and its frame changes nothing |
| `GeckoRun.StepTracks` | extras/obfs/gecko.go:199-249 | One event: the entry holds exactly the pieces that arrived, and the packet comes out when the set is complete |
| `GeckoRun.SentFrameCarries` | extras/obfs/gecko.go:112-139 | A frame written by the sender arrives as an event that carries its piece |
| `GeckoRun.OtherStepsKeep` | extras/obfs/gecko.go:199-274 | Frames of other keys and sweeps leave an entry unchanged or remove it |
| `Gecko.GeckoConn.constructor` | extras/obfs/gecko.go:84-96 | A new receiver has an empty, consistent table |
| `Gecko.GeckoConn.AcceptChunk` | extras/obfs/gecko.go:199-249 | Keeps the bookkeeping consistent: every entry has fewer pieces than it needs and counts them correctly, at most 4096 entries, `perSource` counts the entries of each source with no zeros and at most 8; the table changes as specified, including refusal at the source cap and eviction of an oldest entry |
| `Gecko.GeckoConn.Receive` | extras/obfs/gecko.go:226-248 | A repeated piece changes nothing; a new one is stored; the last one removes the entry and returns the joined pieces |
| `Gecko.GeckoConn.Admit` | extras/obfs/gecko.go:211-221 | Admitting an entry below both caps keeps the counts exact |
| `Gecko.GeckoConn.DropEntry` | extras/obfs/gecko.go:277-286 | Removes one entry, and its source from the counts when it was the last |
| `Gecko.GeckoConn.EvictOldest` | extras/obfs/gecko.go:290-304 | Removes an entry with the least deadline |
| `Gecko.GeckoConn.GcExpired` | extras/obfs/gecko.go:266-274 | Removes exactly the entries whose deadline has passed |
| `Gecko.ConsistentAfterAdd` | extras/obfs/gecko.go:203-221 | The counts stay exact when an entry is added |
| `Gecko.ConsistentAfterDrop` | extras/obfs/gecko.go:277-286 | The counts stay exact, and free of zeros, when an entry is dropped |
| `Gecko.Join` | extras/obfs/gecko.go:237-247 | The pieces are copied one after the other into a buffer of exactly their total length |
| `RingBuffers.RingBuffer.PushBack` | core/internal/congestion/bbr/ringbuffer.go:40-52 | Appends at the back of the contents, across wrap-around and growth |
| `RingBuffers.RingBuffer.PopFront` | core/internal/congestion/bbr/ringbuffer.go:57-69 | Removes and returns the front of the contents |
| `RingBuffers.RingBuffer.Offset` | core/internal/congestion/bbr/ringbuffer.go:75-81 | The element at a position of the contents |
| `RingBuffers.RingBuffer.Store` | core/internal/congestion/bbr/ringbuffer.go:75-81 | Writing through the pointer at a position replaces exactly that element |
| `RingBuffers.RingBuffer.Front` | core/internal/congestion/bbr/ringbuffer.go:86-91 | The first element of the contents |
| `RingBuffers.RingBuffer.Back` | core/internal/congestion/bbr/ringbuffer.go:96-101 | The last element of the contents |
| `RingBuffers.RingBuffer.Grow` | core/internal/congestion/bbr/ringbuffer.go:105-115 | Growing a full ring keeps its contents and their order |
| `RingBuffers.RingBuffer.Clear` | core/internal/congestion/bbr/ringbuffer.go:118-124 | Empties the contents |
| `RingBuffers.RingBuffer.Len` | core/internal/congestion/bbr/ringbuffer.go:23-31 | The number of elements, also when the ring is full or wrapped |
| `RingBuffers.RingBuffer.Empty` | core/internal/congestion/bbr/ringbuffer.go:34-36 | Whether the contents are empty |
| `RingBuffers.ViewPush` | core/internal/congestion/bbr/ringbuffer.go:40-52 | Storing behind the tail extends what the ring shows by one element |
| `RingBuffers.WrapIsRemainder` | core/internal/congestion/bbr/ringbuffer.go:75-81 | The position of an element is the remainder of head plus index by the number of slots |
| `PacketQueues.PacketNumberIndexedQueue.constructor` | core/internal/congestion/bbr/packet_number_indexed_queue.go:40-48 | A new queue is the empty map |
| `PacketQueues.PacketNumberIndexedQueue.Emplace` | core/internal/congestion/bbr/packet_number_indexed_queue.go:54-88 | Adds the entry to the map and makes it the last, or refuses a number that is not beyond the last one |
| `PacketQueues.PacketNumberIndexedQueue.GetEntry` | core/internal/congestion/bbr/packet_number_indexed_queue.go:92-99 | The entry the map has under a packet number, if any |
| `PacketQueues.PacketNumberIndexedQueue.Remove` | core/internal/congestion/bbr/packet_number_indexed_queue.go:103-119 | Removes the entry from the map and hands it over, or reports that there is none; the front slot is present again afterwards |
| `PacketQueues.PacketNumberIndexedQueue.RemoveUpTo` | core/internal/congestion/bbr/packet_number_indexed_queue.go:124-137 | Keeps exactly the entries from the cutoff on; the cutoff is the given number unless the first packet number is negative |
| `PacketQueues.PacketNumberIndexedQueue.Clearup` | core/internal/congestion/bbr/packet_number_indexed_queue.go:171-179 | Drops the empty slots at the front, keeps the map, and resets the first packet when nothing is left |
| `PacketQueues.PacketNumberIndexedQueue.IsEmpty` | core/internal/congestion/bbr/packet_number_indexed_queue.go:140-142 | Empty exactly when the map is |
| `PacketQueues.PacketNumberIndexedQueue.FirstPacket` | core/internal/congestion/bbr/packet_number_indexed_queue.go:156-158 | The least packet number in the map, or -1 |
| `PacketQueues.PacketNumberIndexedQueue.LastPacket` | core/internal/congestion/bbr/packet_number_indexed_queue.go:163-169 | The number inserted last, whether its entry is still there or not, or -1 when the queue is empty |
| `PacketQueues.PacketNumberIndexedQueue.FindSlot` | core/internal/congestion/bbr/packet_number_indexed_queue.go:181-199 | The slot of a packet number that is in the map, and none otherwise |
| `PacketQueues.FrontDecidesEmptiness` | core/internal/congestion/bbr/packet_number_indexed_queue.go:171-179 | As the front slot is present, an empty map means an empty ring |
| `PacketQueues.RemovalIsExact` | core/internal/congestion/bbr/packet_number_indexed_queue.go:124-137 | Removing up to a limit leaves exactly the entries from the limit on if and only if it does not start below the reserved number -1 with an entry between -1 and the limit |
| `PacketQueues.RemovalIsExactForPackets` | core/internal/congestion/bbr/packet_number_indexed_queue.go:124-137 | With packet numbers that are never negative, as all callers have them, removing up to a limit leaves exactly the entries from the limit on |
| `PacketQueues.RemovalStopsAtReservedNumber` | core/internal/congestion/bbr/packet_number_indexed_queue.go:124-137 | A queue with negative packet numbers on which removal stops too early |
| `AckPoints.TrimmingChangesNothing` | core/internal/congestion/bbr/bandwidth_sampler.go:733-760 | Over every run of queries with rising values and candidates pushed in between, the list trimmed in place gives the same answers as a list that keeps every candidate |
| `AckPoints.TrimKeepsAnswers` | core/internal/congestion/bbr/bandwidth_sampler.go:733-760 | One trim, including the partial one of the trailing loop, changes no later answer |
| `AckPoints.ChooseA0Point` | core/internal/congestion/bbr/bandwidth_sampler.go:733-760 | Returns the answer of the untrimmed list and leaves the trimmed one in the ring |
| `AckPoints.DroppingIsHarmlessIff` | core/internal/congestion/bbr/bandwidth_sampler.go:733-760 | Dropping some points from the front leaves a query at the same point if and only if it would have passed over all of them but the first |
| `A0Queries.TrimmingIsInvisible` | core/internal/congestion/bbr/bandwidth_sampler.go:554-861 | On every run of a new sampler with times in order and acknowledgements in rising packet order, every sample equals that of a sampler that never trims its candidates |
| `A0Queries.AckedAhead` | core/internal/congestion/bbr/bandwidth_sampler.go:762-833 | Acknowledgements in rising packet order ask for rising values: after each, every packet still to be acknowledged asks for no less |
| `A0Queries.AckedTwins` | core/internal/congestion/bbr/bandwidth_sampler.go:762-833 | One acknowledgement gives the same sample with and without trimmed candidates, and keeps the two samplers equal up to their candidates |
| `AckPoints.FallingQueriesDiffer` | core/internal/congestion/bbr/bandwidth_sampler.go:733-760 | With a falling query the trimmed list can answer differently |
| `BandwidthSamplers.RunRatesAreDefined` | core/internal/congestion/bbr/bandwidth_sampler.go:762-833 | On every run of a new sampler with times in order, with overestimate avoidance on or off, both byte differences of a sample are non-negative and no send time lies before the one it is compared with |
| `BandwidthSamplers.RatesAreDefined` | core/internal/congestion/bbr/bandwidth_sampler.go:762-833 | The same for one acknowledgement in any safe state |
| `BandwidthSamplers.NextIsSafe` | core/internal/congestion/bbr/bandwidth_sampler.go:554-861 | Every event keeps every tracked snapshot sound: sent at last ack <= sent at send <= total sent, acked at send <= total acked, last acked send time <= own send time |
| `BandwidthSamplers.After` | core/internal/congestion/bbr/bandwidth_sampler.go:554-861 | Safety holds after every run of events whose times do not decrease |
| `BandwidthSamplers.SentIsSafe` | core/internal/congestion/bbr/bandwidth_sampler.go:554-596 | Sending keeps the snapshots sound |
| `BandwidthSamplers.AckedIsSafe` | core/internal/congestion/bbr/bandwidth_sampler.go:762-833 | Acknowledging keeps the snapshots sound |
| `BandwidthSamplers.BandwidthSampler.OnPacketSent` | core/internal/congestion/bbr/bandwidth_sampler.go:554-596 | The fields, the packet queue and the candidate ring change to the specified state; a packet that is not retransmittable is only noted |
| `BandwidthSamplers.BandwidthSampler.OnPacketAcknowledged` | core/internal/congestion/bbr/bandwidth_sampler.go:762-833 | The new state and the returned sample are the specified ones |
| `BandwidthSamplers.BandwidthSampler.TakeSample` | core/internal/congestion/bbr/bandwidth_sampler.go:798-832 | The sample is the specified one, which `SampleRates.SampleIsLesserRate` shows to be the lesser of the send and the ack rate; of the state only the candidates are trimmed |
| `BandwidthSamplers.BandwidthSampler.Observe` | core/internal/congestion/bbr/bandwidth_sampler.go:775-789 | The ack point moves only when avoidance is on, and an app-limited phase ends behind its last packet |
| `BandwidthSamplers.BandwidthSampler.OnPacketLost` | core/internal/congestion/bbr/bandwidth_sampler.go:677-683 | Adds to the lost bytes and returns the snapshot of a tracked packet |
| `BandwidthSamplers.BandwidthSampler.OnPacketNeutered` | core/internal/congestion/bbr/bandwidth_sampler.go:685-689 | Stops tracking the packet and adds its size to the neutered bytes, once |
| `BandwidthSamplers.BandwidthSampler.OnAppLimited` | core/internal/congestion/bbr/bandwidth_sampler.go:691-694 | Marks the phase, which ends with the packet sent last |
| `BandwidthSamplers.BandwidthSampler.RemoveObsoletePackets` | core/internal/congestion/bbr/bandwidth_sampler.go:696-703 | Stops tracking exactly the packets below the limit |
| `BandwidthSamplers.BandwidthSampler.OnAckEventEnd` | core/internal/congestion/bbr/bandwidth_sampler.go:835-861 | Pushes the less recent ack point when the event acknowledged new bytes without extra ones, and notes the total |
| `SampleRates.SamplesMeasure` | core/internal/congestion/bbr/bandwidth_sampler.go:762-833 | Every sample of every run with times in order: its packet was sent in the run, its round-trip time is counted from then, and its bandwidth is at most 8 bits times the bytes acknowledged since its starting point by the time since then, at most 8 bits times the bytes sent from the mark to the packet by that time, and less than one of the two by no more than one byte per second, or infinite where the send times do not differ; without overestimate avoidance it starts from the mark at sending |
| `SampleRates.SampleIsLesserRate` | core/internal/congestion/bbr/bandwidth_sampler.go:798-832 | The same for one sample: the bounds hold in whole numbers, with 8 bits a byte and a billion nanoseconds a second |
| `SampleRates.SampleIsTakenIff` | core/internal/congestion/bbr/bandwidth_sampler.go:762-833 | A sample is taken exactly for a tracked packet with a mark, and only if time has passed since its starting point |
| `SampleRates.TrackedWereSent` | core/internal/congestion/bbr/bandwidth_sampler.go:554-596 | Every tracked packet was sent by an event of the run, and holds the bytes sent, acknowledged and lost up to then, and the mark of that moment |
| `SampleRates.TotalsOfRun` | core/internal/congestion/bbr/bandwidth_sampler.go:554-703 | The totals are the bytes sent, lost and acknowledged in the run, and the mark is the packet acknowledged last, or the one sent last with nothing in flight if that came later |
| `SamplerHistories.TrackedAreOutstanding` | core/internal/congestion/bbr/bandwidth_sampler.go:554-703 | When retransmittable packets are sent in rising order, the tracked packets are exactly those sent and neither neutered nor declared obsolete since |
| `SamplerHistories.LatePacketIsNotTracked` | core/internal/congestion/bbr/bandwidth_sampler.go:554-596 | While packets are tracked, one that is not beyond all sent before is not tracked |
| `SamplerHistories.AppLimitedIsPhase` | core/internal/congestion/bbr/bandwidth_sampler.go:691-789 | The sampler is app-limited exactly from a mark until a tracked packet sent after the one that was last at the mark is acknowledged |
| `SamplerHistories.CandidatesBelongToTransmission` | core/internal/congestion/bbr/bandwidth_sampler.go:554-596 | With overestimate avoidance there is always a candidate once a packet was sent with nothing in flight, and each is the time of that sending or of a later acknowledgement, with the bytes acknowledged by then |
| `SamplerHistories.AckEventAddsPoint` | core/internal/congestion/bbr/bandwidth_sampler.go:835-861 | The end of an ack event adds a candidate exactly if avoidance is on, no extra bytes were found, and bytes were acknowledged since the last such end |
| `WindowedFilters.FilterTracks` | core/internal/congestion/bbr/windowed_filter.go:102-158 | After every stream of samples with times in order: the three estimates are ordered by value and by time, each is a recorded sample that no sample recorded after it beats, and the best is at most one window old |
| `WindowedFilters.UpdateCoversIff` | core/internal/congestion/bbr/windowed_filter.go:102-151 | An update keeps each estimate at least as good as every sample recorded since its own time stamp if and only if the sample does not slip in front of a better third estimate of the same time by the quarter-window rule |
| `WindowedFilters.CoversAlwaysIff` | core/internal/congestion/bbr/windowed_filter.go:102-158 | Over a whole stream, every estimate is at least as good as all samples since its own time stamp after each sample, if and only if no sample slips |
| `WindowedFilters.FilterCovers` | core/internal/congestion/bbr/windowed_filter.go:102-158 | On streams without such a sample every estimate is at least as good as all samples since its time stamp |
| `WindowedFilters.DistinctTimesCover` | core/internal/congestion/bbr/windowed_filter.go:102-158 | Samples at distinct times never slip |
| `WindowedFilters.SlippingStream` | core/internal/congestion/bbr/windowed_filter.go:102-151 | A stream in the window of ten rounds that BBR uses, in which a sample slips: the second estimate is worse than a sample of the same round |
| `WindowedFilters.MaximumIsKept` | core/internal/congestion/bbr/windowed_filter.go:102-151 | On every stream with times in order: a sample that no sample of the window before it exceeds is the answer from then on, as long as it is no more than a window old and no later sample exceeds it |
| `WindowedFilters.BestIsKept` | core/internal/congestion/bbr/windowed_filter.go:102-151 | Within its window the best estimate gives way only to a sample that reaches it; when it is too old, the second takes over, or the third if the second is too old as well, or the new sample if that reaches it or all three are too old |
| `WindowedFilters.BestOfWindow` | core/internal/congestion/bbr/windowed_filter.go:102-151 | So the best is the greatest of the new sample and of the estimates that are not too old |
| `WindowedFilters.SecondIsGreatest` | core/internal/congestion/bbr/windowed_filter.go:102-151 | Behind such a best sample, the second estimate is the greatest of the samples that came more than a quarter of the window later, and a copy of the best until there is one; so this sample takes over when the best is too old |
| `WindowedFilters.SecondFollows` | core/internal/congestion/bbr/windowed_filter.go:102-151 | How one update moves the second estimate behind a best one that stays |
| `WindowedFilters.WindowedFilter.Update` | core/internal/congestion/bbr/windowed_filter.go:102-151 | The three slots change to the specified estimates, of which `WindowedFilters.BestIsKept` says what becomes of the best one |
| `WindowedFilters.WindowedFilter.Reset` | core/internal/congestion/bbr/windowed_filter.go:154-158 | All three slots become the given sample |
| `BbrSenders.RunStaysGood` | core/internal/congestion/bbr/bbr_sender.go:538-638 | In every state of every run of non-empty congestion events, sends and datagram-size increases from a new sender: the least, initial and greatest windows are exact multiples of the datagram size; the window handed out lies between least and greatest; DRAIN, PROBE_BW and recovery imply full bandwidth, STARTUP implies the opposite; full bandwidth is never taken back and DRAIN never entered again; and until full bandwidth the congestion window has never shrunk |
| `BbrSenders.CongestionKeepsGood` | core/internal/congestion/bbr/bbr_sender.go:538-638 | One congestion event keeps all of this |
| `BbrSenders.DatagramSizeKeepsGood` | core/internal/congestion/bbr/bbr_sender.go:489-509 | A larger datagram size keeps it and never shrinks the window |
| `BbrSenders.NextKeepsGood` | core/internal/congestion/bbr/bbr_sender.go:444-638 | Every allowed event keeps it |
| `BbrSenders.NewBbrIsGood` | core/internal/congestion/bbr/bbr_sender.go:335-380 | A new sender has it |
| `BbrSenders.GoodWindow` | core/internal/congestion/bbr/bbr_sender.go:522-532 | The window handed out lies between the least and the greatest in PROBE_RTT, in recovery and otherwise |
| `BbrSenders.ExactScaling` | core/internal/congestion/bbr/bbr_sender.go:408-427 | Rescaling a window of whole packets to another datagram size loses nothing to integer division |
| `BbrSenders.ModeKeeps` | core/internal/congestion/bbr/bbr_sender.go:802-898 | The mode steps keep the windows and the order of modes |
| `BbrSenders.WindowsKeep` | core/internal/congestion/bbr/bbr_sender.go:978-1040 | The window steps put both windows in bounds and do not shrink the congestion window before full bandwidth |
| `BbrSenders.RecoveryKeeps` | core/internal/congestion/bbr/bbr_sender.go:902-935 | Recovery is entered only after full bandwidth |
| `BbrSenders.BbrSender.constructor` | core/internal/congestion/bbr/bbr_sender.go:335-380 | The state of a new sender |
| `BbrSenders.BbrSender.OnPacketSent` | core/internal/congestion/bbr/bbr_sender.go:444-461 | Notes the bytes in flight and the packet sent last |
| `BbrSenders.BbrSender.OnCongestionEventEx` | core/internal/congestion/bbr/bbr_sender.go:538-638 | The fields change to the specified state of the event, step by step in the order of the source |
| `BbrSenders.BbrSender.UpdateRoundTripCounter` | core/internal/congestion/bbr/bbr_sender.go:756-763 | A round trip ends behind the packet that was the last one sent when it began |
| `BbrSenders.BbrSender.UpdateRecoveryState` | core/internal/congestion/bbr/bbr_sender.go:902-935 | The three recovery states move as specified, only after full bandwidth |
| `BbrSenders.BbrSender.MaybeUpdateMinRtt` | core/internal/congestion/bbr/bbr_sender.go:709-718 | The least round-trip time is replaced when it expired, is unset, or is beaten |
| `BbrSenders.BbrSender.CheckIfFullBandwidthReached` | core/internal/congestion/bbr/bbr_sender.go:802-823 | Full bandwidth is reached after the configured rounds without growth, or on early loss |
| `BbrSenders.BbrSender.MaybeExitStartupOrDrain` | core/internal/congestion/bbr/bbr_sender.go:833-847 | STARTUP ends with full bandwidth; DRAIN ends when the bytes in flight fit the target |
| `BbrSenders.BbrSender.MaybeEnterOrExitProbeRtt` | core/internal/congestion/bbr/bbr_sender.go:850-898 | PROBE_RTT is entered when the least round-trip time expired and left after its time and one round |
| `BbrSenders.BbrSender.CalculateCongestionWindow` | core/internal/congestion/bbr/bbr_sender.go:978-1008 | The congestion window becomes the specified one, which moves as `BbrWindows.EventMovesWindow` says, and stays within its limits |
| `BbrSenders.BbrSender.CalculateRecoveryWindow` | core/internal/congestion/bbr/bbr_sender.go:1011-1040 | The recovery window becomes the specified one and never falls below the least window |
| `BbrSenders.BbrSender.SetMaxDatagramSize` | core/internal/congestion/bbr/bbr_sender.go:489-509 | The packet-sized windows are rescaled, and a window at an old limit moves to the new one |
| `BbrSenders.BbrSender.GetCongestionWindow` | core/internal/congestion/bbr/bbr_sender.go:522-532 | The window handed out in each mode |
| `BbrRuns.WindowGrowsByAcks` | core/internal/congestion/bbr/bbr_sender.go:978-1008 | Over every run, between changes of the datagram size, the congestion window grows by at most the bytes acknowledged |
| `BbrRuns.EventGrowth` | core/internal/congestion/bbr/bbr_sender.go:978-1040 | One event grows the window by at most the bytes it acknowledges, PROBE_RTT leaves it as it was, and in recovery the recovery window admits the acknowledged bytes on top of those in flight |
| `BbrRuns.WindowStep` | core/internal/congestion/bbr/bbr_sender.go:978-1040 | The same for the two window steps; while packets are conserved the recovery window does not grow beyond that |
| `BbrRuns.ProbeRttLasts` | core/internal/congestion/bbr/bbr_sender.go:850-898 | On every run with events in time order, PROBE_RTT lasts at least 200 milliseconds |
| `BbrRuns.EventMoves` | core/internal/congestion/bbr/bbr_sender.go:850-898 | The end of PROBE_RTT is set once, 200 milliseconds ahead and only when the bytes in flight have drained, and the mode is not left before it |
| `BbrRuns.RecoveryOutlastsLosses` | core/internal/congestion/bbr/bbr_sender.go:902-935 | On every run with rising packet numbers: once losses are seen at full bandwidth, recovery is left only by a loss-free event that acknowledges a packet sent later |
| `BbrRuns.RunRecovers` | core/internal/congestion/bbr/bbr_sender.go:902-935 | Every run of a new sender with rising packet numbers moves through recovery by such steps only |
| `BbrRuns.EventRecoveryMoves` | core/internal/congestion/bbr/bbr_sender.go:902-935 | Recovery begins exactly with an event with losses and acknowledgements at full bandwidth, and ends exactly with a loss-free one that acknowledges a packet beyond its end |
| `BbrWindows.SlowStart` | core/internal/congestion/bbr/bbr_sender.go:978-1008 | On every run of a new sender, outside PROBE_RTT and between changes of the datagram size: before full bandwidth, as long as less than the initial window was ever acknowledged or the window is below its goal, the window is 32 packets plus every byte acknowledged, up to the greatest window |
| `BbrWindows.StartupFollowsAcks` | core/internal/congestion/bbr/bbr_sender.go:978-1008 | The same from any state of a run |
| `BbrWindows.WindowSettles` | core/internal/congestion/bbr/bbr_sender.go:978-1008 | At full bandwidth, outside PROBE_RTT and between changes of the datagram size, the window lies between the least and the greatest of its goals, as far as its limits allow, as soon as enough is acknowledged |
| `BbrWindows.WindowReachesGoal` | core/internal/congestion/bbr/bbr_sender.go:978-1008 | The lower half of this, which also holds before full bandwidth |
| `BbrWindows.WindowStaysUnderGoal` | core/internal/congestion/bbr/bbr_sender.go:978-1008 | The upper half: one event at full bandwidth brings the window down to its goal |
| `BbrWindows.RunMovesWindow` | core/internal/congestion/bbr/bbr_sender.go:538-638 | Every run of a new sender moves the window as `EventMovesWindow` says, and the gain is the high one in STARTUP and DRAIN and the constant one in PROBE_BW |
| `BbrWindows.EventMovesWindow` | core/internal/congestion/bbr/bbr_sender.go:978-1008 | One event, from the state before it to the state after it: at full bandwidth the window goes to its goal, up by no more than the acknowledged bytes; before, it grows by all of them below the goal or while less than the initial window was ever acknowledged, and rests otherwise; PROBE_RTT leaves it; the limits do not change |
| `BbrWindows.TargetIsExact` | core/internal/congestion/bbr/bbr_sender.go:676-702 | The goal is the gain times round-trip time times bandwidth over eight billion, rounded down twice, but no less than the least window, and the gain times the initial window while that gives nothing |
| `BbrWindows.TargetIsPathTimesGain` | core/internal/congestion/bbr/bbr_sender.go:692-702 | Up to these roundings it is the gain times what the path holds |
| `BbrWindows.EventGainFits` | core/internal/congestion/bbr/bbr_sender.go:721-753 | One event keeps the gain that belongs to the mode |
| `BbrModels.RunMoves` | core/internal/congestion/bbr/bbr_sender.go:538-638 | Every run of a new sender moves through rounds, estimates, losses, full bandwidth, modes, PROBE_RTT and recovery windows as the next rows say |
| `BbrModels.EventMovesRound` | core/internal/congestion/bbr/bbr_sender.go:756-763 | A round starts exactly with an acknowledgement beyond the end of the last one; the end moves to the packet sent last at the start of a round and when recovery is entered; conservation gives way to growth at the start of a round; the bytes in flight are those before the event less the acknowledged and the lost |
| `BbrModels.RoundLastsARoundTrip` | core/internal/congestion/bbr/bbr_sender.go:756-763 | On every run with rising packet numbers, after a round has started or recovery was entered, neither the next round nor growth starts before a packet sent later is acknowledged |
| `BbrModels.EventMovesEstimates` | core/internal/congestion/bbr/bbr_sender.go:567-586 | A bandwidth sample enters the filter exactly if bytes were acknowledged and it is not app-limited or exceeds the estimate; the minimum round-trip time is the lesser of the old one and the sample, or the sample alone if the old one is unset or more than ten seconds old |
| `BbrModels.EventMovesLosses` | core/internal/congestion/bbr/bbr_sender.go:591-637 | The losses of a round are counted until the next one starts |
| `BbrModels.EventMovesStalls` | core/internal/congestion/bbr/bbr_sender.go:802-823 | Rounds without a gain of a quarter are counted, app-limited ones left out; full bandwidth is reached exactly with the last of as many as the profile asks for, or after eight loss events with more than a fiftieth of the bytes in flight lost |
| `BbrModels.EventMovesMode` | core/internal/congestion/bbr/bbr_sender.go:833-898 | The mode after an event, in one table: when PROBE_RTT is entered and left, and that otherwise it is STARTUP until full bandwidth, DRAIN until the bytes in flight fit the path, and PROBE_BW from then on |
| `BbrModels.EventMovesProbe` | core/internal/congestion/bbr/bbr_sender.go:850-898 | The end of PROBE_RTT is set 200 milliseconds ahead when few bytes are in flight, and from then on a start of a round is noted; the minimum round-trip time is dated anew when it is set and when PROBE_RTT ends |
| `BbrModels.EventMovesRecoveryWindow` | core/internal/congestion/bbr/bbr_sender.go:1011-1040 | The recovery window starts from the bytes in flight, gives up what was lost, gains what was acknowledged in growth, and admits the acknowledged bytes and the least window in any case |
| `BbrModels.WindowHandedOut` | core/internal/congestion/bbr/bbr_sender.go:522-532 | PROBE_RTT hands out four packets, recovery the lesser of both windows, and otherwise it is the congestion window |
| `BbrModels.DatagramSizeMoves` | core/internal/congestion/bbr/bbr_sender.go:489-509 | With larger datagrams the least and the initial window keep their four and 32 packets, another window is kept as far as the least one allows, and the recovery window is brought between the limits |
| `BbrEstimates.EstimateIsGreatest` | core/internal/congestion/bbr/bbr_sender.go:567-586 | Over every run: the bandwidth estimate is a sample that counts as long as it is no more than ten rounds older than the last one, no later one exceeds it, and no earlier one of its ten rounds did |
| `BbrEstimates.EstimateIsFiltered` | core/internal/congestion/bbr/bbr_sender.go:567-586 | The filter of every state of a run is that of the stream of samples that count, each with the number of its round |
| `BbrEstimates.MinRttIsLeast` | core/internal/congestion/bbr/bbr_sender.go:709-718 | Over every run with positive samples, until it is more than ten seconds old, the minimum round-trip time is the least of the samples and of the one before them |
| `BbrEstimates.FullBandwidthHasAReason` | core/internal/congestion/bbr/bbr_sender.go:802-823 | Over every run: an event reaches full bandwidth if and only if it starts a round without a gain, and this is one in a row of as many as the profile asks for, or the round before it lost too much |
| `BbrEstimates.ProbeRttSeesARound` | core/internal/congestion/bbr/bbr_sender.go:850-898 | Over every run PROBE_RTT is not left before a round has started in it, after its end was set |
| `Pacers.PromisedTimeSuffices` | core/internal/congestion/common/pacer.go:42-76 | At the time `TimeUntilSend` returns, or at once if it returns zero, the budget covers a full datagram; and where that time is beyond the minimum delay no earlier time would do |
| `Pacers.WaitingTimeIsExact` | core/internal/congestion/common/pacer.go:62-76 | The ceiling division gives the first moment at which the missing budget has accrued |
| `Pacers.BurstBound` | core/internal/congestion/common/pacer.go:32-58 | Over every run of sends that each fit their budget, the bytes sent plus the budget left are at most one maximum burst plus bandwidth times elapsed time |
| `Pacers.SpendingStep` | core/internal/congestion/common/pacer.go:32-51 | One send within budget spends exactly its size and never leaves a negative budget |
| `Pacers.PromisedTimeIsFirst` | core/internal/congestion/common/pacer.go:60-76 | The time `TimeUntilSend` returns is the first one that is the minimum delay after the last send, and by which the bandwidth has brought what is missing |
| `Pacers.SendingTakesItsSize` | core/internal/congestion/common/pacer.go:32-40 | A send takes its size off the budget, which never goes below zero |
| `Pacers.BudgetAccrues` | core/internal/congestion/common/pacer.go:42-51 | After the last send the budget grows by what the bandwidth brings, rounded down, up to the greatest burst |
| `Pacers.BurstIsGreaterOfTwo` | core/internal/congestion/common/pacer.go:53-58 | The greatest burst is what the bandwidth brings in four minimum delays, or ten datagrams, whichever is more |
| `Pacers.Pacer.constructor` | core/internal/congestion/common/pacer.go:23-30 | A new pacer has ten packets of budget |
| `Pacers.Pacer.SentPacket` | core/internal/congestion/common/pacer.go:32-40 | Takes the size off the budget of the moment, not below zero, and notes the time |
| `Pacers.Pacer.SetMaxDatagramSize` | core/internal/congestion/common/pacer.go:78-80 | Changes the datagram size and nothing else |
| `Brutal.BrutalSender.OnCongestionEventEx` | core/internal/congestion/brutal/brutal.go:109-122 | After any history of events with times in order, the rate is that of the totals of exactly the events whose second lies in the last five, or 1 with compensation disabled |
| `Brutal.TableTotalsAreTheLog` | core/internal/congestion/brutal/brutal.go:132-145 | The totals taken from the five slots equal the sums over the log of the last five seconds |
| `Brutal.SlotHoldsItsShare` | core/internal/congestion/brutal/brutal.go:137-145 | The cutoff alone would admit six seconds, but the slot of the sixth was just taken over |
| `Brutal.SlotAfterEvent` | core/internal/congestion/brutal/brutal.go:110-120 | An event is added to the slot of its own second, replaces an older second there, and touches no other slot |
| `Brutal.SumBySlot` | core/internal/congestion/brutal/brutal.go:110-120 | Every second belongs to exactly one slot, so the parts add up to the whole |
| `Brutal.Rate` | core/internal/congestion/brutal/brutal.go:146-165 | The rate lies between 0.8 and 1, and is 1 without losses |
| `Brutal.RateIsShare` | core/internal/congestion/brutal/brutal.go:146-165 | From fifty packets on the rate times all packets is the packets acknowledged, as long as these are at least four fifths, and 0.8 below; before, it is 1 |
| `Brutal.LossIsMadeUp` | core/internal/congestion/brutal/brutal.go:57-59 | Up to a fifth lost, the share acknowledged of what is sent at the raised rate is the configured rate |
| `Brutal.BrutalSender.UpdateAckRate` | core/internal/congestion/brutal/brutal.go:132-171 | The loop over the slots and its three exits give the rate of the kept totals |
| `Brutal.BrutalSender.Record` | core/internal/congestion/brutal/brutal.go:111-120 | Exactly the slot of the current second changes, as specified |
| `Brutal.BrutalSender.constructor` | core/internal/congestion/brutal/brutal.go:48-61 | A new sender has an empty log and the rate 1 |
| `Brutal.PacingRateBounds` | core/internal/congestion/brutal/brutal.go:57-59 | The rate given to the pacer is at least the configured one and exceeds it by at most a quarter |
| `UdpSessions.Safety` | core/server/udp.go:273-412 | Over every interleaving of feeding, idle ticks, failures, closing receivers, exit functions and shutdown: the session count never exceeds the cap; a message passed by `canAdmit` is never dropped at the cap of `feed`; each exit function runs once and exactly for the closed sessions; while the manager runs a non-empty map has exactly one live idle loop; when it has returned, every session is closed and no connection is open |
| `UdpSessions.SlotsAreGivenBack` | core/server/udp.go:355-412 | Over every interleaving: a closed session is in the map exactly until its exit function has run, and not afterwards; a new identifier is admitted exactly when the open sessions and those whose exit function is still running are below the cap; once all have exited the map is empty |
| `UdpSessions.MapHoldsOpenAndExiting` | core/server/udp.go:361-412 | The sessions in the map are the open ones and those whose exit function is still running, and their number is the sum of both |
| `UdpSessions.ExitFreesSlot` | core/server/udp.go:388-398 | After its exit function a session is under no identifier |
| `UdpSessions.FeedKeepsCap` | core/server/udp.go:361-374 | Whoever calls `feed`, a new identifier is refused at the cap, and then no session changes |
| `UdpSessions.NobodyIsStuck` | core/server/udp.go:273-412 | In every state of every run the receiving goroutine, the idle loops, the receivers and the exit functions can take their next step |
| `UdpService.ShutdownIsAlwaysPossible` | core/server/udp.go:273-412 | From every state of every run some steps lead to an end in which the manager has returned, every session and connection is closed, every exit function has run, the map is empty and no idle loop is left |
| `UdpService.NewSessionOpens` | core/server/udp.go:355-412 | From every state of the invariant in which the manager receives and has room, a message with a new identifier leads to one more session with an open connection, and back to receiving |
| `UdpService.FailedDialGivesBack` | core/server/udp.go:120-175 | If dialling fails instead, the session map is as before once the exit function has run |
| `UdpService.ClosedSessionIsNotDialled` | core/server/udp.go:145-152 | A session that was closed in the meantime is not dialled, and the manager receives again |
| `UdpService.IdleSessionIsGivenUp` | core/server/udp.go:300-349 | The idle loop closes a session it finds idle, its slot is given back, and the loop waits on while there are other sessions and ends otherwise |
| `UdpService.RefusedMessageLeavesNoTrace` | core/server/server.go:561-577 | A message that is not admitted, or that the traffic logger discards, leaves the manager as it was |
| `UdpService.KnownSessionIsServed` | core/server/udp.go:361-412 | A message for a session in the map changes no session |
| `UdpSessions.StepKeepsInv` | core/server/udp.go:72-412 | Every atomic step keeps the invariant behind this |
| `UdpSessions.RunKeepsInv` | core/server/udp.go:273-412 | It holds in every state of every run |
| `UdpSessions.CheckKeepsInv` | core/server/udp.go:300-323 | Checking for an empty map, which ends the idle loop, keeps it |
| `UdpSessions.SweepKeepsInv` | core/server/udp.go:332-349 | Each close of a sweep keeps it, with the sweep still under way |
| `UdpSessions.StopKeepsInv` | core/server/udp.go:300-323 | Stopping the idle loop after the manager has returned keeps it |
| `UdpSessions.ShutdownCloseKeepsInv` | core/server/udp.go:273-288 | Each close of the shutdown keeps it |
| `UdpSessions.FailKeepsInv` | core/server/udp.go:273-288 | The sessions collected at shutdown are all that are still open |
| `UdpSessions.ClosedStaysWithoutConnection` | core/server/udp.go:145-175 | No step reopens a closed session or gives it a connection |
| `UdpSessions.AdmittedFindsRoom` | core/server/server.go:561-577 | A message that was admitted finds its session or room for a new one, and a running idle loop |
| `UdpSessions.ExitRemovesOnlyItself` | core/server/udp.go:388-398 | An exit function leaves a newer session with the same identifier in the map |
| `ServerLifecycle.ShutdownIsComplete` | core/server/server.go:130-219 | Over every interleaving of any number of `Serve` calls, handlers and the body of `Close`: when the transport is closed, no `Serve` call and no handler is running, the connection set is empty, every accepted connection was rejected by `Serve` or registered before the shutdown snapshot, and every connection of the snapshot was closed |
| `ServerLifecycle.CloseClosesTheRest` | core/server/server.go:162-209 | Over every interleaving: when the transport is closed, `Close` has closed exactly the connections that were in the set at its snapshot, and every connection ever registered is one of them or was taken out by its own handler before the snapshot |
| `ServerLifecycle.RegisteredStays` | core/server/server.go:146-219 | A registered connection is in the set until its handler takes it out |
| `ServerLifecycle.SnapshotStays` | core/server/server.go:176-196 | The snapshot is the set of its moment and does not change |
| `ServerLifecycle.NobodyIsStuck` | core/server/server.go:130-219 | In every state of every run each `Serve` call and each handler can go on, and `Close` waits exactly for the `Serve` calls after closing the listener and for the handlers after closing their connections |
| `ServerService.CloseIsAlwaysPossible` | core/server/server.go:130-219 | From every state of every run some steps lead to a closed transport, where all of the above holds |
| `ServerService.ClosingPartsConnections` | core/server/server.go:146-166 | Over every interleaving no connection is turned away before the closing flag is set, and none is registered afterwards |
| `ServerService.ConnectionIsServed` | core/server/server.go:130-160 | An open server registers an accepted connection, starts its handler, and accepts again |
| `ServerService.ConnectionIsTurnedAway` | core/server/server.go:149-153 | A closing server turns an accepted connection away and registers nothing |
| `ServerLifecycle.WaitGroupsAreBalanced` | core/server/server.go:130-219 | No wait group is taken below zero, and both count what is running |
| `ServerLifecycle.StepKeepsInv` | core/server/server.go:130-219 | Every atomic step keeps the invariant behind this |
| `ServerLifecycle.RunKeepsInv` | core/server/server.go:130-219 | It holds in every state of every run |
| `ServerLifecycle.StepKeepsAccounts` | core/server/server.go:130-160 | No accepted connection is lost: it is in some call's hand, rejected or registered |
| `ServerLifecycle.RegisterKeepsOrder` | core/server/server.go:149-158 | Registering before the closing flag is set keeps the order |
| `Acl.AnswersAreUncached` | extras/outbounds/acl/compile.go:88-109 | For every history of queries and arbitrary evictions between them, each answer is the outbound and hijack address of the first matching rule |
| `Acl.CompiledRuleSet.Match` | extras/outbounds/acl/compile.go:88-109 | The answer is the first match of the normalised host; the cache gains exactly this answer, also when nothing matches, and stays truthful |
| `Acl.CompiledRuleSet.Evict` | extras/outbounds/acl/compile.go:77-80 | Giving up any entries keeps the cache truthful |
| `Acl.AskKeepsTruthful` | extras/outbounds/acl/compile.go:88-109 | An entry stored for one host is right for every host that has the same key |
| `Acl.KeySeparates` | extras/outbounds/acl/compile.go:45-47 | Equal keys mean equal names and equal addresses, even when a name contains the separator; the 4-byte and 16-byte forms of one address count as equal |
| `Acl.LastFieldIsUnique` | extras/outbounds/acl/compile.go:45-47 | What follows the last separator can be told from what precedes it |
| `Acl.SameHostSameMatch` | extras/outbounds/acl/compile.go:62-70 | Hosts that differ only in the form of an address match the same rules |
| `Acl.AddressMatchersIgnoreForm` | extras/outbounds/acl/matchers.go:20-34 | The address and network matchers do not depend on the form an address is kept in |
| `Acl.WideNetworkHolds` | extras/outbounds/acl/matchers.go:28-34 | A 16-byte network holds exactly the addresses whose 16-byte form shares its prefix, where IPv4 addresses only belong to a network that spells one |
| `Acl.NarrowNetworkHolds` | extras/outbounds/acl/matchers.go:28-34 | A 4-byte network holds exactly the IPv4 addresses whose 16-byte form shares its prefix behind the first 96 bits |
| `Acl.HostMatchesByEither` | extras/outbounds/acl/matchers.go:20-34 | An address or a network matches a host exactly by one of its two addresses, in whatever form it is kept |
| `Acl.PortRangeIsExact` | extras/outbounds/acl/compile.go:62-70 | A rule with a port range matches exactly these ports if and only if the range does not start at zero or ends at 65535 |
| `Acl.FirstMatchDecides` | extras/outbounds/acl/compile.go:62-109 | The first rule for this protocol or both, for this port or any, whose matcher accepts the host gives the outbound and the hijack address; without one there is no outbound and no address |
| `Acl.TrailingDotsAreIgnored` | extras/outbounds/acl/compile.go:88-92 | A host written with a dot behind its name gets the answers of the one without |
| `Acl.TrimmedName` | extras/outbounds/acl/compile.go:88-92 | The normalised name is the lower-cased one without the dots at its end |
| `Acl.OtherProtocolsHaveNoPart` | extras/outbounds/acl/compile.go:62-70 | Leaving out the rules for another protocol, and taking the others for both, changes no answer |
| `Addresses.Canonical` | extras/outbounds/acl/matchers_v2geo.go:25-34 | A 16-byte address that spells an IPv4 one is taken for that, with its last 32 bits; every other address stays as it is |
| `GeoIP.BisectionIsScan` | extras/outbounds/acl/matchers_v2geo.go:35-46 | On sorted networks none of whose addresses lies inside a different one, bisection finds an address exactly when scanning all networks does |
| `GeoIP.FindsOnlyListed` | extras/outbounds/acl/matchers_v2geo.go:35-46 | On any list, what bisection finds the scan finds |
| `GeoIP.FindsAllListed` | extras/outbounds/acl/matchers_v2geo.go:35-46 | On a sorted list without nesting, what the scan finds bisection finds |
| `GeoIP.FarSideIsShutOut` | extras/outbounds/acl/matchers_v2geo.go:37-44 | A network that misses the address shuts out all networks on its far side |
| `GeoIP.FoundIffProbed` | extras/outbounds/acl/matchers_v2geo.go:35-46 | On a sorted list, nested or not, an address is found if and only if one of the networks probed for its rank covers it; which ones are probed depends only on the length of the list and on how many listed addresses lie below |
| `GeoIP.AnswerIsRightIff` | extras/outbounds/acl/matchers_v2geo.go:35-46 | Bisection answers an address as the scan does if and only if no network covers it or one that is probed for its rank does |
| `GeoIP.NearestIsFound` | extras/outbounds/acl/matchers_v2geo.go:35-46 | On a sorted list, nested or not, an address that the nearest network below it covers is found |
| `GeoIP.MissedByNearest` | extras/outbounds/acl/matchers_v2geo.go:35-46 | An address is only missed if the nearest network below it does not cover it |
| `GeoIP.NearestDecides` | extras/outbounds/acl/matchers_v2geo.go:35-46 | On disjoint networks written with their first address, the nearest network below decides, and bisection equals the scan |
| `GeoIP.NestedNetworkIsMissed` | extras/outbounds/acl/matchers_v2geo.go:35-46 | A sorted list with a nested network on which bisection loses an address |
| `GeoIP.GeoIPMatcher.MatchIP` | extras/outbounds/acl/matchers_v2geo.go:25-47 | The search loop over the list of the right family computes the bisection |
| `GeoIP.GeoIPMatcher.Match` | extras/outbounds/acl/matchers_v2geo.go:49-61 | On a country list with disjoint networks the answer is whether any entry covers one of the two addresses, inverted where the list says so |
| `GeoIP.NewGeoIPMatcher` | extras/outbounds/acl/matchers_v2geo.go:63-95 | Fails exactly when some address has neither 4 nor 16 bytes; otherwise the two lists are the sorted families |
| `GeoIP.CountryIgnoresForm` | extras/outbounds/acl/matchers_v2geo.go:49-61 | The answer does not depend on the form of an address |
| `Geosite.GeositeMatcher.Match` | extras/outbounds/acl/matchers_v2geo.go:228-257 | For every name and attribute list, on the first call and on every later one, the answer is that of trying `matchDomain` on every original entry |
| `Geosite.GeositeMatcher.BuildIndex` | extras/outbounds/acl/matchers_v2geo.go:159-190 | The index stands for the entries, which are given up |
| `Geosite.IndexIsScan` | extras/outbounds/acl/matchers_v2geo.go:192-257 | Looking up full names, roots and the residual list answers as the scan over all entries |
| `Geosite.ProbesAreSuffixes` | extras/outbounds/acl/matchers_v2geo.go:235-250 | Looking up the name and what follows each dot finds exactly the roots the name is equal to or below |
| `Geosite.IndexOneMore` | extras/outbounds/acl/matchers_v2geo.go:162-183 | One more entry goes to exactly one of the three parts, or to none if its attributes or its type rule it out |
| `Geosite.AllAttributesAreNeeded` | extras/outbounds/acl/matchers_v2geo.go:143-157 | A name matches with wanted attributes if and only if an entry that carries every one of them matches without any |
| `Geosite.ContainsMeansOccurs` | extras/outbounds/acl/matchers_v2geo.go:206-207 | A plain entry matches the names in which its value occurs |
| `UrlEscape.QueryRoundTrip` | app/internal/url/url.go:204-343 | Unescaping an escaped query component gives it back, for every byte string (section 2.1 of RFC 3986) |
| `UrlEscape.EscapeRoundTrip` | app/internal/url/url.go:204-343 | In every mode, unescaping an escaped text succeeds, and gives it back, if and only if each escaped byte is one the mode accepts: all of them outside host and zone modes |
| `UrlEscape.HostSpaceIsRefused` | app/internal/url/url.go:225-227 | In host mode an escaped space is refused |
| `UrlEscape.Escape` | app/internal/url/url.go:289-343 | The counting pass, the shortcut for spaces and the filling loop give the escaped text in a buffer of exactly its length |
| `UrlEscape.CountEscapes` | app/internal/url/url.go:290-304 | The counts say how long the escaped text is, and which shortcut applies |
| `UrlEscape.EscapedLength` | app/internal/url/url.go:309 | The precomputed length is that of the escaped text |
| `UrlEscape.Unescape` | app/internal/url/url.go:204-275 | Both passes give the first error of the text, with its text, or the decoded text; a text without escapes is returned as it is |
| `UrlEscape.CheckFront` | app/internal/url/url.go:208-250 | The checks of the first pass at one position |
| `UrlEscape.EscapedHasNoSeparators` | app/internal/url/url.go:105-180 | An escaped query component contains no ampersand, equals sign or semicolon |
| `UrlEscape.EscapedForm` | app/internal/url/url.go:105-180 | An escaped text consists of unreserved bytes (section 2.3 of RFC 3986), the bytes its mode keeps, percent signs, and in a query component plus signs |
| `UrlEscape.HexDigitsAreRead` | app/internal/url/url.go:52-74 | The digits, the letters a to f and the letters A to F are hexadecimal digits with the values of their places, and nothing else is |
| `UrlEscape.UnescapedIff` | app/internal/url/url.go:204-250 | In every mode a text is unescaped exactly if every percent sign begins an escape that the mode accepts and, in host and zone modes, no ASCII byte that would have to be escaped stands as it is |
| `UrlEscape.AcceptedIffFine` | app/internal/url/url.go:204-250 | Otherwise the error is about the first position where this fails, with up to three bytes of a bad escape, or the bad byte |
| `UrlQuery.TableRoundTrip` | app/internal/url/url.go:937-993 | Parsing a printed table gives it back without error if and only if every key holds at least one value |
| `UrlQuery.ReadBack` | app/internal/url/url.go:937-993 | In general it gives the table without the keys that hold no value |
| `UrlQuery.JoinedIsRead` | app/internal/url/url.go:937-966 | Parsing a printed list of pairs adds exactly these pairs in order |
| `UrlQuery.ParseQuery` | app/internal/url/url.go:931-966 | The loop over the settings gives the specified table and error |
| `UrlQuery.Encode` | app/internal/url/url.go:970-993 | The text lists all values key by key in increasing byte order, and reading it gives the table back without the keys that hold no value |
| `UrlQuery.SortedKeys` | app/internal/url/url.go:975-979 | The keys of the table in strictly increasing order |
| `UrlQuery.OneOrder` | app/internal/url/url.go:975-979 | There is only one such order, so the printed text is determined by the table |
| `UrlQuery.ReportedError` | app/internal/url/url.go:937-966 | The reported error is the semicolon error if any setting holds a semicolon, and the first error otherwise |
| `UrlQuery.FirstErrorIsReportedIff` | app/internal/url/url.go:921-966 | The first error is reported, as documented, if and only if no setting holds a semicolon or the first bad setting is one that does |
| `UrlQuery.LaterSemicolonHidesFirstError` | app/internal/url/url.go:941-943 | A query whose first error is hidden by a later semicolon |
| `PortUnions.Normalize` | extras/utils/portunion.go:64-86 | Sorts the caller's slice; the result covers exactly the same ports, for all inputs, inverted ranges included, and is in order with a gap between neighbours |
| `PortUnions.MergeKeepsPorts` | extras/utils/portunion.go:75-84 | Merging one more range adds exactly its ports |
| `PortUnions.Sort` | extras/utils/portunion.go:68-73 | The slice is sorted by start and end, and keeps its elements |
| `PortUnions.NormalFormIsUnique` | extras/utils/portunion.go:62-86 | Two normal unions of proper ranges with the same ports are equal |
| `PortUnions.Ports` | extras/utils/portunion.go:89-97 | The list holds exactly the covered ports, in increasing order and so once each for a normal union |
| `PortUnions.Contains` | extras/utils/portunion.go:100-107 | Whether some range covers the port |
| `PortUnions.RedirectPortUnion` | app/internal/firewall/firewall.go:16-27 | The edited copy is the specified union |
| `PortUnions.RedirectedLosesFirstPort` | app/internal/firewall/firewall.go:16-27 | For every non-empty union, the redirected ports are all but the first port if and only if no other range holds that port, and the other ranges hold all ports that an inverted first range wraps around to |
| `PortUnions.RedirectedCovers` | app/internal/firewall/firewall.go:16-27 | What redirecting does to each port, for every union |
| `PortUnions.RedirectedNormalUnion` | app/internal/firewall/firewall.go:16-27 | On a normal union they are always exactly all but the first port |
| `PortUnions.RedirectedStaysNormal` | app/internal/firewall/firewall.go:16-27 | Redirecting a normal union leaves a normal union |
| `PortUnions.InvertedFirstRangeWraps` | app/internal/firewall/firewall.go:24 | An inverted range that starts at 65535 wraps around |
| `PortText.TextRoundTrip` | app/internal/firewall/firewall.go:33-43 | Parsing a printed union gives it back if and only if it is normal and not empty |
| `PortText.TextIsListed` | extras/utils/portunion.go:21-55 | Printing and parsing any non-empty union lists its ranges with their ends in order |
| `PortText.ParsePortUnion` | extras/utils/portunion.go:21-60 | Succeeds exactly when every part is a number or a pair of numbers of 16 bits; the result is the normal form of the listed ranges |
| `PortText.ParsingIsDetermined` | extras/utils/portunion.go:21-60 | The result is a function of the text |
| `PortText.FormatPortUnion` | app/internal/firewall/firewall.go:33-43 | The loop prints the specified text |
| `PortText.RangeTextIsParsed` | extras/utils/portunion.go:29-54 | One printed range is parsed back, with its ends in order |

## Left out

- Sockets, TLS, HTTP, the QUIC transport, Salamander, command-line and configuration code: plumbing, or libraries.
- TCP request and response framing: simpler instances of the codec that is modelled.
- BandwidthSamplers.BandwidthSampler.OnAckEventEnd: the extra-acked bytes come from the ack-height tracker, whose floating-point aggregation is not modelled; they are a parameter.
- BandwidthSamplers.NextIsSafe: requires times that do not decrease and packet numbers that are not negative, which the transport guarantees; `OnCongestionEvent`, which combines the samples of several packets into one, is not modelled.
- BbrSenders.BbrSender.OnCongestionEventEx: what the sampler answers (bandwidth, round-trip sample, bytes acknowledged and lost, extra bytes) is an input, so the results hold for every answer; the pacing rate and the gain cycle are left out because the windows do not depend on them.
- BbrSenders.BbrSender.constructor: the fields that only pacing uses are left out.
- BbrSenders.BbrSender.OnPacketSent: the calls to the pacer and to the sampler are left out; both are modelled on their own.
- BbrSenders.BbrSender.CheckIfFullBandwidthReached: the reset of the ack-height tracker is left out, as the tracker's answers are inputs.
- BbrSenders.BbrSender.MaybeExitStartupOrDrain: the pacing gain and the start of the gain cycle are left out.
- BbrSenders.BbrSender.MaybeEnterOrExitProbeRtt: the pacing gain and the app-limited mark of the sampler are left out.
- BbrSenders.BbrSender.SetMaxDatagramSize: the pacer's size and the two windows that only pacing uses are left out.
- BbrSenders.RunStaysGood: the greatest window in packets and the packet buffer size are constants of the QUIC library and parameters here; the former is at least the initial window.
- WindowedFilters.WindowedFilter.Update: the maximum filter over natural numbers, the only one that BBR makes; the source takes any comparator.
- WindowedFilters.FilterTracks: the window length stays fixed during a run; `SetWindowLength` is not modelled.
- WindowedFilters.SecondIsGreatest: speaks of a second estimate behind a best one that stays; how good the second is after it was moved up once is only said by `WindowedFilters.CoversAlwaysIff`.
- BbrWindows.SlowStart: speaks of stretches outside PROBE_RTT and between changes of the datagram size; what those do to the window is said by `BbrWindows.EventMovesWindow` and `BbrModels.DatagramSizeMoves`.
- BbrModels.RoundLastsARoundTrip: requires packet numbers that rise from one send to the next, as the transport gives them.
- BbrEstimates.MinRttIsLeast: requires positive samples, as zero is the code's mark for an unset minimum.
- SamplerHistories.TrackedAreOutstanding: requires retransmittable packets sent in rising order; `SamplerHistories.LatePacketIsNotTracked` says what becomes of another one.
- Pacers.BurstBound: for a constant positive bandwidth, as the pacer asks for it at every call; the minimum pacing delay is a parameter, and the 64-bit overflow guard cannot trigger on unbounded integers.
- Brutal.BrutalSender.OnCongestionEventEx: requires event times that do not decrease, as monotonic clocks give; the quotient is a real number, and debug printing is left out.
- Frag.Defragger.Feed: the new state is stated for a message object that is not already stored, as parsing makes a fresh one for every datagram; feeding a stored object again keeps the counters right but is not followed further.
- Frag.EndToEnd: the sender's message must be splittable into at most 255 fragments, because the code overruns its list beyond that.
- GeckoFrame.EncodeFrame: when the random source fails, what is left in the place of the frame is not specified; sending then stops, and `GeckoFrame.WriteFragmented` is stated for sources that do not fail.
- A0Queries.TrimmingIsInvisible: requires acknowledgements in rising packet order, which makes the queries rise; `AckPoints.FallingQueriesDiffer` shows a falling query that is answered differently.
- Gecko.GeckoConn.AcceptChunk: entries are values in the table rather than pointers; the lock makes each call one step.
- GeckoRun.PacketComesBack: speaks of one use of a message ID; after its last piece a repeated frame starts a new entry, as in the code.
- UdpSessions.Safety: each critical section is one step, and `Run` is the only caller of `feed`, as in the code; message contents, fragments and address hooks are outside this protocol.
- ServerLifecycle.ShutdownIsComplete: authentication, streams and datagrams of a connection are the handler's one unspecified step; the body of `Close` runs once because of its `sync.Once`.
- UdpService.ShutdownIsAlwaysPossible: says that the end can be reached from every state, not that a scheduler must reach it.
- ServerService.CloseIsAlwaysPossible: likewise; that `Close` returns depends on handlers that end.
- Acl.AnswersAreUncached: lower-casing and the printing of addresses are library functions given as parameters; of the latter it is required that no text contains a bar and that equal texts mean equal addresses.
- Acl.CompiledRuleSet.Match: domain matchers are arbitrary functions of the host; the wildcard search, internationalised names and the parsing of rules are left out.
- GeoIP.BisectionIsScan: a condition on the whole list that is sufficient, not necessary; the exact one, `GeoIP.AnswerIsRightIff`, is stated for each address, because with nested networks it depends on which positions are probed for that address.
- Geosite.GeositeMatcher.Match: a regular expression is an arbitrary predicate on names.
- UrlQuery.Encode: a missing table prints as an empty one; host, authority and path handling of the URL parser are left out.
- PortText.ParsePortUnion: the library's decimal reading and printing and its splitting and joining of text are written as functions.
