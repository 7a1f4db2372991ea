/** What a bandwidth sample says about the run it was taken in, core/internal/congestion/bbr/bandwidth_sampler.go: it is
    the lesser of the rate at which bytes were sent and of the rate at which they were acknowledged. */
module SampleRates {
  import opened Basics
  import opened PacketQueues
  import opened AckPoints
  import opened BandwidthSamplers

  // ---- The value of a sample ----

  /** `rate` bits per second are no more than `bytes` in `time` nanoseconds. */
  predicate AtMost(rate: nat, bytes: int, time: int) {
    rate * time <= 8_000_000_000 * bytes
  }

  /** They are less by no more than one rounding to bytes per second. */
  predicate AlmostAll(rate: nat, bytes: int, time: int) {
    8_000_000_000 * bytes < (rate + 8) * time
  }

  /** The lesser of the rates of two amounts; no time for the second means an infinite rate. */
  predicate LesserRate(rate: nat, acked: int, ackDelta: int, sent: int, sendDelta: int) {
    && AtMost(rate, acked, ackDelta) && (sendDelta > 0 ==> AtMost(rate, sent, sendDelta))
    && (AlmostAll(rate, acked, ackDelta) || (sendDelta > 0 && AlmostAll(rate, sent, sendDelta))
        || (sendDelta <= 0 && rate == 0xFFFF_FFFF_FFFF_FFFF))
  }

  lemma DeltaBounds(bytes: nat, delta: int)
    requires delta > 0
    ensures var rate := BandwidthFromDelta(bytes, delta); AtMost(rate, bytes, delta) && AlmostAll(rate, bytes, delta)
  {
    var n := bytes * 1_000_000_000;
    DivideAndMultiply(n, delta);
    assert BandwidthFromDelta(bytes, delta) == n / delta * 8;
    Eightfold(n / delta, delta);
  }

  lemma Eightfold(q: int, d: int)
    ensures q * 8 * d == 8 * (q * d) && (q * 8 + 8) * d == 8 * (q * d) + 8 * d
  {
  }

  lemma SmallerRateHolds(small: nat, large: nat, bytes: int, time: int)
    requires small <= large && AtMost(large, bytes, time) && time >= 0
    ensures AtMost(small, bytes, time)
  {
    Distribute(small, large - small, time);
    SmallMultiple(large - small, time);
  }

  /** A sample is at most the rate since its starting point and at most the rate up to the sending of its packet, and
      up to rounding it is one of them or the infinite rate. */
  lemma SampleIsLesserRate(s: Sampler, p: SentPacket, a0: AckPoint, ackTime: int)
    requires p.totalBytesSentAtLastAckedPacket <= p.sendTimeState.totalBytesSent && a0.totalBytesAcked <= s.acked
    ensures var sample, delta := SampleFrom(s, p, a0, ackTime), ackTime - a0.ackTime;
            && (sample.stateAtSend.Some? <==> delta > 0)
            && (sample.stateAtSend.Some? ==>
                  && sample.stateAtSend.value == p.sendTimeState && sample.rtt == ackTime - p.sentTime
                  && LesserRate(sample.bandwidth, s.acked - a0.totalBytesAcked, delta,
                                p.sendTimeState.totalBytesSent - p.totalBytesSentAtLastAckedPacket,
                                p.sentTime - p.lastAckedPacketSentTime))
  {
    var acked, ackDelta := s.acked - a0.totalBytesAcked, ackTime - a0.ackTime;
    var sent := p.sendTimeState.totalBytesSent - p.totalBytesSentAtLastAckedPacket;
    var sendDelta := p.sentTime - p.lastAckedPacketSentTime;
    var sample := SampleFrom(s, p, a0, ackTime);
    if ackDelta > 0 {
      DeltaBounds(acked, ackDelta);
      SmallerRateHolds(sample.bandwidth, BandwidthFromDelta(acked, ackDelta), acked, ackDelta);
      if sendDelta > 0 {
        DeltaBounds(sent, sendDelta);
        SmallerRateHolds(sample.bandwidth, BandwidthFromDelta(sent, sendDelta), sent, sendDelta);
      }
    }
    hide BandwidthFromDelta, AtMost, AlmostAll;
  }

  // ---- What the sampler remembers of a run ----

  /** The state of a new sampler after a run. */
  ghost function StateAfter(avoidance: bool, events: seq<Event>): (s: Sampler)
    requires InTime(events, 0)
    ensures Safe(s, LastClock(events, 0))
  {
    After(NewSampler(avoidance), 0, events)
  }

  lemma {:induction false} InTimeSplits(clock: int, before: seq<Event>, e: Event)
    requires InTime(before + [e], clock)
    ensures InTime(before, clock) && LastClock(before, clock) <= e.Clock(LastClock(before, clock))
    decreases before
  {
    var all := before + [e];
    if before == [] {
    } else {
      assert all[0] == before[0] && all[1..] == before[1..] + [e];
      InTimeSplits(before[0].Clock(clock), before[1..], e);
    }
  }

  lemma {:induction false} AfterLast(s: Sampler, clock: int, before: seq<Event>, e: Event)
    requires Safe(s, clock) && InTime(before + [e], clock) && InTime(before, clock)
    ensures After(s, clock, before + [e]) == Next(After(s, clock, before), LastClock(before, clock), e)
    decreases before
  {
    var all := before + [e];
    hide Safe, Next;
    if before == [] {
      assert all[0] == e && all[1..] == [];
    } else {
      assert all[0] == before[0] && all[1..] == before[1..] + [e];
      NextIsSafe(s, clock, before[0]);
      AfterLast(Next(s, clock, before[0]), before[0].Clock(clock), before[1..], e);
    }
  }

  /** The bytes of the retransmittable packets of a run. */
  function SentBytes(events: seq<Event>): nat {
    if events == [] then 0
    else
      var last := events[|events| - 1];
      SentBytes(events[..|events| - 1]) + if last.Sent? && last.retransmittable then last.bytes else 0
  }

  function LostBytes(events: seq<Event>): nat {
    if events == [] then 0
    else
      var last := events[|events| - 1];
      LostBytes(events[..|events| - 1]) + if last.Lost? then last.bytes else 0
  }

  /** The bytes of the packets that were tracked when a run acknowledged them. */
  ghost function AckedBytes(avoidance: bool, events: seq<Event>): nat
    requires InTime(events, 0)
    decreases events
  {
    if events == [] then 0
    else
      var before, last := events[..|events| - 1], events[|events| - 1];
      assert events == before + [last];
      InTimeSplits(0, before, last);
      AckedBytes(avoidance, before) + AckedSize(StateAfter(avoidance, before), last)
  }

  function AckedSize(s: Sampler, e: Event): nat {
    if e.Acked? && e.n in s.tracked then s.tracked[e.n].size else 0
  }

  /** Where rates are measured from: the bytes sent up to a packet, when it was sent and when it was acknowledged. */
  datatype Mark = Mark(sentBytes: nat, sentTime: int, ackTime: int)

  function MarkOf(s: Sampler): Mark {
    Mark(s.sentAtLastAcked, s.lastAckedSentTime, s.lastAckedAckTime)
  }

  /** The mark is the packet acknowledged last, or the packet sent last with nothing in flight, if this came later. */
  ghost function LastMark(avoidance: bool, events: seq<Event>): Mark
    requires InTime(events, 0)
    decreases events
  {
    if events == [] then Mark(0, 0, 0)
    else
      var before, last := events[..|events| - 1], events[|events| - 1];
      assert events == before + [last];
      InTimeSplits(0, before, last);
      var s := StateAfter(avoidance, before);
      if last.Acked? && last.n in s.tracked then
        Mark(s.tracked[last.n].sendTimeState.totalBytesSent, s.tracked[last.n].sentTime, last.time)
      else if last.Sent? && last.retransmittable && last.bytesInFlight == 0 then
        Mark(SentBytes(events), last.time, last.time)
      else LastMark(avoidance, before)
  }

  /** Packet `p` was sent by event `k` of the run with number `n`, and holds the totals and the mark of that moment. */
  ghost predicate SentBy(avoidance: bool, events: seq<Event>, k: nat, n: int, p: SentPacket)
    requires k < |events| && InTime(events[..k], 0) && InTime(events[..k + 1], 0)
  {
    var e, mark := events[k], LastMark(avoidance, events[..k + 1]);
    && e.Sent? && e.retransmittable && e.n == n && p.sentTime == e.time && p.size == e.bytes
    && p.sendTimeState.totalBytesSent == SentBytes(events[..k + 1])
    && p.sendTimeState.totalBytesLost == LostBytes(events[..k])
    && p.sendTimeState.totalBytesAcked == AckedBytes(avoidance, events[..k])
    && p.sendTimeState.isAppLimited == StateAfter(avoidance, events[..k]).isAppLimited
    && p.sendTimeState.bytesInFlight == e.bytesInFlight + e.bytes
    && mark == Mark(p.totalBytesSentAtLastAckedPacket, p.lastAckedPacketSentTime, p.lastAckedPacketAckTime)
  }

  ghost predicate Witnessed(avoidance: bool, events: seq<Event>, n: int, p: SentPacket) {
    exists k {:trigger events[k]} :: 0 <= k < |events| && InTime(events[..k], 0) && InTime(events[..k + 1], 0)
      && SentBy(avoidance, events, k, n, p)
  }

  /** The totals and the mark of the sampler are those of the run. */
  ghost predicate Totals(avoidance: bool, events: seq<Event>, s: Sampler)
    requires InTime(events, 0)
  {
    && s.sent == SentBytes(events) && s.lost == LostBytes(events) && s.acked == AckedBytes(avoidance, events)
    && MarkOf(s) == LastMark(avoidance, events)
  }

  // What one event does to the totals, the mark and the tracked packets

  function CountedBytes(e: Event): nat {
    if e.Sent? && e.retransmittable then e.bytes else 0
  }

  function NextMark(s: Sampler, e: Event): Mark {
    if e.Acked? && e.n in s.tracked then
      Mark(s.tracked[e.n].sendTimeState.totalBytesSent, s.tracked[e.n].sentTime, e.time)
    else if e.Sent? && e.retransmittable && e.bytesInFlight == 0 then
      Mark(s.sent + e.bytes, e.time, e.time)
    else MarkOf(s)
  }

  predicate TotalsMove(s: Sampler, t: Sampler, e: Event) {
    && t.sent == s.sent + CountedBytes(e) && t.lost == s.lost + (if e.Lost? then e.bytes else 0)
    && t.acked == s.acked + AckedSize(s, e) && MarkOf(t) == NextMark(s, e)
  }

  lemma SentTotals(s: Sampler, e: Event)
    requires e.Sent?
    ensures TotalsMove(s, AfterSent(s, e.time, e.n, e.bytes, e.bytesInFlight, e.retransmittable), e)
  {
    hide Snapshot;
  }

  lemma AckedTotals(s: Sampler, clock: int, e: Event)
    requires Safe(s, clock) && e.Acked?
    ensures TotalsMove(s, AfterAcked(s, clock, e.time, e.n).0, e)
  {
    hide Safe, Trimmed, SampleFrom;
  }

  lemma NextTotals(s: Sampler, clock: int, e: Event)
    requires Safe(s, clock)
    ensures TotalsMove(s, Next(s, clock, e), e)
  {
    if e.Sent? {
      SentTotals(s, e);
      hide Safe, TotalsMove, AfterSent;
    } else if e.Acked? {
      AckedTotals(s, clock, e);
      hide Safe, TotalsMove, AfterAcked;
    } else {
      hide Safe, AfterAcked, KeptFrom;
    }
  }

  /** Only sending adds a packet, with a snapshot of the state that counts it. */
  lemma NextTracked(s: Sampler, clock: int, e: Event, n: int)
    requires Safe(s, clock) && n in Next(s, clock, e).tracked
    ensures var p, t := Next(s, clock, e).tracked[n], Next(s, clock, e);
            || (n in s.tracked && p == s.tracked[n])
            || (e.Sent? && e.retransmittable && e.n == n
                && p == SentPacket(e.time, e.bytes, MarkOf(t).sentBytes, MarkOf(t).sentTime, MarkOf(t).ackTime,
                                   SendTimeState(s.isAppLimited, s.sent + e.bytes, s.acked, s.lost,
                                                 e.bytesInFlight + e.bytes)))
  {
    hide Safe, Trimmed, SampleFrom;
  }

  lemma OneMore(before: seq<Event>, last: Event)
    ensures SentBytes(before + [last]) == SentBytes(before) + CountedBytes(last)
    ensures LostBytes(before + [last]) == LostBytes(before) + if last.Lost? then last.bytes else 0
  {
    assert (before + [last])[..|before|] == before;
  }

  lemma OneMoreAcked(avoidance: bool, before: seq<Event>, last: Event)
    requires InTime(before + [last], 0) && InTime(before, 0)
    ensures var s, events := StateAfter(avoidance, before), before + [last];
            && AckedBytes(avoidance, events) == AckedBytes(avoidance, before) + AckedSize(s, last)
            && (s.sent == SentBytes(before) && MarkOf(s) == LastMark(avoidance, before) ==>
                  LastMark(avoidance, events) == NextMark(s, last))
  {
    assert (before + [last])[..|before|] == before;
    OneMore(before, last);
    hide StateAfter, InTime, SentBytes;
  }

  lemma TotalsStep(avoidance: bool, before: seq<Event>, last: Event)
    requires InTime(before + [last], 0) && InTime(before, 0)
    requires Totals(avoidance, before, StateAfter(avoidance, before))
    requires TotalsMove(StateAfter(avoidance, before), StateAfter(avoidance, before + [last]), last)
    ensures Totals(avoidance, before + [last], StateAfter(avoidance, before + [last]))
  {
    OneMore(before, last);
    OneMoreAcked(avoidance, before, last);
    hide InTime, StateAfter, AckedBytes, LastMark, SentBytes, LostBytes, MarkOf, NextMark, AckedSize, CountedBytes;
  }

  lemma {:induction false} TotalsOfRun(avoidance: bool, events: seq<Event>)
    requires InTime(events, 0)
    ensures Totals(avoidance, events, StateAfter(avoidance, events))
    decreases events
  {
    if events == [] {
    } else {
      var before, last := events[..|events| - 1], events[|events| - 1];
      assert events == before + [last];
      InTimeSplits(0, before, last);
      TotalsOfRun(avoidance, before);
      AfterLast(NewSampler(avoidance), 0, before, last);
      NextTotals(StateAfter(avoidance, before), LastClock(before, 0), last);
      hide Next, After, Safe, InTime, Totals, TotalsMove;
      TotalsStep(avoidance, before, last);
    }
  }

  lemma StaysWitnessed(avoidance: bool, before: seq<Event>, last: Event, n: int, p: SentPacket)
    requires Witnessed(avoidance, before, n, p)
    ensures Witnessed(avoidance, before + [last], n, p)
  {
    hide SentBy, InTime;
    var events := before + [last];
    var k :| 0 <= k < |before| && InTime(before[..k], 0) && InTime(before[..k + 1], 0)
             && SentBy(avoidance, before, k, n, p);
    assert events[..k] == before[..k] && events[..k + 1] == before[..k + 1] && events[k] == before[k];
    SameHistory(avoidance, before, events, k, n, p);
  }

  lemma SameHistory(avoidance: bool, before: seq<Event>, events: seq<Event>, k: nat, n: int, p: SentPacket)
    requires k < |before| <= |events| && before[..k + 1] == events[..k + 1] && before[..k] == events[..k]
    requires InTime(before[..k], 0) && InTime(before[..k + 1], 0) && before[k] == events[k]
    requires SentBy(avoidance, before, k, n, p)
    ensures SentBy(avoidance, events, k, n, p)
  {
    hide InTime, StateAfter, LastMark, AckedBytes, SentBytes, LostBytes;
  }

  /** Every packet that a sampler tracks was sent in its run, and holds the totals and the mark of that moment. */
  lemma {:induction false} TrackedWereSent(avoidance: bool, events: seq<Event>, n: int)
    requires InTime(events, 0) && n in StateAfter(avoidance, events).tracked
    ensures Witnessed(avoidance, events, n, StateAfter(avoidance, events).tracked[n])
    decreases events
  {
    if events == [] {
    } else {
      var before, last := events[..|events| - 1], events[|events| - 1];
      assert events == before + [last];
      InTimeSplits(0, before, last);
      AfterLast(NewSampler(avoidance), 0, before, last);
      var s, p := StateAfter(avoidance, before), StateAfter(avoidance, events).tracked[n];
      NextTracked(s, LastClock(before, 0), last, n);
      if n in s.tracked && p == s.tracked[n] {
        TrackedWereSent(avoidance, before, n);
        hide *;
        StaysWitnessed(avoidance, before, last, n, p);
      } else {
        NewlySent(avoidance, before, last, n, p);
      }
    }
  }

  lemma NewlySent(avoidance: bool, before: seq<Event>, last: Event, n: int, p: SentPacket)
    requires InTime(before + [last], 0) && InTime(before, 0) && last.Sent? && last.retransmittable && last.n == n
    requires var s, t := StateAfter(avoidance, before), StateAfter(avoidance, before + [last]);
             p == SentPacket(last.time, last.bytes, MarkOf(t).sentBytes, MarkOf(t).sentTime, MarkOf(t).ackTime,
                             SendTimeState(s.isAppLimited, s.sent + last.bytes, s.acked, s.lost,
                                           last.bytesInFlight + last.bytes))
    ensures Witnessed(avoidance, before + [last], n, p)
  {
    var events := before + [last];
    TotalsOfRun(avoidance, events);
    TotalsOfRun(avoidance, before);
    OneMore(before, last);
    hide StateAfter, InTime, AckedBytes, LastMark, SentBytes, LostBytes;
    assert events[..|before|] == before && events[..|before| + 1] == events && events[|before|] == last;
    assert SentBy(avoidance, events, |before|, n, p);
  }

  // ---- The samples of a run ----

  /** Event `k` sent the packet of a sample that is taken after the run, in state `s`, at `ackTime`. The sample says how
      many bytes were acknowledged since its starting point, or sent from the mark up to the packet, whichever gave less
      per second. It starts from the mark, or with overestimate avoidance from the ack point that was chosen. */
  ghost predicate SampleFits(avoidance: bool, events: seq<Event>, k: nat, s: Sampler, n: int, ackTime: int,
      sample: BandwidthSample)
    requires InTime(events, 0)
  {
    && k < |events| && InTime(events[..k], 0) && InTime(events[..k + 1], 0) && events[k].Sent? && events[k].n == n
    && var e, mark, credit := events[k], LastMark(avoidance, events[..k + 1]), AckedBytes(avoidance, events[..k]);
       var a0 := if avoidance && s.candidates != [] then ChosenPoint(s.candidates, credit)
                 else AckPoint(mark.ackTime, credit);
       && sample.rtt == ackTime - e.time
       && LesserRate(sample.bandwidth, AckedBytes(avoidance, events) + e.bytes - a0.totalBytesAcked,
                     ackTime - a0.ackTime, SentBytes(events[..k + 1]) - mark.sentBytes, e.time - mark.sentTime)
  }

  /** The sample of an acknowledgement after a run. */
  ghost function SampleTaken(avoidance: bool, events: seq<Event>, ackTime: int, n: int): BandwidthSample
    requires InTime(events, 0) && LastClock(events, 0) <= ackTime
  {
    AfterAcked(StateAfter(avoidance, events), LastClock(events, 0), ackTime, n).1
  }

  /** The same in terms of the state and the packet. */
  ghost predicate MeasuredFrom(s: Sampler, p: SentPacket, ackTime: int, sample: BandwidthSample) {
    var a0 := if s.avoidance && s.candidates != []
              then ChosenPoint(s.candidates, p.sendTimeState.totalBytesAcked)
              else AckPoint(p.lastAckedPacketAckTime, p.sendTimeState.totalBytesAcked);
    && sample.rtt == ackTime - p.sentTime
    && LesserRate(sample.bandwidth, s.acked + p.size - a0.totalBytesAcked, ackTime - a0.ackTime,
                  p.sendTimeState.totalBytesSent - p.totalBytesSentAtLastAckedPacket,
                  p.sentTime - p.lastAckedPacketSentTime)
  }

  lemma AckedSampleIsLesserRate(s: Sampler, clock: int, ackTime: int, n: int)
    requires Safe(s, clock) && clock <= ackTime && AfterAcked(s, clock, ackTime, n).1.stateAtSend.Some?
    ensures n in s.tracked && MeasuredFrom(s, s.tracked[n], ackTime, AfterAcked(s, clock, ackTime, n).1)
  {
    var p := s.tracked[n];
    var t := Credited(s, ackTime, n, p);
    assert t.acked == s.acked + p.size && t.avoidance == s.avoidance && t.candidates == s.candidates;
    RatesAreDefined(s, clock, ackTime, n);
    hide Safe, Credited, ChosenPoint, Trimmed, LesserRate;
    SampleIsLesserRate(t, p, StartingPoint(t, p), ackTime);
    hide SampleFrom;
  }

  /** A sample is taken exactly for a tracked packet that was sent after some acknowledgement or opening, and only if
      time has passed since its starting point. */
  lemma SampleIsTakenIff(s: Sampler, clock: int, ackTime: int, n: int)
    requires Safe(s, clock) && clock <= ackTime
    ensures AfterAcked(s, clock, ackTime, n).1.stateAtSend.Some? <==>
            && n in s.tracked && s.tracked[n].lastAckedPacketSentTime != 0
            && ackTime > (if s.avoidance && s.candidates != []
                          then ChosenPoint(s.candidates, s.tracked[n].sendTimeState.totalBytesAcked).ackTime
                          else s.tracked[n].lastAckedPacketAckTime)
  {
    hide ChosenPoint, Trimmed, BandwidthFromDelta;
  }

  lemma {:induction false} SameAvoidance(avoidance: bool, events: seq<Event>)
    requires InTime(events, 0)
    ensures StateAfter(avoidance, events).avoidance == avoidance
    decreases events
  {
    if events == [] {
    } else {
      var before, last := events[..|events| - 1], events[|events| - 1];
      assert events == before + [last];
      InTimeSplits(0, before, last);
      AfterLast(NewSampler(avoidance), 0, before, last);
      SameAvoidance(avoidance, before);
      NextSameAvoidance(StateAfter(avoidance, before), LastClock(before, 0), last);
      hide Next, After, Safe, InTime;
    }
  }

  lemma NextSameAvoidance(s: Sampler, clock: int, e: Event)
    requires Safe(s, clock)
    ensures Next(s, clock, e).avoidance == s.avoidance
  {
    hide Safe, Trimmed, SampleFrom, KeptFrom;
  }

  lemma FitsFrom(avoidance: bool, events: seq<Event>, k: nat, s: Sampler, n: int, ackTime: int, p: SentPacket,
      sample: BandwidthSample)
    requires InTime(events, 0) && k < |events| && InTime(events[..k], 0) && InTime(events[..k + 1], 0)
    requires SentBy(avoidance, events, k, n, p) && s.acked == AckedBytes(avoidance, events) && s.avoidance == avoidance
    requires MeasuredFrom(s, p, ackTime, sample)
    ensures SampleFits(avoidance, events, k, s, n, ackTime, sample)
  {
    hide InTime, StateAfter, AckedBytes, LastMark, SentBytes, LostBytes, LesserRate, ChosenPoint;
  }

  /** Every sample of every run is the lesser of the two rates since its packet was sent. */
  lemma SamplesMeasure(avoidance: bool, events: seq<Event>, ackTime: int, n: int)
    requires InTime(events, 0) && LastClock(events, 0) <= ackTime
    requires SampleTaken(avoidance, events, ackTime, n).stateAtSend.Some?
    ensures exists k :: SampleFits(avoidance, events, k, StateAfter(avoidance, events), n, ackTime,
                                   SampleTaken(avoidance, events, ackTime, n))
  {
    var s := StateAfter(avoidance, events);
    AckedSampleIsLesserRate(s, LastClock(events, 0), ackTime, n);
    var k := SenderOf(avoidance, events, n);
    hide Safe, After, InTime, AfterAcked, StateAfter, AckedBytes, LastMark, SentBytes, LostBytes, LesserRate,
         ChosenPoint, LastClock, SentBy, SampleFits, MeasuredFrom;
    FitsFrom(avoidance, events, k, s, n, ackTime, s.tracked[n], SampleTaken(avoidance, events, ackTime, n));
  }

  /** The event that sent a tracked packet. */
  lemma SenderOf(avoidance: bool, events: seq<Event>, n: int) returns (k: nat)
    requires InTime(events, 0) && n in StateAfter(avoidance, events).tracked
    ensures k < |events| && InTime(events[..k], 0) && InTime(events[..k + 1], 0)
    ensures SentBy(avoidance, events, k, n, StateAfter(avoidance, events).tracked[n])
    ensures var s := StateAfter(avoidance, events);
            s.acked == AckedBytes(avoidance, events) && s.avoidance == avoidance
  {
    var p := StateAfter(avoidance, events).tracked[n];
    TrackedWereSent(avoidance, events, n);
    TotalsOfRun(avoidance, events);
    SameAvoidance(avoidance, events);
    hide Safe, After, InTime, StateAfter, AckedBytes, LastMark, SentBytes, LostBytes, SentBy;
    k :| 0 <= k < |events| && InTime(events[..k], 0) && InTime(events[..k + 1], 0)
         && SentBy(avoidance, events, k, n, p);
  }
}
