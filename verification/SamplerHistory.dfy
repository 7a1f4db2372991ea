/** What the state of the bandwidth sampler says about its run, core/internal/congestion/bbr/bandwidth_sampler.go: which
    packets are tracked, which phase is app-limited, and where the candidates for the A0 point come from. */
module SamplerHistories {
  import opened Basics
  import opened PacketQueues
  import opened AckPoints
  import opened BandwidthSamplers
  import opened SampleRates

  // ---- The tracked packets ----

  function HighestSent(events: seq<Event>): int {
    if events == [] then -1
    else
      var last := events[|events| - 1];
      if last.Sent? && last.retransmittable then last.n else HighestSent(events[..|events| - 1])
  }

  /** The retransmittable packets are sent in rising order. */
  ghost predicate NumbersRise(events: seq<Event>)
    decreases events
  {
    events == []
    || var before, last := events[..|events| - 1], events[|events| - 1];
       NumbersRise(before) && (last.Sent? && last.retransmittable ==> last.n > HighestSent(before))
  }

  /** The packet was sent, and neither neutered nor declared obsolete since. */
  ghost predicate Outstanding(events: seq<Event>, n: int)
    decreases events
  {
    events != []
    && var before, last := events[..|events| - 1], events[|events| - 1];
       if last.Sent? && last.retransmittable && last.n == n then true
       else Outstanding(before, n) && !(last.Neutered? && last.n == n) && !(last.Obsolete? && n < last.limit)
  }

  lemma NextTracks(s: Sampler, clock: int, e: Event, n: int)
    requires Safe(s, clock) && (s.tracked != map[] && e.Sent? && e.retransmittable ==> s.lastTracked < e.n)
    ensures var t := Next(s, clock, e);
            n in t.tracked <==>
            if e.Sent? && e.retransmittable && e.n == n then true
            else n in s.tracked && !(e.Neutered? && e.n == n) && !(e.Obsolete? && n < e.limit)
  {
    hide Safe, Trimmed, SampleFrom, Snapshot;
  }

  lemma NextLastTracked(s: Sampler, clock: int, e: Event)
    requires Safe(s, clock)
    ensures var t := Next(s, clock, e);
            t.lastTracked <= Max(s.lastTracked, if e.Sent? && e.retransmittable then e.n else -1)
  {
    hide Safe, Trimmed, SampleFrom, Snapshot, KeptFrom;
  }

  lemma {:induction false} LastTrackedIsLow(avoidance: bool, events: seq<Event>)
    requires InTime(events, 0) && NumbersRise(events)
    ensures StateAfter(avoidance, events).lastTracked <= HighestSent(events) && HighestSent(events) >= -1
    decreases events
  {
    if events == [] {
    } else {
      var before, last := events[..|events| - 1], events[|events| - 1];
      assert events == before + [last];
      InTimeSplits(0, before, last);
      LastTrackedIsLow(avoidance, before);
      AfterLast(NewSampler(avoidance), 0, before, last);
      NextLastTracked(StateAfter(avoidance, before), LastClock(before, 0), last);
      hide Next, After, Safe, InTime;
    }
  }

  /** When packets are sent in rising order, the tracked packets are exactly the outstanding ones. */
  lemma {:induction false} TrackedAreOutstanding(avoidance: bool, events: seq<Event>, n: int)
    requires InTime(events, 0) && NumbersRise(events)
    ensures n in StateAfter(avoidance, events).tracked <==> Outstanding(events, n)
    decreases events
  {
    if events == [] {
    } else {
      var before, last := events[..|events| - 1], events[|events| - 1];
      assert events == before + [last];
      InTimeSplits(0, before, last);
      TrackedAreOutstanding(avoidance, before, n);
      LastTrackedIsLow(avoidance, before);
      AfterLast(NewSampler(avoidance), 0, before, last);
      NextTracks(StateAfter(avoidance, before), LastClock(before, 0), last, n);
      hide Next, After, Safe, InTime, HighestSent;
    }
  }

  lemma NextHighest(s: Sampler, clock: int, e: Event)
    requires Safe(s, clock) && (s.tracked != map[] && e.Sent? && e.retransmittable ==> s.lastTracked < e.n)
    ensures var t := Next(s, clock, e);
            t.tracked != map[] ==>
              if e.Sent? && e.retransmittable then t.lastTracked == e.n
              else s.tracked != map[] && t.lastTracked == s.lastTracked
  {
    hide Safe, Trimmed, SampleFrom, Snapshot;
  }

  lemma {:induction false} LastTrackedIsHighest(avoidance: bool, events: seq<Event>)
    requires InTime(events, 0) && NumbersRise(events)
    ensures var s := StateAfter(avoidance, events); s.tracked != map[] ==> s.lastTracked == HighestSent(events)
    decreases events
  {
    if events == [] {
    } else {
      var before, last := events[..|events| - 1], events[|events| - 1];
      assert events == before + [last];
      InTimeSplits(0, before, last);
      LastTrackedIsHighest(avoidance, before);
      AfterLast(NewSampler(avoidance), 0, before, last);
      NextHighest(StateAfter(avoidance, before), LastClock(before, 0), last);
      hide Next, After, Safe, InTime;
    }
  }

  /** While packets are tracked, one that is not beyond all sent before is not tracked. */
  lemma LatePacketIsNotTracked(avoidance: bool, before: seq<Event>, e: Event)
    requires InTime(before + [e], 0) && InTime(before, 0) && NumbersRise(before)
    requires e.Sent? && e.retransmittable && e.n <= HighestSent(before)
    requires StateAfter(avoidance, before).tracked != map[]
    ensures StateAfter(avoidance, before + [e]).tracked == StateAfter(avoidance, before).tracked
  {
    LastTrackedIsHighest(avoidance, before);
    AfterLast(NewSampler(avoidance), 0, before, e);
    hide Safe, After, InTime, Snapshot;
  }

  // ---- The app-limited phase ----

  function LastSent(events: seq<Event>): int {
    if events == [] then -1
    else
      var last := events[|events| - 1];
      if last.Sent? then last.n else LastSent(events[..|events| - 1])
  }

  /** The end of the app-limited phase, if one is on: it was marked with the packet sent last, and ends with the
      acknowledgement of a tracked packet sent later, or of any if nothing had been sent. */
  ghost function Phase(avoidance: bool, events: seq<Event>): Option<int>
    requires InTime(events, 0)
    decreases events
  {
    if events == [] then None
    else
      var before, last := events[..|events| - 1], events[|events| - 1];
      assert events == before + [last];
      InTimeSplits(0, before, last);
      var phase := Phase(avoidance, before);
      if last.AppLimited? then Some(LastSent(before))
      else if last.Acked? && last.n in StateAfter(avoidance, before).tracked && phase.Some?
              && (phase.value == -1 || last.n > phase.value) then None
      else phase
  }

  function PhaseOf(s: Sampler): Option<int> {
    if s.isAppLimited then Some(s.endOfAppLimitedPhase) else None
  }

  lemma NextPhase(s: Sampler, clock: int, e: Event)
    requires Safe(s, clock)
    ensures var t := Next(s, clock, e);
            && t.lastSentPacket == (if e.Sent? then e.n else s.lastSentPacket)
            && PhaseOf(t) == (if e.AppLimited? then Some(s.lastSentPacket)
                              else if e.Acked? && e.n in s.tracked && PhaseOf(s).Some?
                                      && (PhaseOf(s).value == -1 || e.n > PhaseOf(s).value) then None
                              else PhaseOf(s))
  {
    hide Safe, Trimmed, SampleFrom, Snapshot, KeptFrom;
  }

  lemma PhaseUnfolds(avoidance: bool, before: seq<Event>, last: Event)
    requires InTime(before + [last], 0) && InTime(before, 0)
    ensures var phase := Phase(avoidance, before);
            Phase(avoidance, before + [last]) ==
            if last.AppLimited? then Some(LastSent(before))
            else if last.Acked? && last.n in StateAfter(avoidance, before).tracked && phase.Some?
                    && (phase.value == -1 || last.n > phase.value) then None
            else phase
    ensures LastSent(before + [last]) == if last.Sent? then last.n else LastSent(before)
  {
    assert (before + [last])[..|before|] == before;
    hide StateAfter, InTime;
  }

  /** The sampler is app-limited exactly during such a phase. */
  lemma {:induction false} AppLimitedIsPhase(avoidance: bool, events: seq<Event>)
    requires InTime(events, 0)
    ensures var s := StateAfter(avoidance, events);
            s.lastSentPacket == LastSent(events) && PhaseOf(s) == Phase(avoidance, events)
    decreases events
  {
    if events == [] {
    } else {
      var before, last := events[..|events| - 1], events[|events| - 1];
      assert events == before + [last];
      InTimeSplits(0, before, last);
      AppLimitedIsPhase(avoidance, before);
      AfterLast(NewSampler(avoidance), 0, before, last);
      NextPhase(StateAfter(avoidance, before), LastClock(before, 0), last);
      PhaseUnfolds(avoidance, before, last);
      hide Next, After, Safe, InTime, Phase, PhaseOf, LastSent;
    }
  }

  // ---- The candidates ----

  predicate Opens(e: Event) {
    e.Sent? && e.retransmittable && e.bytesInFlight == 0
  }

  /** The transmission under way was opened by event `o`. */
  ghost predicate OpenedBy(events: seq<Event>, o: nat) {
    o < |events| && Opens(events[o]) && forall k | o < k < |events| :: !Opens(events[k])
  }

  /** The point is that of an event of the transmission: its time, and the bytes acknowledged by then. */
  ghost predicate PointOf(events: seq<Event>, o: nat, p: AckPoint) {
    exists k {:trigger events[k]} :: o <= k < |events| && InTime(events[..k + 1], 0) && (k == o || events[k].Acked?)
      && events[k].Clock(0) == p.ackTime && p.totalBytesAcked == AckedBytes(true, events[..k + 1])
  }

  ghost predicate PointsOf(events: seq<Event>, o: nat, s: Sampler) {
    && s.candidates != [] && (forall i | 0 <= i < |s.candidates| :: PointOf(events, o, s.candidates[i]))
    && PointOf(events, o, s.recent.newer)
    && (s.recent.older.totalBytesAcked != 0 ==> PointOf(events, o, s.recent.older))
  }

  lemma NextOpens(s: Sampler, clock: int, e: Event)
    requires Safe(s, clock) && s.avoidance && Opens(e)
    ensures var t, p := Next(s, clock, e), AckPoint(e.time, s.acked);
            t.candidates == [p] && t.recent.newer == p && t.recent.older.totalBytesAcked == 0 && t.acked == s.acked
  {
    hide Safe, Snapshot, Track;
    TrackKeepsPoints(Opened(s.(lastSentPacket := e.n, sent := s.sent + e.bytes), e.time), e.n,
        Snapshot(Opened(s.(lastSentPacket := e.n, sent := s.sent + e.bytes), e.time), e.time, e.bytes, e.bytes));
  }

  lemma TrackKeepsPoints(s: Sampler, n: int, p: SentPacket)
    ensures var t := Track(s, n, p);
            t.candidates == s.candidates && t.recent == s.recent && t.acked == s.acked && t.avoidance == s.avoidance
  {
  }

  /** Other events keep candidates, or add the less recent point, and an acknowledgement is a new recent point. */
  lemma NextPoints(s: Sampler, clock: int, e: Event)
    requires Safe(s, clock) && s.avoidance && !Opens(e)
    ensures var t := Next(s, clock, e);
            && (s.candidates != [] ==> t.candidates != [])
            && (forall i | 0 <= i < |t.candidates| ::
                  t.candidates[i] in s.candidates || t.candidates[i] == s.recent.LessRecentPoint())
            && t.recent == if e.Acked? && e.n in s.tracked then s.recent.Update(e.time, t.acked) else s.recent
  {
    hide Safe, SampleFrom, KeptFrom, Snapshot;
  }

  lemma StaysPoint(before: seq<Event>, last: Event, o: nat, p: AckPoint)
    requires PointOf(before, o, p)
    ensures PointOf(before + [last], o, p)
  {
    var events := before + [last];
    hide InTime, AckedBytes;
    var k :| o <= k < |before| && InTime(before[..k + 1], 0) && (k == o || before[k].Acked?)
             && before[k].Clock(0) == p.ackTime && p.totalBytesAcked == AckedBytes(true, before[..k + 1]);
    assert events[..k + 1] == before[..k + 1] && events[k] == before[k];
  }

  lemma LastIsPoint(events: seq<Event>, o: nat, p: AckPoint)
    requires events != [] && o < |events| && InTime(events, 0) && p.totalBytesAcked == AckedBytes(true, events)
    requires var last := events[|events| - 1];
             last.Clock(0) == p.ackTime && (o == |events| - 1 || last.Acked?)
    ensures PointOf(events, o, p)
  {
    hide InTime, AckedBytes;
    var k := |events| - 1;
    assert events[..k + 1] == events && events[k] == events[|events| - 1];
  }

  lemma PointsOfNext(before: seq<Event>, last: Event, o: nat, s: Sampler, t: Sampler)
    requires InTime(before + [last], 0) && o < |before| && PointsOf(before, o, s)
    requires t.acked == AckedBytes(true, before + [last]) && t.candidates != []
    requires forall i | 0 <= i < |t.candidates| ::
               t.candidates[i] in s.candidates || t.candidates[i] == s.recent.LessRecentPoint()
    requires t.recent == s.recent || (last.Acked? && t.recent == s.recent.Update(last.time, t.acked))
    ensures PointsOf(before + [last], o, t)
  {
    hide PointOf, InTime, AckedBytes;
    var events := before + [last];
    forall i | 0 <= i < |t.candidates| ensures PointOf(events, o, t.candidates[i]) {
      StaysPoint(before, last, o, t.candidates[i]);
    }
    StaysPoint(before, last, o, s.recent.newer);
    if s.recent.older.totalBytesAcked != 0 {
      StaysPoint(before, last, o, s.recent.older);
    }
    if last.Acked? {
      LastIsPoint(events, o, AckPoint(last.time, t.acked));
    }
  }

  lemma PointsAtOpening(before: seq<Event>, last: Event)
    requires InTime(before + [last], 0) && InTime(before, 0) && Opens(last)
    ensures PointsOf(before + [last], |before|, StateAfter(true, before + [last]))
  {
    var events, s := before + [last], StateAfter(true, before);
    InTimeSplits(0, before, last);
    AfterLast(NewSampler(true), 0, before, last);
    TotalsOfRun(true, events);
    SameAvoidance(true, before);
    NextOpens(s, LastClock(before, 0), last);
    hide Next, After, Safe, InTime, AckedBytes, LastMark, SentBytes, LostBytes, PointOf, Opens;
    assert Opens(last) ==> last.Clock(0) == last.time;
    LastIsPoint(events, |before|, AckPoint(last.time, s.acked));
  }

  /** With overestimate avoidance, the candidates for the A0 point belong to the transmission under way: each is the
      time of an acknowledgement, or of the opening, with the bytes acknowledged by then; and there is always one. */
  lemma {:induction false} CandidatesBelongToTransmission(events: seq<Event>, o: nat)
    requires InTime(events, 0) && OpenedBy(events, o)
    ensures PointsOf(events, o, StateAfter(true, events))
    decreases events
  {
    var before, last := events[..|events| - 1], events[|events| - 1];
    assert events == before + [last];
    InTimeSplits(0, before, last);
    if o == |events| - 1 {
      PointsAtOpening(before, last);
    } else {
      assert OpenedBy(before, o);
      CandidatesBelongToTransmission(before, o);
      var s := StateAfter(true, before);
      AfterLast(NewSampler(true), 0, before, last);
      TotalsOfRun(true, events);
      SameAvoidance(true, before);
      NextPoints(s, LastClock(before, 0), last);
      hide Next, After, Safe, InTime, AckedBytes, LastMark, SentBytes, LostBytes, PointOf, Opens;
      PointsOfNext(before, last, o, s, StateAfter(true, events));
    }
  }

  // ---- When candidates are added ----

  /** The bytes acknowledged when the last ack event ended. */
  ghost function AckedAtLastEnd(avoidance: bool, events: seq<Event>): nat
    requires InTime(events, 0)
    decreases events
  {
    if events == [] then 0
    else
      var before, last := events[..|events| - 1], events[|events| - 1];
      assert events == before + [last];
      InTimeSplits(0, before, last);
      if last.AckEventEnd? then AckedBytes(avoidance, events) else AckedAtLastEnd(avoidance, before)
  }

  lemma NextAckEvent(s: Sampler, clock: int, e: Event)
    requires Safe(s, clock)
    ensures var t := Next(s, clock, e);
            && t.ackedAfterLastEvent == (if e.AckEventEnd? then t.acked else s.ackedAfterLastEvent)
            && (e.AckEventEnd? ==>
                  t.candidates ==
                  if s.avoidance && e.extraAcked == 0 && s.acked != s.ackedAfterLastEvent
                  then s.candidates + [s.recent.LessRecentPoint()] else s.candidates)
  {
    hide Safe, SampleFrom, KeptFrom, Snapshot, Trimmed;
  }

  lemma EndUnfolds(avoidance: bool, before: seq<Event>, last: Event)
    requires InTime(before + [last], 0) && InTime(before, 0)
    ensures AckedAtLastEnd(avoidance, before + [last]) ==
            if last.AckEventEnd? then AckedBytes(avoidance, before + [last]) else AckedAtLastEnd(avoidance, before)
  {
    assert (before + [last])[..|before|] == before;
    hide InTime, AckedBytes;
  }

  lemma {:induction false} LastEndIsKept(avoidance: bool, events: seq<Event>)
    requires InTime(events, 0)
    ensures StateAfter(avoidance, events).ackedAfterLastEvent == AckedAtLastEnd(avoidance, events)
    decreases events
  {
    if events == [] {
    } else {
      var before, last := events[..|events| - 1], events[|events| - 1];
      assert events == before + [last];
      InTimeSplits(0, before, last);
      LastEndIsKept(avoidance, before);
      AfterLast(NewSampler(avoidance), 0, before, last);
      TotalsOfRun(avoidance, events);
      NextAckEvent(StateAfter(avoidance, before), LastClock(before, 0), last);
      EndUnfolds(avoidance, before, last);
      hide Next, After, Safe, InTime, AckedBytes, AckedAtLastEnd, LastMark, SentBytes, LostBytes;
    }
  }

  /** The end of an ack event adds the less recent ack point to the candidates exactly if avoidance is on, no extra
      bytes were found, and bytes were acknowledged since the last such end. */
  lemma AckEventAddsPoint(avoidance: bool, before: seq<Event>, extraAcked: int)
    requires InTime(before + [AckEventEnd(extraAcked)], 0) && InTime(before, 0)
    ensures var s, t := StateAfter(avoidance, before), StateAfter(avoidance, before + [AckEventEnd(extraAcked)]);
            t.candidates ==
            if avoidance && extraAcked == 0 && AckedBytes(avoidance, before) != AckedAtLastEnd(avoidance, before)
            then s.candidates + [s.recent.LessRecentPoint()] else s.candidates
  {
    AfterLast(NewSampler(avoidance), 0, before, AckEventEnd(extraAcked));
    NextAckEvent(StateAfter(avoidance, before), LastClock(before, 0), AckEventEnd(extraAcked));
    TotalsOfRun(avoidance, before);
    SameAvoidance(avoidance, before);
    LastEndIsKept(avoidance, before);
    hide Next, After, Safe, InTime, AckedBytes, AckedAtLastEnd, LastMark, SentBytes, LostBytes;
  }
}
