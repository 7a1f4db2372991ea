/** What trimming the A0 candidates means for the sampler: with acknowledgements in rising packet order, every sample
    is that of a sampler that never trims. */
module A0Queries {
  import opened Basics
  import opened PacketQueues
  import opened AckPoints
  import opened BandwidthSamplers

  /** The sampler as it would be if choosing an A0 point left the candidates alone. */
  ghost function Keeping(s: Sampler, clock: int, e: Event): Sampler
    requires Safe(s, clock)
  {
    if e.Acked? then Next(s, clock, e).(candidates := s.candidates) else Next(s, clock, e)
  }

  ghost function SampleOf(s: Sampler, clock: int, e: Event): BandwidthSample
    requires Safe(s, clock)
  {
    if e.Acked? then AfterAcked(s, clock, e.time, e.n).1 else NO_SAMPLE
  }

  /** `s` trims and `u` does not; they differ in the candidates only, and no query from `x` on can tell. */
  ghost predicate Twins(s: Sampler, u: Sampler, x: nat) {
    && s == u.(candidates := s.candidates)
    && (s.candidates == [] <==> u.candidates == [])
    && (s.candidates != [] ==> AnswersLike(s.candidates, u.candidates, x))
  }

  /** The packets still to be acknowledged ask for no less than `x`, and later ones for no less than earlier ones. */
  ghost predicate QueriesAhead(s: Sampler, x: nat) {
    && x <= s.acked
    && (forall n | n in s.tracked :: n <= s.lastTracked && s.tracked[n].sendTimeState.totalBytesAcked <= s.acked)
    && (forall n | n in s.tracked && n > s.lastAckedPacket :: x <= s.tracked[n].sendTimeState.totalBytesAcked)
    && (forall m, n | m in s.tracked && n in s.tracked && m < n ::
          s.tracked[m].sendTimeState.totalBytesAcked <= s.tracked[n].sendTimeState.totalBytesAcked)
  }

  lemma KeptCandidatesAreSafe(s: Sampler, clock: int, candidates: seq<AckPoint>)
    requires Safe(s, clock) && forall i | 0 <= i < |candidates| :: candidates[i].totalBytesAcked <= s.acked
    ensures Safe(s.(candidates := candidates), clock)
  {
  }

  lemma KeepingIsSafe(u: Sampler, clock: int, e: Event)
    requires Safe(u, clock) && clock <= e.Clock(clock)
    ensures Safe(Keeping(u, clock, e), e.Clock(clock))
  {
    NextIsSafe(u, clock, e);
    if e.Acked? {
      KeptCandidatesAreSafe(Next(u, clock, e), e.time, u.candidates);
    }
  }

  // ---- One event ----

  lemma AnswersLikeLater(trimmed: seq<AckPoint>, all: seq<AckPoint>, x: nat, y: nat)
    requires AnswersLike(trimmed, all, x) && x <= y
    ensures AnswersLike(trimmed, all, y)
  {
  }

  /** The value that the queries have reached after an event. */
  ghost function Reached(s: Sampler, e: Event, x: nat): nat {
    if e.Acked? && e.n in s.tracked then Max(x, s.tracked[e.n].sendTimeState.totalBytesAcked) else x
  }

  /** What an acknowledgement does besides trimming does not look at the candidates. */
  lemma CreditedTwins(s: Sampler, u: Sampler, ackTime: int, n: int, p: SentPacket)
    requires s == u.(candidates := s.candidates)
    ensures Credited(s, ackTime, n, p) == Credited(u, ackTime, n, p).(candidates := s.candidates)
    ensures Credited(u, ackTime, n, p).candidates == u.candidates
            && Credited(s, ackTime, n, p).candidates == s.candidates
    ensures Credited(s, ackTime, n, p).avoidance == s.avoidance == Credited(u, ackTime, n, p).avoidance
    ensures Credited(s, ackTime, n, p).acked == Credited(u, ackTime, n, p).acked
  {
  }

  lemma SameStartingPoint(s: Sampler, u: Sampler, p: SentPacket, x: nat)
    requires s.avoidance == u.avoidance && (s.candidates == [] <==> u.candidates == [])
    requires s.candidates != [] ==> AnswersLike(s.candidates, u.candidates, x)
    requires x <= p.sendTimeState.totalBytesAcked
    ensures StartingPoint(s, p) == StartingPoint(u, p)
    ensures s.candidates != [] ==>
              AnswersLike(s.candidates, u.candidates, p.sendTimeState.totalBytesAcked)
              && AnswersLike(Trimmed(s.candidates, p.sendTimeState.totalBytesAcked),
                             u.candidates, p.sendTimeState.totalBytesAcked)
  {
    hide AnswersLike, ChosenPoint, Trimmed;
    if s.candidates != [] {
      var y := p.sendTimeState.totalBytesAcked;
      AnswersLikeLater(s.candidates, u.candidates, x, y);
      SameAnswer(s.candidates, u.candidates, y);
      TrimKeepsAnswers(s.candidates, u.candidates, y);
    }
  }

  lemma AckedTwins(s: Sampler, u: Sampler, clock: int, e: Event, x: nat)
    requires Safe(s, clock) && Safe(u, clock) && clock <= e.Clock(clock)
    requires Twins(s, u, x) && QueriesAhead(s, x) && e.Acked? && e.n > s.lastAckedPacket
    ensures Twins(Next(s, clock, e), Keeping(u, clock, e), Reached(s, e, x))
    ensures SampleOf(s, clock, e) == SampleOf(u, clock, e)
  {
    if e.n in s.tracked {
      var p := s.tracked[e.n];
      var y := p.sendTimeState.totalBytesAcked;
      CreditedTwins(s, u, e.time, e.n, p);
      var t, v := Credited(s, e.time, e.n, p), Credited(u, e.time, e.n, p);
      assert x <= y == Reached(s, e, x);
      RatesAreDefined(s, clock, e.time, e.n);
      RatesAreDefined(u, clock, e.time, e.n);
      SameStartingPoint(t, v, p, x);
      hide Safe, QueriesAhead, AnswersLike, Credited, Trimmed, StartingPoint, Reached, BandwidthFromDelta;
      if p.lastAckedPacketSentTime == 0 && s.candidates != [] {
        assert AnswersLike(t.candidates, v.candidates, y);
      }
      SameSample(t, v, p, StartingPoint(t, p), e.time);
    }
  }

  lemma SameSample(t: Sampler, v: Sampler, p: SentPacket, a0: AckPoint, ackTime: int)
    requires t.acked == v.acked
    requires p.totalBytesSentAtLastAckedPacket <= p.sendTimeState.totalBytesSent && a0.totalBytesAcked <= t.acked
    ensures SampleFrom(t, p, a0, ackTime) == SampleFrom(v, p, a0, ackTime)
  {
    hide BandwidthFromDelta;
  }

  lemma OpenedTwins(s: Sampler, u: Sampler, sentTime: int, x: nat)
    requires Twins(s, u, x)
    ensures Twins(Opened(s, sentTime), Opened(u, sentTime), x)
  {
  }

  lemma TrackTwins(s: Sampler, u: Sampler, n: int, p: SentPacket, x: nat)
    requires Twins(s, u, x)
    ensures Twins(Track(s, n, p), Track(u, n, p), x)
  {
    hide AnswersLike;
  }

  lemma SameSnapshot(s: Sampler, u: Sampler, sentTime: int, bytes: nat, bytesInFlight: int, x: nat)
    requires Twins(s, u, x)
    ensures Snapshot(s, sentTime, bytes, bytesInFlight) == Snapshot(u, sentTime, bytes, bytesInFlight)
  {
    hide AnswersLike;
  }

  lemma TotalTwins(s: Sampler, u: Sampler, n: int, bytes: nat, x: nat)
    requires Twins(s, u, x)
    ensures Twins(s.(lastSentPacket := n), u.(lastSentPacket := n), x)
    ensures Twins(s.(sent := s.sent + bytes), u.(sent := u.sent + bytes), x)
  {
    hide AnswersLike;
  }

  lemma CountedTwins(s: Sampler, u: Sampler, sentTime: int, n: int, bytes: nat, bytesInFlight: int, x: nat)
    requires Twins(s, u, x)
    ensures Twins(Counted(s, sentTime, n, bytes, bytesInFlight), Counted(u, sentTime, n, bytes, bytesInFlight), x)
  {
    hide Opened, Track, Twins, Snapshot;
    TotalTwins(s, u, n, bytes, x);
    var t, v := s.(sent := s.sent + bytes), u.(sent := u.sent + bytes);
    OpenedTwins(t, v, sentTime, x);
    var t' := if bytesInFlight == 0 then Opened(t, sentTime) else t;
    var v' := if bytesInFlight == 0 then Opened(v, sentTime) else v;
    SameSnapshot(t', v', sentTime, bytes, bytesInFlight + bytes, x);
    TrackTwins(t', v', n, Snapshot(t', sentTime, bytes, bytesInFlight + bytes), x);
  }

  lemma SentTwins(s: Sampler, u: Sampler, clock: int, e: Event, x: nat)
    requires Safe(s, clock) && Safe(u, clock) && Twins(s, u, x) && e.Sent?
    ensures Twins(Next(s, clock, e), Keeping(u, clock, e), x)
  {
    hide Safe, Twins, Counted;
    TotalTwins(s, u, e.n, 0, x);
    var t, v := s.(lastSentPacket := e.n), u.(lastSentPacket := e.n);
    CountedTwins(t, v, e.time, e.n, e.bytes, e.bytesInFlight, x);
  }

  lemma AckEventTwins(s: Sampler, u: Sampler, extraAcked: int, x: nat)
    requires Twins(s, u, x)
    ensures Twins(AfterAckEvent(s, extraAcked), AfterAckEvent(u, extraAcked), x)
  {
  }

  lemma MapTwins(s: Sampler, u: Sampler, n: int, limit: int, x: nat)
    requires Twins(s, u, x)
    ensures Twins(AfterNeutered(s, n), AfterNeutered(u, n), x)
            && Twins(AfterObsolete(s, limit), AfterObsolete(u, limit), x)
  {
    hide KeptFrom, AnswersLike;
  }

  lemma OtherTwins(s: Sampler, u: Sampler, clock: int, e: Event, x: nat)
    requires Safe(s, clock) && Safe(u, clock) && Twins(s, u, x) && !e.Acked?
    ensures Twins(Next(s, clock, e), Keeping(u, clock, e), x)
  {
    hide Safe, AnswersLike, AfterNeutered, AfterObsolete, AfterAckEvent, AfterSent;
    match e
    case Sent(_, _, _, _, _) => SentTwins(s, u, clock, e, x);
    case AckEventEnd(extraAcked) => AckEventTwins(s, u, extraAcked, x);
    case Neutered(n) => MapTwins(s, u, n, 0, x);
    case Obsolete(limit) => MapTwins(s, u, 0, limit, x);
    case _ =>
  }

  lemma AckedAhead(s: Sampler, clock: int, e: Event, x: nat)
    requires Safe(s, clock) && QueriesAhead(s, x) && e.Acked? && e.n > s.lastAckedPacket
    ensures QueriesAhead(Next(s, clock, e), Reached(s, e, x))
  {
    hide Trimmed, SampleFrom, Safe;
  }

  lemma TrackAhead(s: Sampler, n: int, p: SentPacket, x: nat)
    requires QueriesAhead(s, x) && p.sendTimeState.totalBytesAcked == s.acked
    ensures QueriesAhead(Track(s, n, p), x)
  {
  }

  lemma SameAhead(s: Sampler, t: Sampler, x: nat)
    requires QueriesAhead(s, x) && t.acked == s.acked && t.tracked == s.tracked && t.lastTracked == s.lastTracked
    requires t.lastAckedPacket == s.lastAckedPacket
    ensures QueriesAhead(t, x)
  {
  }

  lemma CountedAhead(s: Sampler, sentTime: int, n: int, bytes: nat, bytesInFlight: int, x: nat)
    requires QueriesAhead(s, x)
    ensures QueriesAhead(Counted(s, sentTime, n, bytes, bytesInFlight), x)
  {
    hide Track, QueriesAhead;
    var t := s.(sent := s.sent + bytes);
    var u := if bytesInFlight == 0 then Opened(t, sentTime) else t;
    assert u.acked == s.acked && u.tracked == s.tracked && u.lastTracked == s.lastTracked
           && u.lastAckedPacket == s.lastAckedPacket;
    SameAhead(s, u, x);
    hide Opened;
    TrackAhead(u, n, Snapshot(u, sentTime, bytes, bytesInFlight + bytes), x);
  }

  lemma SentAhead(s: Sampler, clock: int, e: Event, x: nat)
    requires Safe(s, clock) && QueriesAhead(s, x) && e.Sent?
    ensures QueriesAhead(Next(s, clock, e), x)
  {
    hide Safe, QueriesAhead, Counted;
    var t := s.(lastSentPacket := e.n);
    SameAhead(s, t, x);
    CountedAhead(t, e.time, e.n, e.bytes, e.bytesInFlight, x);
  }

  lemma OtherAhead(s: Sampler, clock: int, e: Event, x: nat)
    requires Safe(s, clock) && QueriesAhead(s, x) && !e.Acked? && !e.Sent?
    ensures QueriesAhead(Next(s, clock, e), x)
  {
  }

  // ---- Whole runs ----

  /** The acknowledgements come in rising packet order. */
  ghost predicate AcksRise(events: seq<Event>, last: int)
    decreases events
  {
    events == [] || if events[0].Acked? then last < events[0].n && AcksRise(events[1..], events[0].n)
                    else AcksRise(events[1..], last)
  }

  ghost function Samples(s: Sampler, clock: int, events: seq<Event>): seq<BandwidthSample>
    requires Safe(s, clock) && InTime(events, clock)
    decreases events
  {
    if events == [] then []
    else
      NextIsSafe(s, clock, events[0]);
      [SampleOf(s, clock, events[0])]
      + Samples(Next(s, clock, events[0]), events[0].Clock(clock), events[1..])
  }

  /** The samples of a sampler that keeps every candidate of a transmission. */
  ghost function KeepingSamples(u: Sampler, clock: int, events: seq<Event>): seq<BandwidthSample>
    requires Safe(u, clock) && InTime(events, clock)
    decreases events
  {
    if events == [] then []
    else
      KeepingIsSafe(u, clock, events[0]);
      [SampleOf(u, clock, events[0])]
      + KeepingSamples(Keeping(u, clock, events[0]), events[0].Clock(clock), events[1..])
  }

  lemma LastAckedAfter(s: Sampler, clock: int, e: Event)
    requires Safe(s, clock)
    ensures Next(s, clock, e).lastAckedPacket == if e.Acked? then e.n else s.lastAckedPacket
  {
    hide Trimmed, SampleFrom, KeptFrom, Safe;
  }

  lemma {:induction false} TrimmingIsInvisibleFrom(s: Sampler, u: Sampler, clock: int, events: seq<Event>, x: nat)
    requires Safe(s, clock) && Safe(u, clock) && InTime(events, clock)
    requires Twins(s, u, x) && QueriesAhead(s, x) && AcksRise(events, s.lastAckedPacket)
    ensures Samples(s, clock, events) == KeepingSamples(u, clock, events)
    decreases events
  {
    if events == [] {
    } else {
      var e := events[0];
      NextIsSafe(s, clock, e);
      KeepingIsSafe(u, clock, e);
      LastAckedAfter(s, clock, e);
      hide Safe, Twins, QueriesAhead, Next, Keeping, SampleOf, Reached;
      if e.Acked? {
        AckedTwins(s, u, clock, e, x);
        AckedAhead(s, clock, e, x);
      } else {
        StepTwins(s, u, clock, e, x);
      }
      TrimmingIsInvisibleFrom(Next(s, clock, e), Keeping(u, clock, e), e.Clock(clock), events[1..],
                              if e.Acked? then Reached(s, e, x) else x);
    }
  }

  lemma StepTwins(s: Sampler, u: Sampler, clock: int, e: Event, x: nat)
    requires Safe(s, clock) && Safe(u, clock) && Twins(s, u, x) && QueriesAhead(s, x) && !e.Acked?
    ensures Twins(Next(s, clock, e), Keeping(u, clock, e), x) && QueriesAhead(Next(s, clock, e), x)
    ensures SampleOf(s, clock, e) == SampleOf(u, clock, e)
  {
    OtherTwins(s, u, clock, e, x);
    if e.Sent? {
      SentAhead(s, clock, e, x);
    } else {
      OtherAhead(s, clock, e, x);
    }
    hide Safe, Twins, QueriesAhead, Next, Keeping;
  }

  /** On every run of a new sampler with times in order and acknowledgements in rising packet order, each sample is
      that of a sampler that never trims its candidates. */
  lemma TrimmingIsInvisible(avoidance: bool, events: seq<Event>)
    requires InTime(events, 0) && AcksRise(events, INVALID_PACKET_NUMBER)
    ensures var s := NewSampler(avoidance);
            Safe(s, 0) && Samples(s, 0, events) == KeepingSamples(s, 0, events)
  {
    var s := NewSampler(avoidance);
    assert Safe(s, 0) && Twins(s, s, 0) && QueriesAhead(s, 0);
    TrimmingIsInvisibleFrom(s, s, 0, events, 0);
  }
}
