/** Bandwidth samples from sent and acknowledged packets, core/internal/congestion/bbr/bandwidth_sampler.go. */
module BandwidthSamplers {
  import opened Basics
  import opened RingBuffers
  import opened PacketQueues
  import opened AckPoints

  const INF_BANDWIDTH := 0xFFFF_FFFF_FFFF_FFFF
  const BYTES_PER_SECOND := 8

  datatype SendTimeState = SendTimeState(
    isAppLimited: bool,
    totalBytesSent: nat,
    totalBytesAcked: nat,
    totalBytesLost: nat,
    bytesInFlight: int)

  const NO_SEND_STATE := SendTimeState(false, 0, 0, 0, 0)

  /** The state of the connection when a packet was sent. */
  datatype SentPacket = SentPacket(
    sentTime: int,
    size: nat,
    totalBytesSentAtLastAckedPacket: nat,
    lastAckedPacketSentTime: int,
    lastAckedPacketAckTime: int,
    sendTimeState: SendTimeState)

  const NO_PACKET := SentPacket(0, 0, 0, 0, 0, NO_SEND_STATE)

  datatype BandwidthSample = BandwidthSample(bandwidth: nat, rtt: int, sendRate: nat,
      stateAtSend: Option<SendTimeState>)

  const NO_SAMPLE := BandwidthSample(0, 0, INF_BANDWIDTH, None)

  /** Bits per second. Its arguments are what the sampler has to guarantee: no negative amount of
      bytes, and no division by zero or by a negative time. */
  function BandwidthFromDelta(bytes: nat, delta: int): nat
    requires delta > 0
  {
    bytes * SECOND / delta * BYTES_PER_SECOND
  }

  datatype Sampler = Sampler(
    sent: nat,
    acked: nat,
    lost: nat,
    neutered: nat,
    sentAtLastAcked: nat,
    lastAckedSentTime: int,
    lastAckedAckTime: int,
    lastSentPacket: int,
    lastAckedPacket: int,
    isAppLimited: bool,
    endOfAppLimitedPhase: int,
    tracked: map<int, SentPacket>,
    lastTracked: int,
    recent: RecentAckPoints,
    candidates: seq<AckPoint>,
    ackedAfterLastEvent: nat,
    avoidance: bool)

  function NewSampler(avoidance: bool): Sampler {
    Sampler(0, 0, 0, 0, 0, 0, 0, INVALID_PACKET_NUMBER, INVALID_PACKET_NUMBER, false, INVALID_PACKET_NUMBER,
            map[], INVALID_PACKET_NUMBER, NO_POINTS, [], 0, avoidance)
  }

  /** What is recorded about a packet sent in state `s`. */
  function Snapshot(s: Sampler, sentTime: int, bytes: nat, bytesInFlight: int): SentPacket {
    SentPacket(sentTime, bytes, s.sentAtLastAcked, s.lastAckedSentTime, s.lastAckedAckTime,
               SendTimeState(s.isAppLimited, s.sent, s.acked, s.lost, bytesInFlight))
  }

  /** A packet sent with nothing in flight opens a new transmission and is its A0 point. */
  function Opened(s: Sampler, sentTime: int): Sampler {
    var points := NO_POINTS.Update(sentTime, s.acked);
    var t := s.(lastAckedAckTime := sentTime, sentAtLastAcked := s.sent, lastAckedSentTime := sentTime);
    if s.avoidance then t.(recent := points, candidates := [points.newer]) else t
  }

  function Track(s: Sampler, n: int, p: SentPacket): Sampler {
    if n == INVALID_PACKET_NUMBER || (s.tracked != map[] && n <= s.lastTracked) then s
    else s.(tracked := s.tracked[n := p], lastTracked := n)
  }

  function Untrack(s: Sampler, left: map<int, SentPacket>): Sampler {
    s.(tracked := left, lastTracked := if left == map[] then INVALID_PACKET_NUMBER else s.lastTracked)
  }

  /** A retransmittable packet counts, and a snapshot of the state after counting it is kept. */
  function Counted(s: Sampler, sentTime: int, n: int, bytes: nat, bytesInFlight: int): Sampler {
    var t := s.(sent := s.sent + bytes);
    var u := if bytesInFlight == 0 then Opened(t, sentTime) else t;
    Track(u, n, Snapshot(u, sentTime, bytes, bytesInFlight + bytes))
  }

  function AfterSent(s: Sampler, sentTime: int, n: int, bytes: nat, bytesInFlight: int,
      retransmittable: bool): Sampler {
    var t := s.(lastSentPacket := n);
    if retransmittable then Counted(t, sentTime, n, bytes, bytesInFlight) else t
  }

  /** The rate at which data was sent up to packet `p`, infinite when it cannot be told. */
  function SendRate(p: SentPacket): nat
    requires p.totalBytesSentAtLastAckedPacket <= p.sendTimeState.totalBytesSent
  {
    if p.sentTime > p.lastAckedPacketSentTime then
      BandwidthFromDelta(p.sendTimeState.totalBytesSent - p.totalBytesSentAtLastAckedPacket,
                         p.sentTime - p.lastAckedPacketSentTime)
    else INF_BANDWIDTH
  }

  function StartingPoint(s: Sampler, p: SentPacket): AckPoint {
    if s.avoidance && s.candidates != [] then ChosenPoint(s.candidates, p.sendTimeState.totalBytesAcked)
    else AckPoint(p.lastAckedPacketAckTime, p.sendTimeState.totalBytesAcked)
  }

  /** The counters after an acknowledgement of packet `p`. */
  function Credited(s: Sampler, ackTime: int, n: int, p: SentPacket): Sampler {
    Observed(Recorded(s, ackTime, n, p), n)
  }

  function Recorded(s: Sampler, ackTime: int, n: int, p: SentPacket): Sampler {
    s.(lastAckedPacket := n, acked := s.acked + p.size, sentAtLastAcked := p.sendTimeState.totalBytesSent,
       lastAckedSentTime := p.sentTime, lastAckedAckTime := ackTime)
  }

  /** An ack point is noted, and an ack behind the end of an app-limited phase ends it. */
  function Observed(s: Sampler, n: int): Sampler {
    s.(recent := if s.avoidance then s.recent.Update(s.lastAckedAckTime, s.acked) else s.recent,
       isAppLimited := s.isAppLimited
                       && !(s.endOfAppLimitedPhase == INVALID_PACKET_NUMBER || n > s.endOfAppLimitedPhase))
  }

  function SampleFrom(s: Sampler, p: SentPacket, a0: AckPoint, ackTime: int): BandwidthSample
    requires p.totalBytesSentAtLastAckedPacket <= p.sendTimeState.totalBytesSent && a0.totalBytesAcked <= s.acked
  {
    if ackTime - a0.ackTime <= 0 then NO_SAMPLE
    else
      var ackRate := BandwidthFromDelta(s.acked - a0.totalBytesAcked, ackTime - a0.ackTime);
      BandwidthSample(Min(SendRate(p), ackRate), ackTime - p.sentTime, SendRate(p), Some(p.sendTimeState))
  }

  /** An acknowledgement: the new state, in which choosing an A0 point has trimmed the candidates, and
      the sample. Its precondition is what keeps the rates well defined. */
  function AfterAcked(s: Sampler, clock: int, ackTime: int, n: int): (Sampler, BandwidthSample)
    requires Safe(s, clock)
  {
    if n !in s.tracked then (s.(lastAckedPacket := n), NO_SAMPLE)
    else
      var p := s.tracked[n];
      var t := Credited(s, ackTime, n, p);
      if p.lastAckedPacketSentTime == 0 then (t, NO_SAMPLE)
      else
        var u := if t.avoidance && t.candidates != []
                 then t.(candidates := Trimmed(t.candidates, p.sendTimeState.totalBytesAcked)) else t;
        (u, SampleFrom(t, p, StartingPoint(t, p), ackTime))
  }

  /** The end of an ack event; `extraAcked` is the answer of the ack height tracker. */
  function AfterAckEvent(s: Sampler, extraAcked: int): Sampler {
    if s.acked == s.ackedAfterLastEvent then s
    else
      var t := s.(ackedAfterLastEvent := s.acked);
      if s.avoidance && extraAcked == 0 then t.(candidates := s.candidates + [s.recent.LessRecentPoint()]) else t
  }

  // Safety

  /** What a tracked packet may say about a connection with these totals at this time. */
  predicate Sound(p: SentPacket, sent: nat, acked: nat, clock: int) {
    && p.totalBytesSentAtLastAckedPacket <= p.sendTimeState.totalBytesSent <= sent
    && p.sendTimeState.totalBytesAcked <= acked
    && p.lastAckedPacketSentTime <= p.sentTime <= clock
    && p.lastAckedPacketAckTime <= clock
  }

  /** Every snapshot is sound, and no ack point is ahead of the acknowledged bytes. */
  predicate Safe(s: Sampler, clock: int) {
    && (forall n | n in s.tracked :: n >= 0 && Sound(s.tracked[n], s.sent, s.acked, clock))
    && (forall i | 0 <= i < |s.candidates| :: s.candidates[i].totalBytesAcked <= s.acked)
    && s.recent.older.totalBytesAcked <= s.acked && s.recent.newer.totalBytesAcked <= s.acked
    && s.sentAtLastAcked <= s.sent
    && s.lastAckedSentTime <= clock && s.lastAckedAckTime <= clock
    && s.ackedAfterLastEvent <= s.acked
    && (s.tracked == map[] ==> s.lastTracked == INVALID_PACKET_NUMBER)
  }

  datatype Event =
    | Sent(time: int, n: nat, bytes: nat, bytesInFlight: int, retransmittable: bool)
    | Acked(time: int, n: nat)
    | Lost(n: nat, bytes: nat)
    | Neutered(n: nat)
    | AppLimited
    | Obsolete(limit: int)
    | AckEventEnd(extraAcked: int)
  {
    function Clock(clock: int): int {
      if Sent? || Acked? then time else clock
    }
  }

  /** The connection state kept with a packet that is still tracked. */
  function Remembered(s: Sampler, n: int): Option<SendTimeState> {
    if n in s.tracked then Some(s.tracked[n].sendTimeState) else None
  }

  function AfterLost(s: Sampler, bytes: nat): Sampler {
    s.(lost := s.lost + bytes)
  }

  function AfterNeutered(s: Sampler, n: int): Sampler {
    if n in s.tracked then Untrack(s.(neutered := s.neutered + s.tracked[n].size), s.tracked - {n}) else s
  }

  ghost function AfterObsolete(s: Sampler, limit: int): Sampler {
    Untrack(s, KeptFrom(s.tracked, limit))
  }

  ghost function Next(s: Sampler, clock: int, e: Event): Sampler
    requires Safe(s, clock)
  {
    match e
    case Sent(time, n, bytes, bytesInFlight, retransmittable) =>
      AfterSent(s, time, n, bytes, bytesInFlight, retransmittable)
    case Acked(time, n) => AfterAcked(s, clock, time, n).0
    case Lost(n, bytes) => AfterLost(s, bytes)
    case Neutered(n) => AfterNeutered(s, n)
    case AppLimited => s.(isAppLimited := true, endOfAppLimitedPhase := s.lastSentPacket)
    case Obsolete(limit) => AfterObsolete(s, limit)
    case AckEventEnd(extraAcked) => AfterAckEvent(s, extraAcked)
  }

  lemma TrackIsSafe(s: Sampler, clock: int, n: nat, p: SentPacket)
    requires Safe(s, clock) && Sound(p, s.sent, s.acked, clock)
    ensures Safe(Track(s, n, p), clock)
  {
    assert n in s.tracked[n := p];
  }

  lemma OpenedIsSafe(s: Sampler, clock: int, sentTime: int)
    requires Safe(s, clock) && clock <= sentTime
    ensures Safe(Opened(s, sentTime), sentTime)
  {
  }

  lemma SentIsSafe(s: Sampler, clock: int, sentTime: int, n: nat, bytes: nat, bytesInFlight: int, retransmittable: bool)
    requires Safe(s, clock) && clock <= sentTime
    ensures Safe(AfterSent(s, sentTime, n, bytes, bytesInFlight, retransmittable), sentTime)
  {
    LaterIsSafe(s, clock, sentTime);
    var t := s.(lastSentPacket := n);
    assert Safe(t, sentTime);
    hide Safe, Counted;
    if retransmittable {
      CountedIsSafe(t, sentTime, n, bytes, bytesInFlight);
    }
  }

  lemma CountedIsSafe(s: Sampler, sentTime: int, n: nat, bytes: nat, bytesInFlight: int)
    requires Safe(s, sentTime)
    ensures Safe(Counted(s, sentTime, n, bytes, bytesInFlight), sentTime)
  {
    hide Safe, Opened, Track, Snapshot;
    var t := s.(sent := s.sent + bytes);
    MoreSentIsSafe(s, sentTime, bytes);
    OpenedIsSafe(t, sentTime, sentTime);
    var u := if bytesInFlight == 0 then Opened(t, sentTime) else t;
    SnapshotIsSound(u, sentTime, bytes, bytesInFlight + bytes);
    TrackIsSafe(u, sentTime, n, Snapshot(u, sentTime, bytes, bytesInFlight + bytes));
  }

  lemma MoreSentIsSafe(s: Sampler, clock: int, bytes: nat)
    requires Safe(s, clock)
    ensures Safe(s.(sent := s.sent + bytes), clock)
  {
  }

  lemma SnapshotIsSound(s: Sampler, sentTime: int, bytes: nat, bytesInFlight: int)
    requires Safe(s, sentTime)
    ensures Sound(Snapshot(s, sentTime, bytes, bytesInFlight), s.sent, s.acked, sentTime)
  {
  }

  lemma LaterIsSafe(s: Sampler, clock: int, later: int)
    requires Safe(s, clock) && clock <= later
    ensures Safe(s, later)
  {
  }

  lemma AckedIsSafe(s: Sampler, clock: int, ackTime: int, n: int)
    requires Safe(s, clock) && clock <= ackTime
    ensures Safe(AfterAcked(s, clock, ackTime, n).0, ackTime)
  {
    if n in s.tracked {
      assert Safe(Credited(s, ackTime, n, s.tracked[n]), ackTime);
    }
  }

  lemma NeuteredIsSafe(s: Sampler, clock: int, n: int)
    requires Safe(s, clock)
    ensures Safe(AfterNeutered(s, n), clock)
  {
  }

  lemma ObsoleteIsSafe(s: Sampler, clock: int, limit: int)
    requires Safe(s, clock)
    ensures Safe(AfterObsolete(s, limit), clock)
  {
  }

  lemma AckEventIsSafe(s: Sampler, clock: int, extraAcked: int)
    requires Safe(s, clock)
    ensures Safe(AfterAckEvent(s, extraAcked), clock)
  {
  }

  /** Losses and app-limited phases change nothing that safety depends on. */
  lemma LossIsSafe(s: Sampler, clock: int, bytes: nat)
    requires Safe(s, clock)
    ensures Safe(AfterLost(s, bytes), clock)
  {
  }

  lemma AppLimitedIsSafe(s: Sampler, clock: int, end: int)
    requires Safe(s, clock)
    ensures Safe(s.(isAppLimited := true, endOfAppLimitedPhase := end), clock)
  {
  }

  lemma NextIsSafe(s: Sampler, clock: int, e: Event)
    requires Safe(s, clock) && clock <= e.Clock(clock)
    ensures Safe(Next(s, clock, e), e.Clock(clock))
  {
    hide Safe;
    match e
    case Sent(time, n, bytes, inFlight, retransmittable) =>
      SentIsSafe(s, clock, time, n, bytes, inFlight, retransmittable);
    case Acked(time, n) => AckedIsSafe(s, clock, time, n);
    case Lost(n, bytes) => LossIsSafe(s, clock, bytes);
    case Neutered(n) => NeuteredIsSafe(s, clock, n);
    case AppLimited => AppLimitedIsSafe(s, clock, s.lastSentPacket);
    case Obsolete(limit) => ObsoleteIsSafe(s, clock, limit);
    case AckEventEnd(extraAcked) => AckEventIsSafe(s, clock, extraAcked);
  }

  ghost predicate InTime(events: seq<Event>, clock: int)
    decreases events
  {
    events == [] || (clock <= events[0].Clock(clock) && InTime(events[1..], events[0].Clock(clock)))
  }

  function LastClock(events: seq<Event>, clock: int): int
    decreases events
  {
    if events == [] then clock else LastClock(events[1..], events[0].Clock(clock))
  }

  /** The sampler stays safe over every run of events whose times do not decrease. */
  ghost function After(s: Sampler, clock: int, events: seq<Event>): (t: Sampler)
    requires Safe(s, clock) && InTime(events, clock)
    ensures Safe(t, LastClock(events, clock))
    decreases events
  {
    if events == [] then s
    else
      NextIsSafe(s, clock, events[0]);
      After(Next(s, clock, events[0]), events[0].Clock(clock), events[1..])
  }

  /** The rates of an acknowledgement are quotients of non-negative amounts of bytes by positive times,
      with and without overestimate avoidance. */
  lemma RatesAreDefined(s: Sampler, clock: int, ackTime: int, n: int)
    requires Safe(s, clock) && clock <= ackTime && n in s.tracked
    ensures var p, t := s.tracked[n], Credited(s, ackTime, n, s.tracked[n]);
            && 0 <= p.sendTimeState.totalBytesSent - p.totalBytesSentAtLastAckedPacket
            && p.sentTime >= p.lastAckedPacketSentTime
            && 0 <= t.acked - StartingPoint(t, p).totalBytesAcked
            && ackTime - p.sentTime >= 0
  {
  }

  /** So they are on every run of a new sampler whose times do not decrease. */
  lemma RunRatesAreDefined(avoidance: bool, events: seq<Event>, ackTime: int, n: int)
    requires InTime(events, 0) && LastClock(events, 0) <= ackTime
    requires n in After(NewSampler(avoidance), 0, events).tracked
    ensures var s := After(NewSampler(avoidance), 0, events);
            var p, t := s.tracked[n], Credited(s, ackTime, n, s.tracked[n]);
            && p.totalBytesSentAtLastAckedPacket <= p.sendTimeState.totalBytesSent
            && p.lastAckedPacketSentTime <= p.sentTime <= ackTime
            && StartingPoint(t, p).totalBytesAcked <= t.acked
  {
    assert Safe(NewSampler(avoidance), 0);
    hide After, Safe, Credited, StartingPoint;
    RatesAreDefined(After(NewSampler(avoidance), 0, events), LastClock(events, 0), ackTime, n);
  }

  class BandwidthSampler {
    var totalBytesSent: nat
    var totalBytesAcked: nat
    var totalBytesLost: nat
    var totalBytesNeutered: nat
    var totalBytesSentAtLastAckedPacket: nat
    var lastAckedPacketSentTime: int
    var lastAckedPacketAckTime: int
    var lastSentPacket: int
    var lastAckedPacket: int
    var isAppLimited: bool
    var endOfAppLimitedPhase: int
    const connectionStateMap: PacketNumberIndexedQueue<SentPacket>
    var recentAckPoints: RecentAckPoints
    const a0Candidates: RingBuffer<AckPoint>
    var totalBytesAckedAfterLastAckEvent: nat
    const overestimateAvoidance: bool
    /** The time of the latest event. */
    ghost var clock: int

    ghost predicate PartsValid()
      reads connectionStateMap, connectionStateMap.entries, a0Candidates
      reads connectionStateMap.entries.ring, a0Candidates.ring
    {
      && a0Candidates.ring as object != connectionStateMap.entries.ring as object
      && a0Candidates as object != connectionStateMap.entries as object
      && connectionStateMap.Valid() && a0Candidates.Valid()
    }

    ghost function State(): Sampler
      requires PartsValid()
      reads this, connectionStateMap, connectionStateMap.entries, a0Candidates
      reads connectionStateMap.entries.ring, a0Candidates.ring
    {
      Sampler(totalBytesSent, totalBytesAcked, totalBytesLost, totalBytesNeutered, totalBytesSentAtLastAckedPacket,
              lastAckedPacketSentTime, lastAckedPacketAckTime, lastSentPacket, lastAckedPacket, isAppLimited,
              endOfAppLimitedPhase, connectionStateMap.Entries(), connectionStateMap.LastPacket(), recentAckPoints,
              a0Candidates.contents, totalBytesAckedAfterLastAckEvent, overestimateAvoidance)
    }

    ghost predicate Valid()
      reads this, connectionStateMap, connectionStateMap.entries, a0Candidates
      reads connectionStateMap.entries.ring, a0Candidates.ring
    {
      PartsValid() && Safe(State(), clock)
    }

    constructor (overestimateAvoidance: bool)
      ensures Valid()
      ensures fresh(connectionStateMap)
      ensures fresh(connectionStateMap.entries)
      ensures fresh(connectionStateMap.entries.ring)
      ensures fresh(a0Candidates)
      ensures fresh(a0Candidates.ring)
      ensures State() == NewSampler(overestimateAvoidance)
      ensures clock == 0
    {
      hide View, Held, PacketNumberIndexedQueue.LastPacket;
      totalBytesSent, totalBytesAcked, totalBytesLost, totalBytesNeutered := 0, 0, 0, 0;
      totalBytesSentAtLastAckedPacket, lastAckedPacketSentTime, lastAckedPacketAckTime := 0, 0, 0;
      lastSentPacket, lastAckedPacket := INVALID_PACKET_NUMBER, INVALID_PACKET_NUMBER;
      isAppLimited, endOfAppLimitedPhase := false, INVALID_PACKET_NUMBER;
      connectionStateMap := new PacketNumberIndexedQueue(256, NO_PACKET);
      recentAckPoints := NO_POINTS;
      a0Candidates := new RingBuffer(256, NO_POINT);
      totalBytesAckedAfterLastAckEvent := 0;
      this.overestimateAvoidance := overestimateAvoidance;
      clock := 0;
    }

    method OnPacketSent(sentTime: int, packetNumber: nat, bytes: nat, bytesInFlight: int, isRetransmittable: bool)
      requires Valid() && clock <= sentTime
      modifies this, connectionStateMap, connectionStateMap.entries, connectionStateMap.entries.ring, a0Candidates,
               a0Candidates.ring
      ensures Valid()
      ensures (connectionStateMap.entries.ring == old(connectionStateMap.entries.ring)
              || fresh(connectionStateMap.entries.ring))
      ensures (a0Candidates.ring == old(a0Candidates.ring) || fresh(a0Candidates.ring))
      ensures clock == sentTime
      ensures State() == AfterSent(old(State()), sentTime, packetNumber, bytes, bytesInFlight, isRetransmittable)
    {
      SentIsSafe(State(), clock, sentTime, packetNumber, bytes, bytesInFlight, isRetransmittable);
      hide Counted, Safe;
      clock := sentTime;
      lastSentPacket := packetNumber;
      if !isRetransmittable {
        return;
      }
      CountPacket(sentTime, packetNumber, bytes, bytesInFlight);
    }

    method CountPacket(sentTime: int, packetNumber: nat, bytes: nat, bytesInFlight: int)
      requires PartsValid()
      modifies this, connectionStateMap, connectionStateMap.entries, connectionStateMap.entries.ring, a0Candidates,
               a0Candidates.ring
      ensures PartsValid()
      ensures (connectionStateMap.entries.ring == old(connectionStateMap.entries.ring)
              || fresh(connectionStateMap.entries.ring))
      ensures (a0Candidates.ring == old(a0Candidates.ring) || fresh(a0Candidates.ring))
      ensures clock == old(clock)
      ensures State() == Counted(old(State()), sentTime, packetNumber, bytes, bytesInFlight)
    {
      hide BandwidthSampler.State, BandwidthSampler.PartsValid, Opened, Track, Snapshot;
      CountSent(bytes);
      if bytesInFlight == 0 {
        OpenTransmission(sentTime);
      }
      var packet := TakeSnapshot(sentTime, bytes, bytesInFlight + bytes);
      TrackPacket(packetNumber, packet);
    }

    method CountSent(bytes: nat)
      requires PartsValid()
      modifies `totalBytesSent
      ensures PartsValid() && State() == old(State()).(sent := old(State()).sent + bytes)
    {
      totalBytesSent := totalBytesSent + bytes;
    }

    method TakeSnapshot(sentTime: int, bytes: nat, bytesInFlight: int) returns (packet: SentPacket)
      requires PartsValid()
      ensures packet == Snapshot(State(), sentTime, bytes, bytesInFlight)
    {
      packet := SentPacket(sentTime, bytes, totalBytesSentAtLastAckedPacket, lastAckedPacketSentTime,
                           lastAckedPacketAckTime,
                           SendTimeState(isAppLimited, totalBytesSent, totalBytesAcked, totalBytesLost, bytesInFlight));
    }

    method TrackPacket(packetNumber: int, packet: SentPacket)
      requires PartsValid()
      modifies connectionStateMap, connectionStateMap.entries, connectionStateMap.entries.ring
      ensures PartsValid()
      ensures (connectionStateMap.entries.ring == old(connectionStateMap.entries.ring)
              || fresh(connectionStateMap.entries.ring))
      ensures State() == Track(old(State()), packetNumber, packet)
    {
      var _ := connectionStateMap.Emplace(packetNumber, Some(packet));
    }

    method OpenTransmission(sentTime: int)
      requires PartsValid()
      modifies this, a0Candidates, a0Candidates.ring
      ensures PartsValid()
      ensures (a0Candidates.ring == old(a0Candidates.ring) || fresh(a0Candidates.ring))
      ensures clock == old(clock)
      ensures State() == Opened(old(State()), sentTime)
    {
      if overestimateAvoidance {
        RestartCandidates(sentTime);
      }
      RecordTimes(sentTime, sentTime);
      totalBytesSentAtLastAckedPacket := totalBytesSent;
    }

    method RestartCandidates(sentTime: int)
      requires PartsValid()
      modifies `recentAckPoints, a0Candidates, a0Candidates.ring
      ensures PartsValid() && (a0Candidates.ring == old(a0Candidates.ring) || fresh(a0Candidates.ring))
      ensures var points := NO_POINTS.Update(sentTime, totalBytesAcked);
              State() == old(State()).(recent := points, candidates := [points.newer])
    {
      recentAckPoints := NO_POINTS;
      recentAckPoints := recentAckPoints.Update(sentTime, totalBytesAcked);
      a0Candidates.Clear();
      a0Candidates.PushBack(recentAckPoints.newer);
    }

    ghost method Tick(now: int)
      requires PartsValid()
      modifies `clock
      ensures PartsValid() && State() == old(State()) && clock == now
    {
      clock := now;
    }

    method OnPacketAcknowledged(ackTime: int, packetNumber: nat) returns (sample: BandwidthSample)
      requires Valid() && clock <= ackTime
      modifies this, a0Candidates, a0Candidates.ring
      ensures Valid() && a0Candidates.ring == old(a0Candidates.ring)
      ensures clock == ackTime
      ensures (State(), sample) == AfterAcked(old(State()), old(clock), ackTime, packetNumber)
    {
      AckedIsSafe(State(), clock, ackTime, packetNumber);
      hide Safe, AfterAcked;
      sample := Acknowledge(ackTime, packetNumber);
      Tick(ackTime);
    }

    method Acknowledge(ackTime: int, packetNumber: nat) returns (sample: BandwidthSample)
      requires Valid() && clock <= ackTime
      modifies `lastAckedPacket, `totalBytesAcked, `totalBytesSentAtLastAckedPacket, `lastAckedPacketSentTime,
               `lastAckedPacketAckTime, `recentAckPoints, `isAppLimited, a0Candidates, a0Candidates.ring
      ensures PartsValid() && a0Candidates.ring == old(a0Candidates.ring)
      ensures State() == AfterAcked(old(State()), clock, ackTime, packetNumber).0
      ensures sample == AfterAcked(old(State()), clock, ackTime, packetNumber).1
    {
      var sent := connectionStateMap.GetEntry(packetNumber);
      if sent.Some? {
        RatesAreDefined(State(), clock, ackTime, packetNumber);
      }
      hide Safe, Credited, StartingPoint, SampleFrom;
      if sent.None? {
        lastAckedPacket := packetNumber;
        return NO_SAMPLE;
      }
      Credit(ackTime, packetNumber, sent.value);
      if sent.value.lastAckedPacketSentTime == 0 {
        return NO_SAMPLE;
      }
      sample := TakeSample(ackTime, sent.value);
    }

    method Credit(ackTime: int, packetNumber: int, p: SentPacket)
      requires PartsValid()
      modifies `lastAckedPacket, `totalBytesAcked, `totalBytesSentAtLastAckedPacket, `lastAckedPacketSentTime,
               `lastAckedPacketAckTime, `recentAckPoints, `isAppLimited
      ensures PartsValid()
      ensures State() == Credited(old(State()), ackTime, packetNumber, p)
    {
      hide Observed;
      RecordAck(ackTime, packetNumber, p);
      Observe(packetNumber);
    }

    method RecordAck(ackTime: int, packetNumber: int, p: SentPacket)
      requires PartsValid()
      modifies `lastAckedPacket, `totalBytesAcked, `totalBytesSentAtLastAckedPacket, `lastAckedPacketSentTime,
               `lastAckedPacketAckTime
      ensures PartsValid()
      ensures State() == Recorded(old(State()), ackTime, packetNumber, p)
    {
      RecordBytes(packetNumber, p.size, p.sendTimeState.totalBytesSent);
      RecordTimes(p.sentTime, ackTime);
    }

    method RecordBytes(packetNumber: int, size: nat, sentAtSend: nat)
      requires PartsValid()
      modifies `lastAckedPacket, `totalBytesAcked, `totalBytesSentAtLastAckedPacket
      ensures PartsValid()
      ensures State() == old(State()).(lastAckedPacket := packetNumber, acked := old(totalBytesAcked) + size,
                                       sentAtLastAcked := sentAtSend)
    {
      lastAckedPacket := packetNumber;
      totalBytesAcked := totalBytesAcked + size;
      totalBytesSentAtLastAckedPacket := sentAtSend;
    }

    method RecordTimes(sentTime: int, ackTime: int)
      requires PartsValid()
      modifies `lastAckedPacketSentTime, `lastAckedPacketAckTime
      ensures PartsValid()
      ensures State() == old(State()).(lastAckedSentTime := sentTime, lastAckedAckTime := ackTime)
    {
      lastAckedPacketSentTime := sentTime;
      lastAckedPacketAckTime := ackTime;
    }

    method Observe(packetNumber: int)
      requires PartsValid()
      modifies `recentAckPoints, `isAppLimited
      ensures PartsValid()
      ensures State() == Observed(old(State()), packetNumber)
    {
      if overestimateAvoidance {
        recentAckPoints := recentAckPoints.Update(lastAckedPacketAckTime, totalBytesAcked);
      }
      if isAppLimited {
        if endOfAppLimitedPhase == INVALID_PACKET_NUMBER || packetNumber > endOfAppLimitedPhase {
          isAppLimited := false;
        }
      }
    }

    /** Both rates of the sample; the calls of BandwidthFromDelta are where bytes and times have to be right. */
    method TakeSample(ackTime: int, p: SentPacket) returns (sample: BandwidthSample)
      requires PartsValid()
      requires p.totalBytesSentAtLastAckedPacket <= p.sendTimeState.totalBytesSent
      requires StartingPoint(State(), p).totalBytesAcked <= totalBytesAcked
      modifies a0Candidates, a0Candidates.ring
      ensures PartsValid() && a0Candidates.ring == old(a0Candidates.ring)
      ensures sample == SampleFrom(old(State()), p, StartingPoint(old(State()), p), ackTime)
      ensures State() == old(State()).(candidates :=
                if overestimateAvoidance && old(State()).candidates != []
                then Trimmed(old(State()).candidates, p.sendTimeState.totalBytesAcked) else old(State()).candidates)
    {
      hide ChosenPoint, Trimmed, BandwidthFromDelta;
      var sendRate := INF_BANDWIDTH;
      if p.sentTime > p.lastAckedPacketSentTime {
        sendRate := BandwidthFromDelta(p.sendTimeState.totalBytesSent - p.totalBytesSentAtLastAckedPacket,
                                       p.sentTime - p.lastAckedPacketSentTime);
      }
      var a0 := AckPoint(p.lastAckedPacketAckTime, p.sendTimeState.totalBytesAcked);
      if overestimateAvoidance {
        var chosen := ChooseA0Point(a0Candidates, p.sendTimeState.totalBytesAcked);
        if chosen.Some? {
          a0 := chosen.value;
        }
      }
      if ackTime - a0.ackTime <= 0 {
        return NO_SAMPLE;
      }
      var ackRate := BandwidthFromDelta(totalBytesAcked - a0.totalBytesAcked, ackTime - a0.ackTime);
      return BandwidthSample(Min(sendRate, ackRate), ackTime - p.sentTime, sendRate, Some(p.sendTimeState));
    }

    /** What is remembered of a packet that is still tracked. */
    method Lookup(packetNumber: int) returns (sent: Option<SentPacket>)
      requires PartsValid()
      ensures sent == if packetNumber in State().tracked then Some(State().tracked[packetNumber]) else None
    {
      sent := connectionStateMap.GetEntry(packetNumber);
    }

    method OnPacketLost(packetNumber: int, bytesLost: nat) returns (sendState: Option<SendTimeState>)
      requires Valid()
      modifies `totalBytesLost
      ensures Valid()
      ensures State() == AfterLost(old(State()), bytesLost) && sendState == Remembered(old(State()), packetNumber)
    {
      LossIsSafe(State(), clock, bytesLost);
      hide Safe, AfterLost, Remembered;
      sendState := Lose(packetNumber, bytesLost);
    }

    method Lose(packetNumber: int, bytesLost: nat) returns (sendState: Option<SendTimeState>)
      requires PartsValid()
      modifies `totalBytesLost
      ensures PartsValid()
      ensures State() == AfterLost(old(State()), bytesLost) && sendState == Remembered(old(State()), packetNumber)
    {
      hide BandwidthSampler.State, BandwidthSampler.PartsValid;
      var sent := Lookup(packetNumber);
      sendState := if sent.Some? then Some(sent.value.sendTimeState) else None;
      CountLost(bytesLost);
    }

    method CountLost(bytesLost: nat)
      requires PartsValid()
      modifies `totalBytesLost
      ensures PartsValid() && State() == AfterLost(old(State()), bytesLost)
    {
      totalBytesLost := totalBytesLost + bytesLost;
    }

    method OnPacketNeutered(packetNumber: nat)
      requires Valid()
      modifies `totalBytesNeutered, connectionStateMap, connectionStateMap.entries, connectionStateMap.entries.ring
      ensures Valid() && connectionStateMap.entries.ring == old(connectionStateMap.entries.ring)
      ensures State() == AfterNeutered(old(State()), packetNumber)
    {
      NeuteredIsSafe(State(), clock, packetNumber);
      hide Safe, AfterNeutered;
      Neuter(packetNumber);
    }

    method Neuter(packetNumber: nat)
      requires PartsValid()
      modifies `totalBytesNeutered, connectionStateMap, connectionStateMap.entries, connectionStateMap.entries.ring
      ensures PartsValid() && connectionStateMap.entries.ring == old(connectionStateMap.entries.ring)
      ensures State() == AfterNeutered(old(State()), packetNumber)
    {
      hide Untrack, BandwidthSampler.State, BandwidthSampler.PartsValid;
      var sent := Lookup(packetNumber);
      if sent.Some? {
        CountNeutered(sent.value.size);
        Forget(packetNumber);
      }
    }

    method CountNeutered(size: nat)
      requires PartsValid()
      modifies `totalBytesNeutered
      ensures PartsValid() && State() == old(State()).(neutered := old(State()).neutered + size)
    {
      totalBytesNeutered := totalBytesNeutered + size;
    }

    method Forget(packetNumber: nat)
      requires PartsValid() && packetNumber in State().tracked
      modifies connectionStateMap, connectionStateMap.entries, connectionStateMap.entries.ring
      ensures PartsValid() && connectionStateMap.entries.ring == old(connectionStateMap.entries.ring)
      ensures State() == Untrack(old(State()), old(State()).tracked - {packetNumber})
    {
      var _ := connectionStateMap.Remove(packetNumber);
    }

    method OnAppLimited()
      requires Valid()
      modifies `isAppLimited, `endOfAppLimitedPhase
      ensures Valid()
      ensures State() == old(State()).(isAppLimited := true, endOfAppLimitedPhase := old(State()).lastSentPacket)
    {
      AppLimitedIsSafe(State(), clock, lastSentPacket);
      hide Safe;
      isAppLimited := true;
      endOfAppLimitedPhase := lastSentPacket;
    }

    method RemoveObsoletePackets(leastUnacked: int)
      requires Valid()
      modifies connectionStateMap, connectionStateMap.entries, connectionStateMap.entries.ring
      ensures Valid() && connectionStateMap.entries.ring == old(connectionStateMap.entries.ring)
      ensures State() == AfterObsolete(old(State()), leastUnacked)
    {
      ObsoleteIsSafe(State(), clock, leastUnacked);
      assert forall n | n in State().tracked :: n >= 0;
      hide Safe;
      ForgetUpTo(leastUnacked);
    }

    method ForgetUpTo(leastUnacked: int)
      requires PartsValid() && forall n | n in State().tracked :: n >= 0
      modifies connectionStateMap, connectionStateMap.entries, connectionStateMap.entries.ring
      ensures PartsValid() && connectionStateMap.entries.ring == old(connectionStateMap.entries.ring)
      ensures State() == AfterObsolete(old(State()), leastUnacked)
    {
      ghost var tracked, first := connectionStateMap.Entries(), connectionStateMap.FirstPacket();
      RemovalIsExact(tracked, first, leastUnacked);
      connectionStateMap.RemoveUpTo(leastUnacked);
    }

    method OnAckEventEnd(extraAcked: int)
      requires Valid()
      modifies `totalBytesAckedAfterLastAckEvent, a0Candidates, a0Candidates.ring
      ensures Valid() && (a0Candidates.ring == old(a0Candidates.ring) || fresh(a0Candidates.ring))
      ensures State() == AfterAckEvent(old(State()), extraAcked)
    {
      AckEventIsSafe(State(), clock, extraAcked);
      hide Safe;
      var newlyAckedBytes := totalBytesAcked - totalBytesAckedAfterLastAckEvent;
      if newlyAckedBytes == 0 {
        return;
      }
      totalBytesAckedAfterLastAckEvent := totalBytesAcked;
      if overestimateAvoidance && extraAcked == 0 {
        a0Candidates.PushBack(recentAckPoints.LessRecentPoint());
      }
    }
  }
}
