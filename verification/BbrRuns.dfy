/** What runs of the BBR sender guarantee beyond the bounds of each state: how fast the window grows, how long
    PROBE_RTT lasts, and what it takes to leave recovery. */
module BbrRuns {
  import opened Basics
  import opened BbrSenders

  // ---- Growth of the window ----

  /** The window grows by no more than the bytes acknowledged and rests during PROBE_RTT; in recovery the
      recovery window admits as many bytes as were acknowledged on top of those in flight, and while packets are
      conserved it does not grow beyond that. */
  lemma WindowStep(u: Bbr, e: CongestionEvent)
    requires Underway(u)
    ensures var t, acked := WindowsUpdated(u, e), e.report.bytesAcked;
            && t.congestionWindow <= u.congestionWindow + acked
            && (u.mode == ProbeRtt ==> t.congestionWindow == u.congestionWindow)
            && (t.recoveryState != NotInRecovery ==> t.recoveryWindow >= t.bytesInFlight + acked)
            && (t.recoveryState == Conservation && u.recoveryWindow > 0 ==>
                  t.recoveryWindow <= Max(u.recoveryWindow, Max(t.minCongestionWindow, t.bytesInFlight + acked)))
  {
    hide TargetWindow, TotalBytes;
    assert u.minCongestionWindow >= u.maxDatagramSize;
  }

  lemma EventGrowth(s: Bbr, e: CongestionEvent)
    requires Good(s)
    ensures var t := AfterCongestion(s, e);
            && t.congestionWindow <= s.congestionWindow + e.report.bytesAcked
            && (t.mode == ProbeRtt ==> t.congestionWindow == s.congestionWindow)
            && (t.recoveryState != NotInRecovery ==> t.recoveryWindow >= t.bytesInFlight + e.report.bytesAcked)
  {
    StepsBeforeWindowsKeep(s, e);
    WindowStep(BeforeWindows(s, e), e);
    assert WindowsUpdated(BeforeWindows(s, e), e).mode == BeforeWindows(s, e).mode;
    hide BeforeWindows, AfterCongestion, WindowsUpdated;
  }

  function AckedBy(e: Event): nat {
    if e.Congestion? then e.event.report.bytesAcked else 0
  }

  /** The bytes acknowledged by the events from `i` to before `j`. */
  function AckedBytes(events: seq<Event>, i: nat, j: nat): nat
    requires i <= j <= |events|
  {
    if i == j then 0 else AckedBytes(events, i, j - 1) + AckedBy(events[j - 1])
  }

  /** Every step, except a change of the datagram size, grows the window by no more than it acknowledges. */
  ghost predicate GrowthRun(states: seq<Bbr>, events: seq<Event>) {
    && |states| == |events| + 1
    && forall i {:trigger events[i]} | 0 <= i < |events| && !events[i].DatagramSize? ::
         states[i + 1].congestionWindow <= states[i].congestionWindow + AckedBy(events[i])
  }

  lemma StepGrowth(s: Bbr, e: Event)
    requires Good(s) && !e.DatagramSize?
    ensures Next(s, e).congestionWindow <= s.congestionWindow + AckedBy(e)
  {
    if e.Congestion? {
      EventGrowth(s, e.event);
    }
    hide AfterCongestion, Good;
  }

  lemma RunGrows(states: seq<Bbr>, events: seq<Event>, datagramSize: int, cfg: Config)
    requires IsRun(states, events) && datagramSize > 0 && cfg.maxWindowPackets >= INITIAL_WINDOW_PACKETS
    requires states[0] == NewBbr(datagramSize, cfg)
    ensures GrowthRun(states, events)
  {
    hide Next, Allowed, NewBbr, Good;
    forall i | 0 <= i < |events| && !events[i].DatagramSize?
      ensures states[i + 1].congestionWindow <= states[i].congestionWindow + AckedBy(events[i])
    {
      RunStaysGood(states, events, datagramSize, cfg, i, i);
      StepGrowth(states[i], events[i]);
    }
  }

  lemma {:induction false} WindowGrowsFrom(states: seq<Bbr>, events: seq<Event>, i: nat, j: nat)
    requires GrowthRun(states, events) && i <= j <= |events| && forall k | i <= k < j :: !events[k].DatagramSize?
    ensures states[j].congestionWindow <= states[i].congestionWindow + AckedBytes(events, i, j)
    decreases j
  {
    if i < j {
      WindowGrowsFrom(states, events, i, j - 1);
    }
  }

  /** Between changes of the datagram size, the window of a run grows by no more than the bytes acknowledged. */
  lemma WindowGrowsByAcks(states: seq<Bbr>, events: seq<Event>, datagramSize: int, cfg: Config, i: nat, j: nat)
    requires IsRun(states, events) && datagramSize > 0 && cfg.maxWindowPackets >= INITIAL_WINDOW_PACKETS
    requires states[0] == NewBbr(datagramSize, cfg)
    requires i <= j <= |events| && forall k | i <= k < j :: !events[k].DatagramSize?
    ensures states[j].congestionWindow <= states[i].congestionWindow + AckedBytes(events, i, j)
  {
    RunGrows(states, events, datagramSize, cfg);
    hide IsRun, NewBbr, GrowthRun;
    WindowGrowsFrom(states, events, i, j);
  }

  // ---- Steps that leave PROBE_RTT and recovery alone ----

  predicate SameProbe(s: Bbr, t: Bbr) {
    t.exitProbeRttAt == s.exitProbeRttAt && (t.mode == ProbeRtt <==> s.mode == ProbeRtt)
    && t.minCongestionWindow == s.minCongestionWindow && t.cfg == s.cfg && t.bytesInFlight == s.bytesInFlight
  }

  predicate SameRecovery(s: Bbr, t: Bbr) {
    t.recoveryState == s.recoveryState && t.endRecoveryAt == s.endRecoveryAt && t.lastSentPacket == s.lastSentPacket
    && t.isAtFullBandwidth == s.isAtFullBandwidth
  }

  predicate Aside(s: Bbr, t: Bbr) {
    SameProbe(s, t) && t.recoveryState == s.recoveryState && t.endRecoveryAt == s.endRecoveryAt
    && t.lastSentPacket == s.lastSentPacket
  }

  lemma SampleAside(s: Bbr, r: Report)
    ensures Aside(s, SampleUsed(s, r))
  {
  }

  lemma MinRttAside(s: Bbr, now: int, sample: Option<int>)
    ensures Aside(s, MinRttUpdated(s, now, sample))
  {
  }

  lemma LossesAside(s: Bbr, lost: seq<PacketInfo>)
    ensures Aside(s, LossesCounted(s, lost))
  {
    hide TotalBytes;
  }

  lemma ModelAside(s: Bbr, e: CongestionEvent)
    ensures Aside(s, Modelled(s, e))
  {
    SampleAside(s, e.report);
    var t := SampleUsed(s, e.report);
    MinRttAside(t, e.time, e.report.sampleRtt);
    LossesAside(MinRttUpdated(t, e.time, e.report.sampleRtt), e.lost);
    hide SampleUsed, MinRttUpdated, LossesCounted;
  }

  lemma FullBandwidthAside(s: Bbr, sent: Option<SendState>)
    ensures Aside(s, FullBandwidthChecked(s, sent))
  {
    hide ExitsStartupDueToLoss;
  }

  lemma StartupOrDrainAside(s: Bbr, rttStatsMin: int)
    ensures Aside(s, StartupOrDrainExited(s, rttStatsMin))
  {
    hide TargetWindow;
  }

  lemma WindowAside(s: Bbr, e: CongestionEvent)
    ensures Aside(s, WindowCalculated(s, e))
  {
    hide TargetWindow;
  }

  lemma RecoveryWindowAside(s: Bbr, bytesAcked: nat, bytesLost: nat)
    ensures Aside(s, RecoveryWindowCalculated(s, bytesAcked, bytesLost))
  {
  }

  lemma CountersAside(s: Bbr, isRoundStart: bool)
    ensures Aside(s, RoundCountersReset(s, isRoundStart))
  {
  }

  lemma WindowsAside(s: Bbr, e: CongestionEvent, isRoundStart: bool)
    ensures Aside(s, RoundCountersReset(WindowsUpdated(s, e), isRoundStart))
  {
    WindowAside(s, e);
    RecoveryWindowAside(WindowCalculated(s, e), e.report.bytesAcked, TotalBytes(e.lost));
    CountersAside(WindowsUpdated(s, e), isRoundStart);
    hide WindowCalculated, RecoveryWindowCalculated, RoundCountersReset;
  }

  /** The mode step up to PROBE_RTT. */
  function BeforeProbe(s: Bbr, e: CongestionEvent, isRoundStart: bool): Bbr {
    StartupOrDrainExited(if isRoundStart && !s.isAtFullBandwidth
                         then FullBandwidthChecked(s, e.report.lastPacketSendState) else s,
                         e.rttStatsMin)
  }

  lemma BeforeProbeAside(s: Bbr, e: CongestionEvent, isRoundStart: bool)
    ensures Aside(s, BeforeProbe(s, e, isRoundStart))
  {
    FullBandwidthAside(s, e.report.lastPacketSendState);
    StartupOrDrainAside(s, e.rttStatsMin);
    StartupOrDrainAside(FullBandwidthChecked(s, e.report.lastPacketSendState), e.rttStatsMin);
    hide FullBandwidthChecked, StartupOrDrainExited;
  }

  // ---- The length of PROBE_RTT ----

  lemma AcksSameProbe(s: Bbr, e: CongestionEvent)
    ensures SameProbe(s, AcksSeen(s, e))
  {
    if e.acked != [] {
      var last := e.acked[|e.acked| - 1].number;
      RoundSameProbe(s, last);
      RecoverySameProbe(RoundUpdated(s, last), last, e.lost != [], StartsRound(s, last));
      hide RoundUpdated, RecoveryUpdated;
    }
  }

  lemma RoundSameProbe(s: Bbr, last: int)
    ensures Aside(s, RoundUpdated(s, last)) && RoundUpdated(s, last).isAtFullBandwidth == s.isAtFullBandwidth
  {
  }

  lemma RecoverySameProbe(s: Bbr, last: int, hasLosses: bool, isRoundStart: bool)
    ensures SameProbe(s, RecoveryUpdated(s, last, hasLosses, isRoundStart))
  {
  }

  /** How one step moves through PROBE_RTT: the end is set once, 200 milliseconds ahead, when the bytes in flight
      have drained, and it is the earliest time to leave. */
  predicate ProbeMoves(s: Bbr, t: Bbr, now: int) {
    && (s.mode != ProbeRtt && t.mode == ProbeRtt ==> t.exitProbeRttAt == 0 || t.exitProbeRttAt == now + PROBE_RTT_TIME)
    && (s.mode == ProbeRtt && t.mode == ProbeRtt ==>
          t.exitProbeRttAt == s.exitProbeRttAt || (s.exitProbeRttAt == 0 && t.exitProbeRttAt == now + PROBE_RTT_TIME))
    && (t.mode == ProbeRtt && t.exitProbeRttAt != 0 && (s.mode != ProbeRtt || s.exitProbeRttAt == 0) ==>
          t.bytesInFlight < t.minCongestionWindow + t.cfg.maxPacketBufferSize)
    && (s.mode == ProbeRtt && t.mode != ProbeRtt ==> s.exitProbeRttAt != 0 && now >= s.exitProbeRttAt)
  }

  lemma CheckMoves(s: Bbr, now: int, isRoundStart: bool, minRttExpired: bool)
    ensures ProbeMoves(s, ProbeRttChecked(s, now, isRoundStart, minRttExpired), now)
  {
  }

  lemma MovesAcross(s: Bbr, t: Bbr, u: Bbr, v: Bbr, now: int)
    requires SameProbe(s, t) && ProbeMoves(t, u, now) && SameProbe(u, v)
    ensures ProbeMoves(s, v, now)
  {
  }

  lemma SameProbeAcross(s: Bbr, t: Bbr, u: Bbr, v: Bbr)
    requires SameProbe(s, t) && Aside(t, u) && Aside(u, v)
    ensures SameProbe(s, v)
  {
  }

  lemma EventMoves(s: Bbr, e: CongestionEvent)
    ensures ProbeMoves(InFlightUpdated(s, e), AfterCongestion(s, e), e.time)
  {
    var s0, isRoundStart := InFlightUpdated(s, e), RoundStartOf(s, e);
    var s1 := AcksSeen(s0, e);
    var s2, expired := Modelled(s1, e), e.report.sampleRtt.Some? && MinRttExpired(s1, e.time);
    var s3 := BeforeProbe(s2, e, isRoundStart);
    var s4 := ProbeRttChecked(s3, e.time, isRoundStart, expired);
    AcksSameProbe(s0, e);
    ModelAside(s1, e);
    BeforeProbeAside(s2, e, isRoundStart);
    SameProbeAcross(s0, s1, s2, s3);
    CheckMoves(s3, e.time, isRoundStart, expired);
    WindowsAside(s4, e, isRoundStart);
    assert BeforeWindows(s, e) == s4;
    hide *;
    MovesAcross(s0, s3, s4, RoundCountersReset(WindowsUpdated(s4, e), isRoundStart), e.time) by {
      assert Aside(s4, RoundCountersReset(WindowsUpdated(s4, e), isRoundStart));
      AsideIsSameProbe(s4, RoundCountersReset(WindowsUpdated(s4, e), isRoundStart));
    }
  }

  lemma AsideIsSameProbe(s: Bbr, t: Bbr)
    requires Aside(s, t)
    ensures SameProbe(s, t)
  {
  }

  /** The same for any event of a run; only congestion events move the mode. */
  predicate MovesOn(s: Bbr, t: Bbr, e: Event) {
    if e.Congestion? then ProbeMoves(s.(bytesInFlight := t.bytesInFlight), t, e.event.time)
    else t.mode == s.mode && t.exitProbeRttAt == s.exitProbeRttAt
  }

  lemma NextMovesOn(s: Bbr, e: Event)
    requires s.maxDatagramSize > 0
    ensures MovesOn(s, Next(s, e), e)
  {
    match e
    case Congestion(event) =>
      EventMoves(s, event);
      hide AfterCongestion;
    case Sent(_, _) =>
    case DatagramSize(_) =>
  }

  /** The congestion events come in time order, after the start of the clock. */
  ghost predicate InTime(events: seq<Event>) {
    && (forall i | 0 <= i < |events| && events[i].Congestion? :: events[i].event.time >= 0)
    && forall i, j | 0 <= i < j < |events| && events[i].Congestion? && events[j].Congestion? ::
         events[i].event.time <= events[j].event.time
  }

  /** The sender is in PROBE_RTT from after event `a` until before event `b`. */
  ghost predicate ProbesBetween(states: seq<Bbr>, a: nat, b: nat)
    requires a < b < |states|
  {
    states[a].mode != ProbeRtt && forall k | a < k <= b :: states[k].mode == ProbeRtt
  }

  lemma {:induction false} ProbeEndIsFar(states: seq<Bbr>, events: seq<Event>, a: nat, b: nat)
    requires IsRun(states, events) && InTime(events) && a < b <= |events| && ProbesBetween(states, a, b)
    ensures events[a].Congestion?
    ensures states[b].exitProbeRttAt == 0 || states[b].exitProbeRttAt >= events[a].event.time + PROBE_RTT_TIME
    decreases b
  {
    hide Next, Allowed;
    if b - 1 > a {
      ProbeEndIsFar(states, events, a, b - 1);
    }
    assert states[b - 1 + 1] == Next(states[b - 1], events[b - 1]);
    NextMovesOn(states[b - 1], events[b - 1]);
  }

  /** PROBE_RTT lasts at least 200 milliseconds. */
  lemma ProbeRttLasts(states: seq<Bbr>, events: seq<Event>, a: nat, b: nat)
    requires IsRun(states, events) && InTime(events) && a < b < |events| && ProbesBetween(states, a, b)
    requires states[b + 1].mode != ProbeRtt
    ensures events[a].Congestion? && events[b].Congestion?
    ensures events[b].event.time >= events[a].event.time + PROBE_RTT_TIME
  {
    hide Next, Allowed;
    ProbeEndIsFar(states, events, a, b);
    assert states[b + 1] == Next(states[b], events[b]);
    NextMovesOn(states[b], events[b]);
  }

  // ---- Recovery ----

  function LastAcked(e: CongestionEvent): int
    requires e.acked != []
  {
    e.acked[|e.acked| - 1].number
  }

  lemma EnteredAside(s: Bbr, minRttExpired: bool)
    ensures SameRecovery(s, ProbeRttEntered(s, minRttExpired))
  {
  }

  lemma AdvancedAside(s: Bbr, now: int, isRoundStart: bool)
    ensures SameRecovery(s, ProbeRttAdvanced(s, now, isRoundStart))
  {
  }

  lemma CheckSameRecovery(s: Bbr, now: int, isRoundStart: bool, minRttExpired: bool)
    ensures SameRecovery(s, ProbeRttChecked(s, now, isRoundStart, minRttExpired))
  {
    EnteredAside(s, minRttExpired);
    AdvancedAside(ProbeRttEntered(s, minRttExpired), now, isRoundStart);
    hide ProbeRttEntered, ProbeRttAdvanced;
  }

  /** What acknowledgements and losses of one event do to recovery. */
  predicate RecoveryMoves(s: Bbr, t: Bbr, e: CongestionEvent) {
    && (s.recoveryState == NotInRecovery ==>
          (t.recoveryState != NotInRecovery <==> s.isAtFullBandwidth && e.acked != [] && e.lost != []))
    && (s.recoveryState != NotInRecovery ==>
          (t.recoveryState == NotInRecovery <==> e.acked != [] && e.lost == [] && LastAcked(e) > s.endRecoveryAt))
    && t.endRecoveryAt ==
       (if s.isAtFullBandwidth && e.acked != [] && e.lost != [] then s.lastSentPacket else s.endRecoveryAt)
    && t.lastSentPacket == s.lastSentPacket
  }

  lemma AcksMove(s: Bbr, e: CongestionEvent)
    requires s.recoveryState != NotInRecovery ==> s.isAtFullBandwidth
    ensures RecoveryMoves(s, AcksSeen(s, e), e)
  {
    if e.acked != [] {
      RoundSameProbe(s, LastAcked(e));
      RecoveryStep(RoundUpdated(s, LastAcked(e)), e, StartsRound(s, LastAcked(e)));
      hide RoundUpdated, RecoveryUpdated;
    }
  }

  lemma RecoveryStep(s: Bbr, e: CongestionEvent, isRoundStart: bool)
    requires e.acked != [] && (s.recoveryState != NotInRecovery ==> s.isAtFullBandwidth)
    ensures RecoveryMoves(s, RecoveryUpdated(s, LastAcked(e), e.lost != [], isRoundStart), e)
  {
  }

  lemma RecoveryAcross(r: Bbr, s: Bbr, t: Bbr, u: Bbr, v: Bbr, w: Bbr, e: CongestionEvent)
    requires RecoveryMoves(r, s, e) && Aside(s, t) && Aside(t, u) && SameRecovery(u, v) && Aside(v, w)
    ensures RecoveryMoves(r, w, e)
  {
  }

  /** Recovery begins exactly with an event that has both losses and acknowledgements, at full bandwidth, and ends
      exactly with a loss-free one that acknowledges a packet sent after the last losses were seen. */
  lemma EventRecoveryMoves(s: Bbr, e: CongestionEvent)
    requires ModesInOrder(s)
    ensures RecoveryMoves(s, AfterCongestion(s, e), e)
  {
    var s0, isRoundStart := InFlightUpdated(s, e), RoundStartOf(s, e);
    var s1 := AcksSeen(s0, e);
    var s2, expired := Modelled(s1, e), e.report.sampleRtt.Some? && MinRttExpired(s1, e.time);
    var s3 := BeforeProbe(s2, e, isRoundStart);
    var s4 := ProbeRttChecked(s3, e.time, isRoundStart, expired);
    var s5 := RoundCountersReset(WindowsUpdated(s4, e), isRoundStart);
    AcksMove(s0, e);
    ModelAside(s1, e);
    BeforeProbeAside(s2, e, isRoundStart);
    CheckSameRecovery(s3, e.time, isRoundStart, expired);
    WindowsAside(s4, e, isRoundStart);
    assert BeforeWindows(s, e) == s4;
    SameStart(s, e, s1);
    hide *;
    RecoveryAcross(s, s1, s2, s3, s4, s5, e);
  }

  lemma SameStart(s: Bbr, e: CongestionEvent, t: Bbr)
    requires RecoveryMoves(InFlightUpdated(s, e), t, e)
    ensures RecoveryMoves(s, t, e)
  {
    hide TotalBytes;
  }

  predicate RecoversOn(s: Bbr, t: Bbr, e: Event) {
    match e
    case Congestion(event) => RecoveryMoves(s, t, event)
    case Sent(_, packetNumber) =>
      t.recoveryState == s.recoveryState && t.endRecoveryAt == s.endRecoveryAt && t.lastSentPacket == packetNumber
    case DatagramSize(_) =>
      t.recoveryState == s.recoveryState && t.endRecoveryAt == s.endRecoveryAt && t.lastSentPacket == s.lastSentPacket
  }

  lemma NextRecoversOn(s: Bbr, e: Event)
    requires s.maxDatagramSize > 0 && ModesInOrder(s)
    ensures RecoversOn(s, Next(s, e), e)
  {
    match e
    case Congestion(event) =>
      EventRecoveryMoves(s, event);
      hide AfterCongestion;
    case Sent(_, _) =>
    case DatagramSize(_) =>
  }

  /** What a run does to recovery, with packet numbers that rise from one send to the next. */
  ghost predicate RecoveryRun(states: seq<Bbr>, events: seq<Event>) {
    && |states| == |events| + 1
    && forall i {:trigger events[i]} | 0 <= i < |events| ::
         RecoversOn(states[i], states[i + 1], events[i])
         && (events[i].Sent? ==> states[i].lastSentPacket <= events[i].packetNumber)
  }

  lemma RunRecovers(states: seq<Bbr>, events: seq<Event>, datagramSize: int, cfg: Config)
    requires IsRun(states, events) && datagramSize > 0 && cfg.maxWindowPackets >= INITIAL_WINDOW_PACKETS
    requires states[0] == NewBbr(datagramSize, cfg)
    requires forall i | 0 <= i < |events| && events[i].Sent? :: states[i].lastSentPacket <= events[i].packetNumber
    ensures RecoveryRun(states, events)
  {
    hide Next, Allowed, NewBbr, RecoversOn;
    forall i | 0 <= i < |events| ensures RecoversOn(states[i], states[i + 1], events[i]) {
      RunStaysGood(states, events, datagramSize, cfg, i, i);
      NextRecoversOn(states[i], events[i]);
    }
  }

  /** Event `a` of the run has losses and acknowledgements, at full bandwidth. */
  ghost predicate LosesAt(states: seq<Bbr>, events: seq<Event>, a: nat)
    requires a < |events| < |states|
  {
    events[a].Congestion? && events[a].event.acked != [] && events[a].event.lost != [] && states[a].isAtFullBandwidth
  }

  lemma EndStaysLate(s: Bbr, t: Bbr, e: Event, limit: int)
    requires RecoversOn(s, t, e) && limit <= s.lastSentPacket && (e.Sent? ==> s.lastSentPacket <= e.packetNumber)
    requires limit <= s.endRecoveryAt
             || (e.Congestion? && e.event.acked != [] && e.event.lost != [] && s.isAtFullBandwidth)
    ensures limit <= t.endRecoveryAt && limit <= t.lastSentPacket
  {
  }

  lemma {:induction false} RecoveryEndIsLate(states: seq<Bbr>, events: seq<Event>, a: nat, b: nat)
    requires RecoveryRun(states, events) && a < b <= |events| && LosesAt(states, events, a)
    ensures states[a].lastSentPacket <= states[b].endRecoveryAt && states[a].lastSentPacket <= states[b].lastSentPacket
    decreases b
  {
    hide RecoversOn;
    if b - 1 > a {
      RecoveryEndIsLate(states, events, a, b - 1);
    }
    EndStaysLate(states[b - 1], states[b - 1 + 1], events[b - 1], states[a].lastSentPacket);
  }

  /** Once losses are seen at full bandwidth, recovery is not left before a packet sent later is acknowledged, by an
      event without losses. */
  lemma RecoveryOutlastsLosses(states: seq<Bbr>, events: seq<Event>, a: nat, b: nat)
    requires RecoveryRun(states, events) && a < b < |events| && LosesAt(states, events, a)
    requires states[b].recoveryState != NotInRecovery && states[b + 1].recoveryState == NotInRecovery
    ensures events[b].Congestion? && events[b].event.acked != [] && events[b].event.lost == []
    ensures LastAcked(events[b].event) > states[a].lastSentPacket
  {
    RecoveryEndIsLate(states, events, a, b);
    assert RecoversOn(states[b], states[b + 1], events[b]);
  }
}
