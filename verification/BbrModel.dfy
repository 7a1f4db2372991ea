/** How the BBR sender models its path: rounds, the estimates of bandwidth and round-trip time, the end of startup, the
    modes and the recovery window, from the state before an event to the state after it. */
module BbrModels {
  import opened Basics
  import opened WindowedFilters
  import opened BbrSenders
  import opened BbrRuns
  import opened BbrWindows

  // ---- What each step leaves alone ----

  predicate SameRound(s: Bbr, t: Bbr) {
    && t.roundTripCount == s.roundTripCount && t.currentRoundTripEnd == s.currentRoundTripEnd
    && t.lastSentPacket == s.lastSentPacket && t.bytesInFlight == s.bytesInFlight
  }

  predicate SameModel(s: Bbr, t: Bbr) {
    t.filter == s.filter && t.lastSampleIsAppLimited == s.lastSampleIsAppLimited && t.minRtt == s.minRtt
  }

  predicate SameStalls(s: Bbr, t: Bbr) {
    && t.roundsWithoutBandwidthGain == s.roundsWithoutBandwidthGain && t.bandwidthAtLastRound == s.bandwidthAtLastRound
    && t.isAtFullBandwidth == s.isAtFullBandwidth && SameLeast(s, t)
  }

  predicate SameLeast(s: Bbr, t: Bbr) {
    && t.cfg == s.cfg && t.initialCongestionWindow == s.initialCongestionWindow
    && t.minCongestionWindow == s.minCongestionWindow
  }

  predicate SameLosses(s: Bbr, t: Bbr) {
    t.numLossEventsInRound == s.numLossEventsInRound && t.bytesLostInRound == s.bytesLostInRound
  }

  predicate SameMode(s: Bbr, t: Bbr) {
    && t.mode == s.mode && t.exitProbeRttAt == s.exitProbeRttAt && t.probeRttRoundPassed == s.probeRttRoundPassed
    && t.exitingQuiescence == s.exitingQuiescence && t.minRttTimestamp == s.minRttTimestamp
  }

  predicate SameButRound(s: Bbr, t: Bbr) {
    SameModel(s, t) && SameStalls(s, t) && SameLosses(s, t) && SameMode(s, t)
  }

  lemma RoundUpdatedAlone(s: Bbr, last: int)
    ensures SameButRound(s, RoundUpdated(s, last))
  {
  }

  lemma RecoveryUpdatedAlone(s: Bbr, last: int, hasLosses: bool, isRoundStart: bool)
    ensures SameButRound(s, RecoveryUpdated(s, last, hasLosses, isRoundStart))
  {
    var t := RecoveryUpdated(s, last, hasLosses, isRoundStart);
    assert t == s.(endRecoveryAt := t.endRecoveryAt, recoveryState := t.recoveryState,
                   recoveryWindow := t.recoveryWindow, currentRoundTripEnd := t.currentRoundTripEnd);
    hide RecoveryUpdated;
  }

  lemma AcksSeenAlone(s: Bbr, e: CongestionEvent)
    ensures SameButRound(s, AcksSeen(s, e))
  {
    if e.acked != [] {
      RoundUpdatedAlone(s, LastAcked(e));
      RecoveryUpdatedAlone(RoundUpdated(s, LastAcked(e)), LastAcked(e), e.lost != [], StartsRound(s, LastAcked(e)));
      hide RoundUpdated, RecoveryUpdated;
    }
  }

  lemma SampleUsedAlone(s: Bbr, r: Report)
    ensures var t := SampleUsed(s, r);
            SameRound(s, t) && SameStalls(s, t) && SameLosses(s, t) && SameMode(s, t) && t.minRtt == s.minRtt
  {
    hide Updated;
  }

  lemma MinRttUpdatedAlone(s: Bbr, now: int, sample: Option<int>)
    ensures var t := MinRttUpdated(s, now, sample);
            && SameRound(s, t) && SameStalls(s, t) && SameLosses(s, t)
            && SameMode(s.(minRttTimestamp := t.minRttTimestamp), t)
            && t.filter == s.filter && t.lastSampleIsAppLimited == s.lastSampleIsAppLimited
  {
  }

  lemma LossesCountedAlone(s: Bbr, lost: seq<PacketInfo>)
    ensures var t := LossesCounted(s, lost); SameRound(s, t) && SameModel(s, t) && SameStalls(s, t) && SameMode(s, t)
  {
    hide TotalBytes;
  }

  lemma FullBandwidthCheckedAlone(s: Bbr, sent: Option<SendState>)
    ensures var t := FullBandwidthChecked(s, sent);
            SameRound(s, t) && SameModel(s, t) && SameLosses(s, t) && SameMode(s, t) && SameLeast(s, t)
  {
    hide ExitsStartupDueToLoss;
  }

  lemma StartupOrDrainExitedAlone(s: Bbr, rttStatsMin: int)
    ensures var t := StartupOrDrainExited(s, rttStatsMin);
            && SameRound(s, t) && SameModel(s, t) && SameStalls(s, t) && SameLosses(s, t)
            && SameMode(s.(mode := t.mode), t)
  {
    hide TargetWindow;
  }

  lemma ProbeRttEnteredAlone(s: Bbr, minRttExpired: bool)
    ensures var t := ProbeRttEntered(s, minRttExpired);
            SameRound(s, t) && SameModel(s, t) && SameStalls(s, t) && SameLosses(s, t)
  {
  }

  lemma ProbeRttLeftAlone(s: Bbr, now: int)
    ensures var t := ProbeRttLeft(s, now); SameRound(s, t) && SameModel(s, t) && SameStalls(s, t) && SameLosses(s, t)
  {
  }

  lemma ProbeRttAdvancedAlone(s: Bbr, now: int, isRoundStart: bool)
    ensures var t := ProbeRttAdvanced(s, now, isRoundStart);
            SameRound(s, t) && SameModel(s, t) && SameStalls(s, t) && SameLosses(s, t)
  {
    ProbeRttLeftAlone(s, now);
    ProbeRttLeftAlone(s.(probeRttRoundPassed := true), now);
    hide ProbeRttLeft;
  }

  lemma ProbeRttCheckedAlone(s: Bbr, now: int, isRoundStart: bool, minRttExpired: bool)
    ensures var t := ProbeRttChecked(s, now, isRoundStart, minRttExpired);
            SameRound(s, t) && SameModel(s, t) && SameStalls(s, t) && SameLosses(s, t)
  {
    ProbeRttEnteredAlone(s, minRttExpired);
    ProbeRttAdvancedAlone(ProbeRttEntered(s, minRttExpired), now, isRoundStart);
    hide ProbeRttEntered, ProbeRttAdvanced;
  }

  lemma WindowsUpdatedAlone(s: Bbr, e: CongestionEvent)
    ensures SameRound(s, WindowsUpdated(s, e)) && SameButRound(s, WindowsUpdated(s, e))
  {
    WindowCalculatedAlone(s, e);
    RecoveryWindowAlone(WindowCalculated(s, e), e.report.bytesAcked, TotalBytes(e.lost));
    hide WindowCalculated, RecoveryWindowCalculated;
  }

  lemma WindowCalculatedAlone(s: Bbr, e: CongestionEvent)
    ensures SameRound(s, WindowCalculated(s, e)) && SameButRound(s, WindowCalculated(s, e))
  {
    hide TargetWindow;
  }

  lemma RecoveryWindowAlone(s: Bbr, bytesAcked: nat, bytesLost: nat)
    ensures var t := RecoveryWindowCalculated(s, bytesAcked, bytesLost); SameRound(s, t) && SameButRound(s, t)
  {
    var t := RecoveryWindowCalculated(s, bytesAcked, bytesLost);
    assert t == s.(recoveryWindow := t.recoveryWindow);
    hide RecoveryWindowCalculated;
  }

  lemma CountersResetAlone(s: Bbr, isRoundStart: bool)
    ensures var t := RoundCountersReset(s, isRoundStart);
            SameRound(s, t) && SameModel(s, t) && SameStalls(s, t) && SameMode(s, t)
  {
  }

  // ---- The steps of an event ----

  /** After the acknowledgements, the samples and losses, the exit from startup or draining, and PROBE_RTT. */
  datatype Steps = Steps(acks: Bbr, model: Bbr, drain: Bbr, probe: Bbr)

  function StepsOf(s: Bbr, e: CongestionEvent): Steps {
    var acks := AcksSeen(InFlightUpdated(s, e), e);
    var model := Modelled(acks, e);
    var drain := BeforeProbe(model, e, RoundStartOf(s, e));
    Steps(acks, model, drain,
          ProbeRttChecked(drain, e.time, RoundStartOf(s, e), e.report.sampleRtt.Some? && MinRttExpired(acks, e.time)))
  }

  ghost predicate StepsAlone(s: Bbr, i: Steps, t: Bbr) {
    && SameButRound(s, i.acks)
    && SameRound(i.acks, i.model) && SameStalls(i.acks, i.model)
    && SameMode(i.acks.(minRttTimestamp := i.model.minRttTimestamp), i.model)
    && SameRound(i.model, i.drain) && SameModel(i.model, i.drain) && SameLosses(i.model, i.drain)
    && SameLeast(i.model, i.drain) && SameMode(i.model.(mode := i.drain.mode), i.drain)
    && SameRound(i.drain, i.probe) && SameModel(i.drain, i.probe) && SameStalls(i.drain, i.probe)
    && SameLosses(i.drain, i.probe)
    && SameRound(i.probe, t) && SameModel(i.probe, t) && SameStalls(i.probe, t) && SameMode(i.probe, t)
  }

  lemma ModelledAlone(s: Bbr, e: CongestionEvent)
    ensures var t := Modelled(s, e);
            SameRound(s, t) && SameStalls(s, t) && SameMode(s.(minRttTimestamp := t.minRttTimestamp), t)
  {
    var a := SampleUsed(s, e.report);
    var b := MinRttUpdated(a, e.time, e.report.sampleRtt);
    SampleUsedAlone(s, e.report);
    MinRttUpdatedAlone(a, e.time, e.report.sampleRtt);
    LossesCountedAlone(b, e.lost);
    hide SampleUsed, MinRttUpdated, LossesCounted, SameModel, SameLosses;
  }

  lemma BeforeProbeAlone(s: Bbr, e: CongestionEvent, isRoundStart: bool)
    ensures var t := BeforeProbe(s, e, isRoundStart);
            && SameRound(s, t) && SameModel(s, t) && SameLosses(s, t) && SameLeast(s, t)
            && SameMode(s.(mode := t.mode), t)
  {
    var a := if isRoundStart && !s.isAtFullBandwidth then FullBandwidthChecked(s, e.report.lastPacketSendState) else s;
    FullBandwidthCheckedAlone(s, e.report.lastPacketSendState);
    StartupOrDrainExitedAlone(a, e.rttStatsMin);
    hide FullBandwidthChecked, StartupOrDrainExited;
  }

  lemma EndAlone(s: Bbr, e: CongestionEvent, isRoundStart: bool)
    ensures var t := RoundCountersReset(WindowsUpdated(s, e), isRoundStart);
            SameRound(s, t) && SameModel(s, t) && SameStalls(s, t) && SameMode(s, t)
  {
    WindowsUpdatedAlone(s, e);
    CountersResetAlone(WindowsUpdated(s, e), isRoundStart);
    hide WindowsUpdated, RoundCountersReset, SameLosses;
  }

  lemma InFlightAlone(s: Bbr, e: CongestionEvent)
    ensures SameButRound(s, InFlightUpdated(s, e))
  {
    hide TotalBytes;
  }

  lemma EventAlone(s: Bbr, e: CongestionEvent)
    ensures StepsAlone(s, StepsOf(s, e), AfterCongestion(s, e))
    ensures AfterCongestion(s, e) == RoundCountersReset(WindowsUpdated(StepsOf(s, e).probe, e), RoundStartOf(s, e))
  {
    var i := StepsOf(s, e);
    InFlightAlone(s, e);
    AcksSeenAlone(InFlightUpdated(s, e), e);
    ModelledAlone(i.acks, e);
    BeforeProbeAlone(i.model, e, RoundStartOf(s, e));
    ProbeRttCheckedAlone(i.drain, e.time, RoundStartOf(s, e),
        e.report.sampleRtt.Some? && MinRttExpired(i.acks, e.time));
    EndAlone(i.probe, e, RoundStartOf(s, e));
    assert BeforeWindows(s, e) == i.probe;
    hide InFlightUpdated, AcksSeen, Modelled, BeforeProbe, ProbeRttChecked, RoundCountersReset, WindowsUpdated,
         BeforeWindows, RoundStartOf, SameRound, SameModel, SameStalls, SameMode, SameLosses, SameLeast,
         MinRttExpired;
    SameButRoundTransitive(s, InFlightUpdated(s, e), i.acks);
  }

  lemma SameButRoundTransitive(s: Bbr, t: Bbr, u: Bbr)
    requires SameButRound(s, t) && SameButRound(t, u)
    ensures SameButRound(s, u)
  {
  }

  // ---- Rounds ----

  /** The event acknowledges a packet sent after the end of the round, or no round has begun. */
  ghost predicate StartsAt(s: Bbr, e: CongestionEvent) {
    e.acked != [] && (s.currentRoundTripEnd == -1 || LastAcked(e) > s.currentRoundTripEnd)
  }

  ghost predicate EntersRecovery(s: Bbr, e: CongestionEvent) {
    s.isAtFullBandwidth && s.recoveryState == NotInRecovery && e.acked != [] && e.lost != []
  }

  /** The rounds are counted, and the end of a round moves to the packet sent last at the start of a round and when
      recovery is entered. */
  ghost predicate RoundMoves(s: Bbr, t: Bbr, e: CongestionEvent) {
    && t.roundTripCount == s.roundTripCount + (if StartsAt(s, e) then 1 else 0)
    && t.currentRoundTripEnd ==
       (if StartsAt(s, e) || EntersRecovery(s, e) then s.lastSentPacket else s.currentRoundTripEnd)
    && t.lastSentPacket == s.lastSentPacket
    && t.bytesInFlight + TotalBytes(e.acked) + TotalBytes(e.lost) == e.priorInFlight
  }

  /** Recovery begins by conserving packets, and goes over to growth at the start of a round. */
  ghost predicate ConservationMoves(s: Bbr, t: Bbr, e: CongestionEvent) {
    && (EntersRecovery(s, e) ==> t.recoveryState == Conservation)
    && (t.recoveryState == Conservation ==>
          EntersRecovery(s, e) || (s.recoveryState == Conservation && !StartsAt(s, e)))
    && (s.recoveryState == Conservation && StartsAt(s, e) ==> t.recoveryState != Conservation)
    && (t.recoveryState == Growth ==> s.recoveryState == Growth || (s.recoveryState == Conservation && StartsAt(s, e)))
  }

  lemma AcksMoveRound(s: Bbr, e: CongestionEvent)
    requires s.recoveryState != NotInRecovery ==> s.isAtFullBandwidth
    ensures var t := AcksSeen(InFlightUpdated(s, e), e); RoundMoves(s, t, e) && ConservationMoves(s, t, e)
  {
    hide TotalBytes;
  }

  lemma SameRecoveryState(s: Bbr, e: CongestionEvent)
    ensures AfterCongestion(s, e).recoveryState == StepsOf(s, e).acks.recoveryState
  {
    var i, isRoundStart := StepsOf(s, e), RoundStartOf(s, e);
    ModelAside(i.acks, e);
    BeforeProbeAside(i.model, e, isRoundStart);
    CheckSameRecovery(i.drain, e.time, isRoundStart, e.report.sampleRtt.Some? && MinRttExpired(i.acks, e.time));
    WindowsAside(i.probe, e, isRoundStart);
    assert AfterCongestion(s, e) == RoundCountersReset(WindowsUpdated(i.probe, e), isRoundStart);
    hide AcksSeen, Modelled, BeforeProbe, ProbeRttChecked, AfterCongestion, RoundCountersReset, WindowsUpdated,
         RoundStartOf, InFlightUpdated, MinRttExpired;
  }

  lemma EventMovesRound(s: Bbr, e: CongestionEvent)
    requires s.recoveryState != NotInRecovery ==> s.isAtFullBandwidth
    ensures RoundMoves(s, AfterCongestion(s, e), e) && ConservationMoves(s, AfterCongestion(s, e), e)
  {
    EventAlone(s, e);
    AcksMoveRound(s, e);
    SameRecoveryState(s, e);
    var i := StepsOf(s, e);
    assert i.acks == AcksSeen(InFlightUpdated(s, e), e);
    hide AfterCongestion, StepsOf, AcksSeen, InFlightUpdated, SameModel, SameStalls, SameMode, SameLosses, SameButRound,
         TotalBytes, StartsAt, EntersRecovery;
  }

  // ---- The estimates ----

  /** The bandwidth of an event counts when bytes were acknowledged, unless the sender had too little to send; then it
      counts only if it exceeds the estimate. */
  ghost predicate CountsSample(s: Bbr, e: CongestionEvent) {
    e.report.bytesAcked > 0 && (e.report.sampleIsAppLimited ==> e.report.sampleMaxBandwidth > s.filter.e0.sample)
  }

  /** The minimum round-trip time is more than ten seconds old. */
  ghost predicate MinRttIsOld(s: Bbr, e: CongestionEvent) {
    s.minRtt != 0 && e.time > s.minRttTimestamp + 10_000_000_000
  }

  /** A sample that counts enters the filter with the number of its round; the minimum round-trip time is the lesser of
      the old one and the sample, or the sample alone if the old one is unset or too old. */
  ghost predicate EstimatesMove(s: Bbr, t: Bbr, e: CongestionEvent) {
    && t.filter == (if CountsSample(s, e) then Updated(s.filter, e.report.sampleMaxBandwidth, t.roundTripCount)
                    else s.filter)
    && t.lastSampleIsAppLimited ==
       (match e.report.lastPacketSendState case Some(state) => state.isAppLimited case None => s.lastSampleIsAppLimited)
    && t.minRtt == match e.report.sampleRtt {
                     case None => s.minRtt
                     case Some(rtt) => if s.minRtt == 0 || MinRttIsOld(s, e) then rtt else Min(s.minRtt, rtt)
                   }
  }

  lemma SampleMovesFilter(s: Bbr, e: CongestionEvent)
    ensures var t := SampleUsed(s, e.report);
            && t.filter == (if CountsSample(s, e) then Updated(s.filter, e.report.sampleMaxBandwidth, s.roundTripCount)
                            else s.filter)
            && t.lastSampleIsAppLimited ==
               (match e.report.lastPacketSendState
                case Some(state) => state.isAppLimited
                case None => s.lastSampleIsAppLimited)
  {
    hide Updated;
  }

  lemma RttMovesMinimum(s: Bbr, e: CongestionEvent)
    ensures var t, sample := MinRttUpdated(s, e.time, e.report.sampleRtt), e.report.sampleRtt;
            if sample.Some? && (s.minRtt == 0 || MinRttIsOld(s, e) || sample.value < s.minRtt)
            then t.minRtt == sample.value && t.minRttTimestamp == e.time
            else t.minRtt == s.minRtt && t.minRttTimestamp == s.minRttTimestamp
  {
  }

  lemma ModelMovesEstimates(s: Bbr, e: CongestionEvent)
    ensures EstimatesMove(s, Modelled(s, e), e)
  {
    var a := SampleUsed(s, e.report);
    var b := MinRttUpdated(a, e.time, e.report.sampleRtt);
    SampleMovesFilter(s, e);
    RttMovesMinimum(a, e);
    SampleUsedAlone(s, e.report);
    MinRttUpdatedAlone(a, e.time, e.report.sampleRtt);
    LossesCountedAlone(b, e.lost);
    hide SampleUsed, MinRttUpdated, LossesCounted, CountsSample, SameStalls, SameLosses, Updated;
  }

  lemma EventMovesEstimates(s: Bbr, e: CongestionEvent)
    requires s.recoveryState != NotInRecovery ==> s.isAtFullBandwidth
    ensures EstimatesMove(s, AfterCongestion(s, e), e)
  {
    EventAlone(s, e);
    var i := StepsOf(s, e);
    ModelMovesEstimates(i.acks, e);
    assert i.model == Modelled(i.acks, e);
    assert i.acks.filter == s.filter && i.acks.minRtt == s.minRtt && i.acks.minRttTimestamp == s.minRttTimestamp
           && i.acks.lastSampleIsAppLimited == s.lastSampleIsAppLimited;
    hide AfterCongestion, StepsOf, Modelled, SameStalls, SameMode, SameLosses, SameButRound, Updated;
  }

  // ---- The end of startup ----

  /** The losses of the round are counted until the next one starts. */
  ghost predicate LossesMove(s: Bbr, t: Bbr, e: CongestionEvent) {
    if StartsAt(s, e) then t.numLossEventsInRound == 0 && t.bytesLostInRound == 0
    else
      && t.numLossEventsInRound == s.numLossEventsInRound + (if e.lost != [] then 1 else 0)
      && t.bytesLostInRound == s.bytesLostInRound + TotalBytes(e.lost)
  }

  /** At least eight loss events in the round, and more than a fiftieth of the bytes in flight lost. */
  ghost predicate LosesTooMuch(s: Bbr, e: CongestionEvent) {
    var lost := s.bytesLostInRound + TotalBytes(e.lost);
    && s.numLossEventsInRound + (if e.lost != [] then 1 else 0) >= 8 && e.report.lastPacketSendState.Some?
    && var inFlight := e.report.lastPacketSendState.value.bytesInFlight;
       inFlight > 0 && lost > 0 && 50 * lost > inFlight
  }

  /** The bandwidth has grown by a quarter, rounded down, since it was last noted. */
  ghost predicate Grows(s: Bbr, bandwidth: nat) {
    bandwidth >= 5 * s.bandwidthAtLastRound / 4
  }

  /** A round that starts before full bandwidth, with a sender that had enough to send, either brings a gain, or counts
      as one without; full bandwidth is reached by enough rounds without a gain or by losing too much. */
  ghost predicate StallsMove(s: Bbr, t: Bbr, e: CongestionEvent) {
    SameLeast(s, t) &&
    if !StartsAt(s, e) || s.isAtFullBandwidth || t.lastSampleIsAppLimited then SameStalls(s, t)
    else if Grows(s, t.filter.e0.sample) then
      t.bandwidthAtLastRound == t.filter.e0.sample && t.roundsWithoutBandwidthGain == 0 && !t.isAtFullBandwidth
    else
      && t.bandwidthAtLastRound == s.bandwidthAtLastRound
      && t.roundsWithoutBandwidthGain == s.roundsWithoutBandwidthGain + 1
      && (t.isAtFullBandwidth <==> t.roundsWithoutBandwidthGain >= s.cfg.numStartupRtts || LosesTooMuch(s, e))
  }

  lemma QuarterInIntegers(last: nat)
    ensures (last as real * 1.25).Floor == 5 * last / 4
  {
    var q := 5 * last / 4;
    assert 4 * q <= 5 * last < 4 * q + 4;
    assert q as real <= last as real * 1.25 < (q + 1) as real;
  }

  lemma FiftiethInIntegers(lost: int, inFlight: int)
    ensures lost > (inFlight as real * 0.02).Floor <==> 50 * lost > inFlight
  {
    var share := inFlight as real * 0.02;
    assert share.Floor as real <= share < share.Floor as real + 1.0;
    assert 50.0 * share == inFlight as real;
  }

  lemma LossExitIsLosingTooMuch(s: Bbr, lost: seq<PacketInfo>, e: CongestionEvent, t: Bbr)
    requires lost == e.lost && t.numLossEventsInRound == s.numLossEventsInRound + (if lost != [] then 1 else 0)
    requires t.bytesLostInRound == s.bytesLostInRound + TotalBytes(lost)
    ensures ExitsStartupDueToLoss(t, e.report.lastPacketSendState) <==> LosesTooMuch(s, e)
  {
    if e.report.lastPacketSendState.Some? {
      FiftiethInIntegers(t.bytesLostInRound, e.report.lastPacketSendState.value.bytesInFlight);
    }
    hide TotalBytes;
  }

  lemma ModelCountsLosses(s: Bbr, e: CongestionEvent)
    ensures var t := Modelled(s, e);
            && t.numLossEventsInRound == s.numLossEventsInRound + (if e.lost != [] then 1 else 0)
            && t.bytesLostInRound == s.bytesLostInRound + TotalBytes(e.lost)
  {
    hide Updated;
  }

  lemma RoundStartIsStartsAt(s: Bbr, e: CongestionEvent)
    ensures RoundStartOf(s, e) == StartsAt(s, e)
  {
  }

  lemma EventMovesLosses(s: Bbr, e: CongestionEvent)
    ensures LossesMove(s, AfterCongestion(s, e), e)
  {
    EventAlone(s, e);
    RoundStartIsStartsAt(s, e);
    var i, isRoundStart := StepsOf(s, e), RoundStartOf(s, e);
    ModelCountsLosses(i.acks, e);
    WindowsUpdatedAlone(i.probe, e);
    assert i.model == Modelled(i.acks, e);
    assert SameLosses(s, i.acks);
    hide AfterCongestion, StepsOf, Modelled, WindowsUpdated, SameStalls, SameMode, SameModel, SameRound, RoundStartOf,
         StartsAt, TotalBytes;
  }

  lemma CheckMovesStalls(s: Bbr, m: Bbr, e: CongestionEvent)
    requires SameStalls(s, m) && !s.isAtFullBandwidth && StartsAt(s, e)
    requires m.numLossEventsInRound == s.numLossEventsInRound + (if e.lost != [] then 1 else 0)
    requires m.bytesLostInRound == s.bytesLostInRound + TotalBytes(e.lost)
    ensures StallsMove(s, FullBandwidthChecked(m, e.report.lastPacketSendState), e)
  {
    QuarterInIntegers(s.bandwidthAtLastRound);
    LossExitIsLosingTooMuch(s, e.lost, e, m);
    hide ExitsStartupDueToLoss, LosesTooMuch, TotalBytes;
  }

  lemma EventMovesStalls(s: Bbr, e: CongestionEvent)
    ensures StallsMove(s, AfterCongestion(s, e), e)
  {
    EventAlone(s, e);
    RoundStartIsStartsAt(s, e);
    var i, isRoundStart := StepsOf(s, e), RoundStartOf(s, e);
    ModelCountsLosses(i.acks, e);
    var checked := if isRoundStart && !i.model.isAtFullBandwidth
                   then FullBandwidthChecked(i.model, e.report.lastPacketSendState) else i.model;
    StartupOrDrainExitedAlone(checked, e.rttStatsMin);
    FullBandwidthCheckedAlone(i.model, e.report.lastPacketSendState);
    assert i.drain == StartupOrDrainExited(checked, e.rttStatsMin) && i.model == Modelled(i.acks, e);
    assert SameStalls(s, i.model) && SameLosses(s, i.acks);
    if isRoundStart && !s.isAtFullBandwidth {
      CheckMovesStalls(s, i.model, e);
    }
    hide AfterCongestion, StepsOf, Modelled, RoundStartOf, StartsAt, TotalBytes, FullBandwidthChecked,
         StartupOrDrainExited, SameMode, SameRound, Grows, LosesTooMuch, SameLosses;
  }

  // ---- The modes ----

  /** The bytes in flight are at most what the path holds. */
  ghost predicate Drained(t: Bbr, e: CongestionEvent) {
    t.bytesInFlight <= TargetWindow(t, 1.0, e.rttStatsMin)
  }

  /** A round-trip time arrives when the minimum is too old, and the sender was not just idle. */
  ghost predicate EntersProbe(s: Bbr, e: CongestionEvent) {
    e.report.sampleRtt.Some? && MinRttIsOld(s, e) && !s.exitingQuiescence && s.mode != ProbeRtt
  }

  /** PROBE_RTT ends at its time, once a round has started in it. */
  ghost predicate LeavesProbe(s: Bbr, e: CongestionEvent) {
    && s.mode == ProbeRtt && s.exitProbeRttAt != 0 && e.time >= s.exitProbeRttAt
    && (s.probeRttRoundPassed || StartsAt(s, e))
  }

  /** The mode after the event. */
  ghost predicate ModeTable(s: Bbr, t: Bbr, e: CongestionEvent) {
    && t.mode == (if EntersProbe(s, e) then ProbeRtt
                  else if s.mode == ProbeRtt && !LeavesProbe(s, e) then ProbeRtt
                  else if !t.isAtFullBandwidth then Startup
                  else if (s.mode == Startup || s.mode == Drain) && !Drained(t, e) then Drain
                  else ProbeBw)
    && !t.exitingQuiescence
  }

  /** The end of PROBE_RTT is set when few bytes are in flight; from then on it waits for a round to start. */
  ghost predicate ProbeMovesOn(s: Bbr, t: Bbr, e: CongestionEvent) {
    && (t.mode == ProbeRtt && (s.mode != ProbeRtt || s.exitProbeRttAt == 0) ==>
          if t.bytesInFlight < t.minCongestionWindow + t.cfg.maxPacketBufferSize
          then t.exitProbeRttAt == e.time + 200_000_000 && !t.probeRttRoundPassed
          else t.exitProbeRttAt == 0)
    && (t.mode == ProbeRtt && s.mode == ProbeRtt && s.exitProbeRttAt != 0 ==>
          && t.exitProbeRttAt == s.exitProbeRttAt
          && (t.probeRttRoundPassed <==> s.probeRttRoundPassed || StartsAt(s, e)))
  }

  lemma SameTarget(s: Bbr, t: Bbr, gain: real, rttStatsMin: int)
    requires SameLeast(s, t) && t.filter == s.filter && t.minRtt == s.minRtt
    ensures TargetWindow(t, gain, rttStatsMin) == TargetWindow(s, gain, rttStatsMin)
  {
    hide Bdp, WindowFor;
  }

  lemma ExitMovesMode(s: Bbr, rttStatsMin: int)
    requires s.mode == Drain || s.mode == ProbeBw ==> s.isAtFullBandwidth
    ensures var t, full := StartupOrDrainExited(s, rttStatsMin), s.isAtFullBandwidth;
            t.mode == (if s.mode == ProbeRtt then ProbeRtt
                       else if !full then Startup
                       else if s.mode != ProbeBw && s.bytesInFlight > TargetWindow(s, 1.0, rttStatsMin) then Drain
                       else ProbeBw)
  {
    SameTarget(s, s.(mode := Drain, congestionWindowGain := s.cfg.highCwndGain), 1.0, rttStatsMin);
    hide TargetWindow;
  }

  lemma CheckMovesMode(s: Bbr, now: int, isRoundStart: bool, expired: bool)
    ensures var t := ProbeRttChecked(s, now, isRoundStart, expired);
            var leaves := s.exitProbeRttAt != 0 && now >= s.exitProbeRttAt && (s.probeRttRoundPassed || isRoundStart);
            && t.mode == (if s.mode != ProbeRtt then (if expired && !s.exitingQuiescence then ProbeRtt else s.mode)
                          else if !leaves then ProbeRtt
                          else if s.isAtFullBandwidth then ProbeBw
                          else Startup)
            && !t.exitingQuiescence
  {
  }

  lemma CheckMovesProbe(s: Bbr, now: int, isRoundStart: bool, expired: bool)
    ensures var t := ProbeRttChecked(s, now, isRoundStart, expired);
            && (t.mode == ProbeRtt && (s.mode != ProbeRtt || s.exitProbeRttAt == 0) ==>
                  if s.bytesInFlight < s.minCongestionWindow + s.cfg.maxPacketBufferSize
                  then t.exitProbeRttAt == now + 200_000_000 && !t.probeRttRoundPassed
                  else t.exitProbeRttAt == 0)
            && (t.mode == ProbeRtt && s.mode == ProbeRtt && s.exitProbeRttAt != 0 ==>
                  && t.exitProbeRttAt == s.exitProbeRttAt
                  && (t.probeRttRoundPassed <==> s.probeRttRoundPassed || isRoundStart))
            && (s.mode == ProbeRtt && t.mode != ProbeRtt ==> t.minRttTimestamp == now)
            && (s.mode != ProbeRtt || t.mode == ProbeRtt ==> t.minRttTimestamp == s.minRttTimestamp)
  {
  }

  lemma EventMovesMode(s: Bbr, e: CongestionEvent)
    requires ModesInOrder(s)
    ensures ModeTable(s, AfterCongestion(s, e), e)
  {
    var i, t, isRoundStart := StepsOf(s, e), AfterCongestion(s, e), RoundStartOf(s, e);
    var expired := e.report.sampleRtt.Some? && MinRttExpired(i.acks, e.time);
    EventAlone(s, e);
    RoundStartIsStartsAt(s, e);
    StepsBeforeDrain(s, e);
    CheckMovesMode(i.drain, e.time, isRoundStart, expired);
    assert i.probe == ProbeRttChecked(i.drain, e.time, isRoundStart, expired);
    assert expired == (e.report.sampleRtt.Some? && MinRttIsOld(s, e));
    hide AfterCongestion, StepsOf, ProbeRttChecked, RoundStartOf, StartsAt, MinRttExpired, MinRttIsOld, TargetWindow,
         SameLosses, SameButRound;
    SameDrained(i.drain, i.probe, e);
    SameDrained(i.probe, t, e);
    hide Drained, SameRound, SameModel;
  }

  lemma SameDrained(s: Bbr, t: Bbr, e: CongestionEvent)
    requires SameRound(s, t) && SameModel(s, t) && SameStalls(s, t)
    ensures Drained(t, e) == Drained(s, e)
  {
    SameTarget(s, t, 1.0, e.rttStatsMin);
    hide TargetWindow;
  }

  /** The minimum round-trip time is dated by the event that sets it, and when PROBE_RTT ends. */
  ghost predicate MinRttDated(s: Bbr, t: Bbr, e: CongestionEvent) {
    var sample := e.report.sampleRtt;
    var isSet := sample.Some? && (s.minRtt == 0 || MinRttIsOld(s, e) || sample.value < s.minRtt);
    t.minRttTimestamp == if isSet || LeavesProbe(s, e) then e.time else s.minRttTimestamp
  }

  lemma EventMovesProbe(s: Bbr, e: CongestionEvent)
    requires ModesInOrder(s)
    ensures ProbeMovesOn(s, AfterCongestion(s, e), e) && MinRttDated(s, AfterCongestion(s, e), e)
  {
    var i, t, isRoundStart := StepsOf(s, e), AfterCongestion(s, e), RoundStartOf(s, e);
    var expired := e.report.sampleRtt.Some? && MinRttExpired(i.acks, e.time);
    EventAlone(s, e);
    RoundStartIsStartsAt(s, e);
    StepsBeforeDrain(s, e);
    CheckMovesMode(i.drain, e.time, isRoundStart, expired);
    CheckMovesProbe(i.drain, e.time, isRoundStart, expired);
    assert i.probe == ProbeRttChecked(i.drain, e.time, isRoundStart, expired);
    WindowsAside(i.probe, e, isRoundStart);
    ModelDatesMinimum(i.acks, e);
    assert i.model == Modelled(i.acks, e);
    hide AfterCongestion, StepsOf, ProbeRttChecked, RoundStartOf, StartsAt, MinRttExpired, Drained, Modelled,
         RoundCountersReset, WindowsUpdated, SameLosses;
  }

  lemma ModelDatesMinimum(s: Bbr, e: CongestionEvent)
    ensures var t, sample := Modelled(s, e), e.report.sampleRtt;
            t.minRttTimestamp == (if sample.Some? && (s.minRtt == 0 || MinRttIsOld(s, e) || sample.value < s.minRtt)
                                  then e.time else s.minRttTimestamp)
  {
    var a := SampleUsed(s, e.report);
    var b := MinRttUpdated(a, e.time, e.report.sampleRtt);
    SampleUsedAlone(s, e.report);
    RttMovesMinimum(a, e);
    LossesCountedAlone(b, e.lost);
    hide SampleUsed, MinRttUpdated, LossesCounted, SameStalls, SameLosses;
  }

  lemma StepsBeforeDrain(s: Bbr, e: CongestionEvent)
    requires ModesInOrder(s)
    ensures var i := StepsOf(s, e);
            && i.drain.mode == (if s.mode == ProbeRtt then ProbeRtt
                                else if !i.drain.isAtFullBandwidth then Startup
                                else if s.mode != ProbeBw && !Drained(i.drain, e) then Drain
                                else ProbeBw)
            && i.drain.exitProbeRttAt == s.exitProbeRttAt && i.drain.probeRttRoundPassed == s.probeRttRoundPassed
            && i.drain.exitingQuiescence == s.exitingQuiescence
  {
    var i, isRoundStart := StepsOf(s, e), RoundStartOf(s, e);
    EventAlone(s, e);
    var checked := if isRoundStart && !i.model.isAtFullBandwidth
                   then FullBandwidthChecked(i.model, e.report.lastPacketSendState) else i.model;
    FullBandwidthCheckedAlone(i.model, e.report.lastPacketSendState);
    FullStaysFull(i.model, e.report.lastPacketSendState);
    StartupOrDrainExitedAlone(checked, e.rttStatsMin);
    assert i.drain == StartupOrDrainExited(checked, e.rttStatsMin);
    hide AfterCongestion, StepsOf, FullBandwidthChecked, StartupOrDrainExited, RoundStartOf, TargetWindow, SameLosses,
         SameRound;
    ExitMovesMode(checked, e.rttStatsMin);
    SameTarget(checked, i.drain, 1.0, e.rttStatsMin);
    assert i.drain.bytesInFlight == checked.bytesInFlight by { assert SameRound(checked, i.drain); }
  }

  lemma FullStaysFull(s: Bbr, sent: Option<SendState>)
    ensures s.isAtFullBandwidth ==> FullBandwidthChecked(s, sent).isAtFullBandwidth
  {
    hide ExitsStartupDueToLoss;
  }

  // ---- The recovery window ----

  /** In recovery the window starts from the bytes in flight; it gives up what was lost, and in growth gains what was
      acknowledged, but always admits as many bytes as were acknowledged, and the least window. */
  ghost predicate RecoveryWindowMoves(s: Bbr, t: Bbr, e: CongestionEvent) {
    var acked, lost := e.report.bytesAcked, TotalBytes(e.lost);
    var left := if lost <= s.recoveryWindow then s.recoveryWindow - lost else s.maxDatagramSize;
    var goal := if s.recoveryState == NotInRecovery then 0
                else if t.recoveryState == Growth then left + acked
                else left;
    t.recoveryState != NotInRecovery ==>
      && t.recoveryWindow >= t.minCongestionWindow && t.recoveryWindow >= t.bytesInFlight + acked
      && t.recoveryWindow >= goal
      && (t.recoveryWindow == t.minCongestionWindow || t.recoveryWindow == t.bytesInFlight + acked
          || t.recoveryWindow == goal)
  }

  /** The recovery window when the windows are computed. */
  lemma AcksMoveRecoveryWindow(s: Bbr, e: CongestionEvent)
    requires s.recoveryState != NotInRecovery ==> s.isAtFullBandwidth
    ensures var t := AcksSeen(InFlightUpdated(s, e), e);
            && t.maxDatagramSize == s.maxDatagramSize
            && t.recoveryWindow == if EntersRecovery(s, e) then 0 else s.recoveryWindow
  {
    hide TotalBytes;
    var u := InFlightUpdated(s, e);
    if e.acked != [] {
      var v := RoundUpdated(u, LastAcked(e));
      assert v.recoveryWindow == s.recoveryWindow && v.maxDatagramSize == s.maxDatagramSize
             && v.recoveryState == s.recoveryState && v.isAtFullBandwidth == s.isAtFullBandwidth;
      hide RoundUpdated, InFlightUpdated, StartsRound;
    }
  }

  predicate SameRecoveryWindow(s: Bbr, t: Bbr) {
    && t.recoveryWindow == s.recoveryWindow && t.maxDatagramSize == s.maxDatagramSize
    && t.recoveryState == s.recoveryState && t.minCongestionWindow == s.minCongestionWindow
  }

  lemma ModelSameRecoveryWindow(s: Bbr, e: CongestionEvent)
    ensures SameRecoveryWindow(s, Modelled(s, e))
  {
    hide Updated, TotalBytes;
    var a := SampleUsed(s, e.report);
    assert SameRecoveryWindow(s, a);
    var b := MinRttUpdated(a, e.time, e.report.sampleRtt);
    assert SameRecoveryWindow(a, b);
    assert SameRecoveryWindow(b, LossesCounted(b, e.lost));
    hide SampleUsed, MinRttUpdated, LossesCounted;
  }

  lemma DrainSameRecoveryWindow(s: Bbr, e: CongestionEvent, isRoundStart: bool)
    ensures SameRecoveryWindow(s, BeforeProbe(s, e, isRoundStart))
  {
    hide ExitsStartupDueToLoss, TargetWindow;
  }

  lemma CheckSameRecoveryWindow(s: Bbr, now: int, isRoundStart: bool, expired: bool)
    ensures SameRecoveryWindow(s, ProbeRttChecked(s, now, isRoundStart, expired))
  {
  }

  lemma WindowSameRecoveryWindow(s: Bbr, e: CongestionEvent, isRoundStart: bool)
    ensures SameRecoveryWindow(s, WindowCalculated(s, e))
    ensures SameRecoveryWindow(s, RoundCountersReset(s, isRoundStart))
  {
    hide TargetWindow;
  }

  lemma FormulaMoves(u: Bbr, s: Bbr, e: CongestionEvent)
    requires u.minCongestionWindow > 0 && u.maxDatagramSize == s.maxDatagramSize
    requires s.recoveryState != NotInRecovery ==> s.recoveryWindow >= u.minCongestionWindow
    requires u.recoveryState != NotInRecovery ==>
               u.recoveryWindow == if s.recoveryState == NotInRecovery then 0 else s.recoveryWindow
    ensures RecoveryWindowMoves(s, RecoveryWindowCalculated(u, e.report.bytesAcked, TotalBytes(e.lost)), e)
  {
    hide TotalBytes;
  }

  lemma RecoveryWindowBefore(s: Bbr, e: CongestionEvent)
    requires Good(s)
    ensures var u := StepsOf(s, e).probe;
            && u.minCongestionWindow == s.minCongestionWindow && u.maxDatagramSize == s.maxDatagramSize
            && (u.recoveryState != NotInRecovery ==>
                  u.recoveryWindow == if s.recoveryState == NotInRecovery then 0 else s.recoveryWindow)
  {
    var i, isRoundStart := StepsOf(s, e), RoundStartOf(s, e);
    AcksMoveRecoveryWindow(s, e);
    AcksMoveRound(s, e);
    AcksSameProbe(InFlightUpdated(s, e), e);
    assert InFlightUpdated(s, e).minCongestionWindow == s.minCongestionWindow;
    ModelSameRecoveryWindow(i.acks, e);
    DrainSameRecoveryWindow(i.model, e, isRoundStart);
    CheckSameRecoveryWindow(i.drain, e.time, isRoundStart, e.report.sampleRtt.Some? && MinRttExpired(i.acks, e.time));
    hide AcksSeen, InFlightUpdated, Modelled, BeforeProbe, ProbeRttChecked, RoundStartOf, TotalBytes, StartsAt,
         MinRttExpired;
  }

  lemma EventMovesRecoveryWindow(s: Bbr, e: CongestionEvent)
    requires Good(s)
    ensures RecoveryWindowMoves(s, AfterCongestion(s, e), e)
  {
    var p, t, isRoundStart := StepsOf(s, e).probe, AfterCongestion(s, e), RoundStartOf(s, e);
    EventAlone(s, e);
    RecoveryWindowBefore(s, e);
    WindowSameRecoveryWindow(p, e, isRoundStart);
    var u := WindowCalculated(p, e);
    var v := RecoveryWindowCalculated(u, e.report.bytesAcked, TotalBytes(e.lost));
    WindowSameRecoveryWindow(v, e, isRoundStart);
    CountersResetAlone(v, isRoundStart);
    assert t == RoundCountersReset(v, isRoundStart);
    hide AfterCongestion, StepsOf, WindowCalculated, RecoveryWindowCalculated, RoundCountersReset, RoundStartOf,
         TotalBytes, WindowsUpdated;
    FormulaMoves(u, s, e);
  }

  // ---- Whole runs ----

  /** What an event of a run does to rounds, estimates, modes and windows. */
  ghost predicate EventMove(s: Bbr, t: Bbr, e: CongestionEvent) {
    && RoundMoves(s, t, e) && ConservationMoves(s, t, e) && EstimatesMove(s, t, e) && MinRttDated(s, t, e)
    && LossesMove(s, t, e) && StallsMove(s, t, e) && ModeTable(s, t, e) && ProbeMovesOn(s, t, e)
    && RecoveryWindowMoves(s, t, e) && ModesInOrder(t)
  }

  /** Sending notes the packet and the bytes in flight, and a sender with nothing in flight was idle. */
  ghost predicate SendMove(s: Bbr, t: Bbr, bytesInFlight: int, packetNumber: int) {
    && t.lastSentPacket == packetNumber && t.bytesInFlight == bytesInFlight
    && t.roundTripCount == s.roundTripCount && t.currentRoundTripEnd == s.currentRoundTripEnd
    && SameModel(s, t) && SameStalls(s, t) && SameLosses(s, t) && t.recoveryState == s.recoveryState
    && (t.exitingQuiescence <==> s.exitingQuiescence || bytesInFlight == 0)
    && SameMode(s.(exitingQuiescence := t.exitingQuiescence), t)
  }

  /** A larger datagram changes the windows and nothing else. */
  ghost predicate SizeMove(s: Bbr, t: Bbr) {
    && SameRound(s, t) && SameModel(s, t) && SameLosses(s, t) && SameMode(s, t) && t.recoveryState == s.recoveryState
    && t.roundsWithoutBandwidthGain == s.roundsWithoutBandwidthGain && t.bandwidthAtLastRound == s.bandwidthAtLastRound
    && t.isAtFullBandwidth == s.isAtFullBandwidth && t.cfg == s.cfg
  }

  ghost predicate ModelMove(s: Bbr, t: Bbr, e: Event) {
    match e
    case Congestion(event) => EventMove(s, t, event)
    case Sent(bytesInFlight, packetNumber) => SendMove(s, t, bytesInFlight, packetNumber)
    case DatagramSize(_) => SizeMove(s, t)
  }

  /** A run of moves, with packet numbers that rise from one send to the next. */
  ghost predicate ModelRun(states: seq<Bbr>, events: seq<Event>) {
    && |states| == |events| + 1
    && forall i {:trigger events[i]} | 0 <= i < |events| ::
         ModelMove(states[i], states[i + 1], events[i])
         && (events[i].Sent? ==> states[i].lastSentPacket <= events[i].packetNumber)
  }

  lemma EventMoves(s: Bbr, e: CongestionEvent)
    requires Good(s)
    ensures EventMove(s, AfterCongestion(s, e), e)
  {
    EventMovesRound(s, e);
    EventMovesEstimates(s, e);
    EventMovesLosses(s, e);
    EventMovesStalls(s, e);
    EventMovesMode(s, e);
    EventMovesProbe(s, e);
    EventMovesRecoveryWindow(s, e);
    CongestionKeepsGood(s, e);
    hide AfterCongestion, RoundMoves, ConservationMoves, EstimatesMove, MinRttDated, LossesMove, StallsMove, ModeTable,
         ProbeMovesOn, RecoveryWindowMoves, ModesInOrder, Scaled, WindowsInBounds;
  }

  lemma NextModelMove(s: Bbr, e: Event)
    requires Good(s)
    ensures ModelMove(s, Next(s, e), e)
  {
    match e
    case Congestion(event) =>
      EventMoves(s, event);
      hide AfterCongestion, EventMove;
    case Sent(_, _) =>
    case DatagramSize(size) =>
      hide ScaledWindow;
  }

  /** Every run of a new sender makes these moves. */
  lemma RunMoves(states: seq<Bbr>, events: seq<Event>, datagramSize: int, cfg: Config)
    requires IsRun(states, events) && datagramSize > 0 && cfg.maxWindowPackets >= INITIAL_WINDOW_PACKETS
    requires states[0] == NewBbr(datagramSize, cfg)
    requires forall i | 0 <= i < |events| && events[i].Sent? :: states[i].lastSentPacket <= events[i].packetNumber
    ensures ModelRun(states, events)
  {
    hide Next, Allowed, NewBbr, ModelMove, Good;
    forall i | 0 <= i < |events| ensures ModelMove(states[i], states[i + 1], events[i]) {
      RunStaysGood(states, events, datagramSize, cfg, i, i);
      NextModelMove(states[i], events[i]);
    }
  }

  // ---- A round lasts a round trip ----

  /** Event `a` sets the end of the round: it starts a round or enters recovery, with something sent before. */
  ghost predicate SetsRoundEnd(states: seq<Bbr>, events: seq<Event>, a: nat)
    requires a < |events| < |states|
  {
    && events[a].Congestion? && states[a].lastSentPacket >= 0
    && (StartsAt(states[a], events[a].event) || EntersRecovery(states[a], events[a].event))
  }

  lemma RoundEndStaysLate(s: Bbr, t: Bbr, e: Event, limit: int)
    requires ModelMove(s, t, e) && limit <= s.lastSentPacket && (e.Sent? ==> s.lastSentPacket <= e.packetNumber)
    requires limit <= s.currentRoundTripEnd
             || (e.Congestion? && (StartsAt(s, e.event) || EntersRecovery(s, e.event)))
    ensures limit <= t.currentRoundTripEnd && limit <= t.lastSentPacket
  {
    hide ConservationMoves, EstimatesMove, MinRttDated, LossesMove, StallsMove, ModeTable, ProbeMovesOn,
         RecoveryWindowMoves, ModesInOrder, StartsAt, EntersRecovery, SameModel, SameStalls, SameLosses, SameMode;
  }

  lemma {:induction false} RoundEndIsLate(states: seq<Bbr>, events: seq<Event>, a: nat, b: nat)
    requires ModelRun(states, events) && a < b <= |events| && SetsRoundEnd(states, events, a)
    ensures states[a].lastSentPacket <= states[b].currentRoundTripEnd
    ensures states[a].lastSentPacket <= states[b].lastSentPacket
    decreases b
  {
    hide ModelMove, StartsAt, EntersRecovery;
    if b - 1 > a {
      RoundEndIsLate(states, events, a, b - 1);
    }
    RoundEndStaysLate(states[b - 1], states[b - 1 + 1], events[b - 1], states[a].lastSentPacket);
  }

  /** After a round has started, or recovery was entered, the next round does not start before a packet sent later is
      acknowledged; so packets are conserved for a whole round trip. */
  lemma RoundLastsARoundTrip(states: seq<Bbr>, events: seq<Event>, a: nat, b: nat)
    requires ModelRun(states, events) && a < b < |events| && SetsRoundEnd(states, events, a)
    requires states[b].roundTripCount < states[b + 1].roundTripCount
             || (states[b].recoveryState == Conservation && states[b + 1].recoveryState == Growth)
    ensures events[b].Congestion? && events[b].event.acked != []
    ensures LastAcked(events[b].event) > states[a].lastSentPacket
  {
    RoundEndIsLate(states, events, a, b);
    assert ModelMove(states[b], states[b + 1], events[b]);
    hide EstimatesMove, MinRttDated, LossesMove, StallsMove, ModeTable, ProbeMovesOn, RecoveryWindowMoves, ModesInOrder,
         SameModel, SameStalls, SameLosses, SameMode, EntersRecovery;
  }

  // ---- The window handed out, and larger datagrams ----

  /** PROBE_RTT hands out four packets, and recovery no more than its own window. */
  lemma WindowHandedOut(s: Bbr)
    requires Good(s)
    ensures s.mode == ProbeRtt ==> CongestionWindowOf(s) == 4 * s.maxDatagramSize
    ensures s.mode != ProbeRtt ==> CongestionWindowOf(s) <= s.congestionWindow
    ensures s.mode != ProbeRtt && s.recoveryState != NotInRecovery ==> CongestionWindowOf(s) <= s.recoveryWindow
    ensures s.mode != ProbeRtt && CongestionWindowOf(s) != s.congestionWindow ==>
              s.recoveryState != NotInRecovery && CongestionWindowOf(s) == s.recoveryWindow
  {
  }

  /** With larger datagrams the least and the initial window stay what they are in packets, another window is kept as
      far as the least one allows, and the recovery window is brought between the limits. */
  lemma DatagramSizeMoves(s: Bbr, size: int)
    requires Good(s) && size >= s.maxDatagramSize
    ensures var t := WithDatagramSize(s, size);
            && (s.congestionWindow == 4 * s.maxDatagramSize ==> t.congestionWindow == 4 * size)
            && (s.congestionWindow == 32 * s.maxDatagramSize ==> t.congestionWindow == 32 * size)
            && (s.congestionWindow != 4 * s.maxDatagramSize && s.congestionWindow != 32 * s.maxDatagramSize ==>
                  t.congestionWindow == Max(s.congestionWindow, 4 * size))
            && (4 * size <= s.recoveryWindow <= t.maxCongestionWindow ==> t.recoveryWindow == s.recoveryWindow)
            && 4 * size <= t.recoveryWindow <= t.maxCongestionWindow
            && t.maxCongestionWindow == s.cfg.maxWindowPackets * size
  {
    DatagramSizeKeepsGood(s, size);
    ExactScaling(INITIAL_WINDOW_PACKETS, s.maxDatagramSize, size);
    ExactScaling(s.cfg.maxWindowPackets, s.maxDatagramSize, size);
    LargerProduct(s.cfg.maxWindowPackets, s.maxDatagramSize, size);
    hide ScaledWindow;
  }
}
