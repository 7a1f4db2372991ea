/** The mode, recovery and window state machine of the BBR sender, core/internal/congestion/bbr/bbr_sender.go.
    The bandwidth sampler answers each congestion event with a report; pacing is left out. */
module BbrSenders {
  import opened Basics
  import opened WindowedFilters

  const INITIAL_WINDOW_PACKETS := 32
  const MIN_WINDOW_PACKETS := 4
  const BANDWIDTH_WINDOW_SIZE := 10
  const MILLISECOND := 1_000_000
  const MIN_RTT_EXPIRY := 10 * SECOND
  const PROBE_RTT_TIME := 200 * MILLISECOND
  const STARTUP_GROWTH_TARGET := 1.25
  const STARTUP_FULL_LOSS_COUNT := 8
  const LOSS_THRESHOLD := 0.02

  datatype Mode = Startup | Drain | ProbeBw | ProbeRtt

  datatype RecoveryState = NotInRecovery | Conservation | Growth

  datatype Profile = Conservative | Standard | Aggressive

  datatype Config = Config(
    highCwndGain: real,
    congestionWindowGainConstant: real,
    numStartupRtts: int,
    enableAckAggregationStartup: bool,
    maxWindowPackets: nat,
    maxPacketBufferSize: nat)

  /** The last two values come from the QUIC library: its window limit in packets and its buffer size. */
  function ConfigFor(profile: Profile, maxWindowPackets: nat, maxPacketBufferSize: nat): Config {
    match profile
    case Conservative => Config(1.75, 1.75, 2, false, maxWindowPackets, maxPacketBufferSize)
    case Standard => Config(2.0, 2.0, 3, false, maxWindowPackets, maxPacketBufferSize)
    case Aggressive => Config(2.25, 2.5, 4, true, maxWindowPackets, maxPacketBufferSize)
  }

  datatype Bbr = Bbr(
    cfg: Config,
    mode: Mode,
    filter: Filter,
    roundTripCount: nat,
    lastSentPacket: int,
    currentRoundTripEnd: int,
    numLossEventsInRound: nat,
    bytesLostInRound: int,
    minRtt: int,
    minRttTimestamp: int,
    congestionWindow: int,
    initialCongestionWindow: int,
    maxCongestionWindow: int,
    minCongestionWindow: int,
    congestionWindowGain: real,
    isAtFullBandwidth: bool,
    roundsWithoutBandwidthGain: int,
    bandwidthAtLastRound: nat,
    exitingQuiescence: bool,
    exitProbeRttAt: int,
    probeRttRoundPassed: bool,
    lastSampleIsAppLimited: bool,
    recoveryState: RecoveryState,
    endRecoveryAt: int,
    recoveryWindow: int,
    maxDatagramSize: int,
    bytesInFlight: int)

  datatype PacketInfo = PacketInfo(number: int, bytes: nat)

  datatype SendState = SendState(isAppLimited: bool, bytesInFlight: int)

  /** What the sampler says about a congestion event. */
  datatype Report = Report(
    bytesAcked: nat,
    totalBytesAcked: nat,
    lastPacketSendState: Option<SendState>,
    sampleIsAppLimited: bool,
    sampleMaxBandwidth: nat,
    sampleRtt: Option<int>,
    extraAcked: int,
    maxAckHeight: int)

  /** A congestion event; `rttStatsMin` is the minimum RTT that the connection keeps on its own. */
  datatype CongestionEvent = CongestionEvent(
    priorInFlight: int,
    time: int,
    acked: seq<PacketInfo>,
    lost: seq<PacketInfo>,
    report: Report,
    rttStatsMin: int)
  {
    predicate NonEmpty() {
      acked != [] || lost != []
    }
  }

  function TotalBytes(packets: seq<PacketInfo>): nat {
    if packets == [] then 0 else TotalBytes(packets[..|packets| - 1]) + packets[|packets| - 1].bytes
  }

  function NewBbr(datagramSize: int, cfg: Config): Bbr {
    Bbr(cfg, Startup, EmptyFilter(BANDWIDTH_WINDOW_SIZE), 0, INVALID_PACKET_NUMBER, INVALID_PACKET_NUMBER, 0, 0, 0, 0,
        INITIAL_WINDOW_PACKETS * datagramSize, INITIAL_WINDOW_PACKETS * datagramSize,
        cfg.maxWindowPackets * datagramSize, MIN_WINDOW_PACKETS * datagramSize, cfg.highCwndGain,
        false, 0, 0, false, 0, false, false, NotInRecovery, INVALID_PACKET_NUMBER, cfg.maxWindowPackets * datagramSize,
        datagramSize, 0)
  }

  // The steps of a congestion event

  function InFlightUpdated(s: Bbr, e: CongestionEvent): Bbr {
    s.(bytesInFlight := e.priorInFlight - TotalBytes(e.acked) - TotalBytes(e.lost))
  }

  predicate StartsRound(s: Bbr, lastAcked: int) {
    s.currentRoundTripEnd == INVALID_PACKET_NUMBER || lastAcked > s.currentRoundTripEnd
  }

  function RoundUpdated(s: Bbr, lastAcked: int): Bbr {
    if StartsRound(s, lastAcked)
    then s.(roundTripCount := s.roundTripCount + 1, currentRoundTripEnd := s.lastSentPacket)
    else s
  }

  function RecoveryUpdated(s: Bbr, lastAcked: int, hasLosses: bool, isRoundStart: bool): Bbr {
    if !s.isAtFullBandwidth then s
    else
      var t := if hasLosses then s.(endRecoveryAt := s.lastSentPacket) else s;
      if t.recoveryState != NotInRecovery then RecoveryAdvanced(t, lastAcked, hasLosses, isRoundStart)
      else if hasLosses then RecoveryEntered(t)
      else t
  }

  /** The zero window is set to the right value by the last step of the event. */
  function RecoveryEntered(s: Bbr): Bbr {
    s.(recoveryState := Conservation, recoveryWindow := 0, currentRoundTripEnd := s.lastSentPacket)
  }

  function RecoveryAdvanced(s: Bbr, lastAcked: int, hasLosses: bool, isRoundStart: bool): Bbr {
    var state := if s.recoveryState == Conservation && isRoundStart then Growth else s.recoveryState;
    s.(recoveryState := if !hasLosses && lastAcked > s.endRecoveryAt then NotInRecovery else state)
  }

  function SampleUsed(s: Bbr, r: Report): Bbr {
    var t := if r.lastPacketSendState.Some?
             then s.(lastSampleIsAppLimited := r.lastPacketSendState.value.isAppLimited) else s;
    if r.bytesAcked != 0 && (!r.sampleIsAppLimited || r.sampleMaxBandwidth > s.filter.e0.sample)
    then t.(filter := Updated(t.filter, r.sampleMaxBandwidth, t.roundTripCount)) else t
  }

  predicate MinRttExpired(s: Bbr, now: int) {
    s.minRtt != 0 && now > s.minRttTimestamp + MIN_RTT_EXPIRY
  }

  function MinRttUpdated(s: Bbr, now: int, sample: Option<int>): Bbr {
    if sample.Some? && (MinRttExpired(s, now) || sample.value < s.minRtt || s.minRtt == 0)
    then s.(minRtt := sample.value, minRttTimestamp := now) else s
  }

  function LossesCounted(s: Bbr, lost: seq<PacketInfo>): Bbr {
    if lost != []
    then s.(numLossEventsInRound := s.numLossEventsInRound + 1,
            bytesLostInRound := s.bytesLostInRound + TotalBytes(lost))
    else s
  }

  predicate ExitsStartupDueToLoss(s: Bbr, sent: Option<SendState>) {
    && s.numLossEventsInRound >= STARTUP_FULL_LOSS_COUNT && sent.Some?
    && sent.value.bytesInFlight > 0 && s.bytesLostInRound > 0
    && s.bytesLostInRound > (sent.value.bytesInFlight as real * LOSS_THRESHOLD).Floor
  }

  function FullBandwidthChecked(s: Bbr, sent: Option<SendState>): Bbr {
    if s.lastSampleIsAppLimited then s
    else if s.filter.e0.sample >= (s.bandwidthAtLastRound as real * STARTUP_GROWTH_TARGET).Floor then
      s.(bandwidthAtLastRound := s.filter.e0.sample, roundsWithoutBandwidthGain := 0)
    else
      var rounds := s.roundsWithoutBandwidthGain + 1;
      s.(roundsWithoutBandwidthGain := rounds,
         isAtFullBandwidth := s.isAtFullBandwidth || rounds >= s.cfg.numStartupRtts || ExitsStartupDueToLoss(s, sent))
  }

  function CurrentMinRtt(s: Bbr, rttStatsMin: int): int {
    if s.minRtt != 0 then s.minRtt else if rttStatsMin == 0 then 100 * MILLISECOND else rttStatsMin
  }

  /** Go truncates both quotients, which for the non-negative products here is rounding down. */
  function Bdp(rtt: int, bandwidth: nat): int {
    rtt * bandwidth / 8 / SECOND
  }

  /** The bandwidth-delay product times the gain, or the initial window while nothing was measured. */
  function WindowFor(gain: real, bdp: int, initialWindow: int, minWindow: int): int {
    var byBdp := (gain * bdp as real).Floor;
    Max(if byBdp == 0 then (gain * initialWindow as real).Floor else byBdp, minWindow)
  }

  function TargetWindow(s: Bbr, gain: real, rttStatsMin: int): int {
    WindowFor(gain, Bdp(CurrentMinRtt(s, rttStatsMin), s.filter.e0.sample), s.initialCongestionWindow,
        s.minCongestionWindow)
  }

  function InStartup(s: Bbr): Bbr {
    s.(mode := Startup, congestionWindowGain := s.cfg.highCwndGain)
  }

  function InProbeBw(s: Bbr): Bbr {
    s.(mode := ProbeBw, congestionWindowGain := s.cfg.congestionWindowGainConstant)
  }

  function StartupOrDrainExited(s: Bbr, rttStatsMin: int): Bbr {
    var t := if s.mode == Startup && s.isAtFullBandwidth
             then s.(mode := Drain, congestionWindowGain := s.cfg.highCwndGain) else s;
    if t.mode == Drain && t.bytesInFlight <= TargetWindow(t, 1.0, rttStatsMin) then InProbeBw(t) else t
  }

  function ProbeRttEntered(s: Bbr, minRttExpired: bool): Bbr {
    if minRttExpired && !s.exitingQuiescence && s.mode != ProbeRtt then s.(mode := ProbeRtt, exitProbeRttAt := 0) else s
  }

  function ProbeRttAdvanced(s: Bbr, now: int, isRoundStart: bool): Bbr {
    if s.mode != ProbeRtt then s
    else if s.exitProbeRttAt == 0 then
      if s.bytesInFlight < s.minCongestionWindow + s.cfg.maxPacketBufferSize
      then s.(exitProbeRttAt := now + PROBE_RTT_TIME, probeRttRoundPassed := false) else s
    else
      var t := if isRoundStart then s.(probeRttRoundPassed := true) else s;
      if now - t.exitProbeRttAt >= 0 && t.probeRttRoundPassed then ProbeRttLeft(t, now) else t
  }

  function ProbeRttLeft(s: Bbr, now: int): Bbr {
    var t := s.(minRttTimestamp := now);
    if !t.isAtFullBandwidth then InStartup(t) else InProbeBw(t)
  }

  function ProbeRttChecked(s: Bbr, now: int, isRoundStart: bool, minRttExpired: bool): Bbr {
    ProbeRttAdvanced(ProbeRttEntered(s, minRttExpired), now, isRoundStart).(exitingQuiescence := false)
  }

  function WindowCalculated(s: Bbr, e: CongestionEvent): Bbr {
    if s.mode == ProbeRtt then s
    else
      var r := e.report;
      var target := TargetWindow(s, s.congestionWindowGain, e.rttStatsMin)
                    + (if s.isAtFullBandwidth then r.maxAckHeight
                       else if s.cfg.enableAckAggregationStartup then r.extraAcked else 0);
      var window := if s.isAtFullBandwidth then Min(target, s.congestionWindow + r.bytesAcked)
                    else if s.congestionWindow < target || r.totalBytesAcked < s.initialCongestionWindow
                    then s.congestionWindow + r.bytesAcked
                    else s.congestionWindow;
      s.(congestionWindow := Min(Max(window, s.minCongestionWindow), s.maxCongestionWindow))
  }

  function RecoveryWindowCalculated(s: Bbr, bytesAcked: nat, bytesLost: nat): Bbr {
    if s.recoveryState == NotInRecovery then s
    else if s.recoveryWindow == 0 then
      s.(recoveryWindow := Max(s.minCongestionWindow, s.bytesInFlight + bytesAcked))
    else
      var reduced := if s.recoveryWindow >= bytesLost then s.recoveryWindow - bytesLost else s.maxDatagramSize;
      var grown := if s.recoveryState == Growth then reduced + bytesAcked else reduced;
      s.(recoveryWindow := Max(s.minCongestionWindow, Max(grown, s.bytesInFlight + bytesAcked)))
  }

  function RoundCountersReset(s: Bbr, isRoundStart: bool): Bbr {
    if isRoundStart then s.(numLossEventsInRound := 0, bytesLostInRound := 0) else s
  }

  predicate RoundStartOf(s: Bbr, e: CongestionEvent) {
    e.acked != [] && StartsRound(s, e.acked[|e.acked| - 1].number)
  }

  /** The acknowledged packets advance the round and the recovery. */
  function AcksSeen(s: Bbr, e: CongestionEvent): Bbr {
    if e.acked == [] then s
    else
      var last := e.acked[|e.acked| - 1].number;
      RecoveryUpdated(RoundUpdated(s, last), last, e.lost != [], StartsRound(s, last))
  }

  /** The samples and losses of the event enter the model of the path. */
  function Modelled(s: Bbr, e: CongestionEvent): Bbr {
    LossesCounted(MinRttUpdated(SampleUsed(s, e.report), e.time, e.report.sampleRtt), e.lost)
  }

  function ModeUpdated(s: Bbr, e: CongestionEvent, isRoundStart: bool, minRttExpired: bool): Bbr {
    var t := if isRoundStart && !s.isAtFullBandwidth then FullBandwidthChecked(s, e.report.lastPacketSendState) else s;
    ProbeRttChecked(StartupOrDrainExited(t, e.rttStatsMin), e.time, isRoundStart, minRttExpired)
  }

  function WindowsUpdated(s: Bbr, e: CongestionEvent): Bbr {
    RecoveryWindowCalculated(WindowCalculated(s, e), e.report.bytesAcked, TotalBytes(e.lost))
  }

  /** The state in which the windows of an event are computed. */
  function BeforeWindows(s: Bbr, e: CongestionEvent): Bbr {
    var t := AcksSeen(InFlightUpdated(s, e), e);
    ModeUpdated(Modelled(t, e), e, RoundStartOf(s, e), e.report.sampleRtt.Some? && MinRttExpired(t, e.time))
  }

  function AfterCongestion(s: Bbr, e: CongestionEvent): Bbr {
    RoundCountersReset(WindowsUpdated(BeforeWindows(s, e), e), RoundStartOf(s, e))
  }

  function AfterSent(s: Bbr, bytesInFlight: int, packetNumber: int): Bbr {
    s.(lastSentPacket := packetNumber, bytesInFlight := bytesInFlight,
       exitingQuiescence := s.exitingQuiescence || bytesInFlight == 0)
  }

  function ScaledWindow(window: int, oldSize: int, newSize: int): int
    requires oldSize > 0
  {
    if oldSize == newSize then window else window * newSize / oldSize
  }

  function Rescaled(s: Bbr, size: int): Bbr
    requires s.maxDatagramSize > 0
  {
    s.(maxDatagramSize := size,
       initialCongestionWindow := ScaledWindow(s.initialCongestionWindow, s.maxDatagramSize, size),
       maxCongestionWindow := ScaledWindow(s.maxCongestionWindow, s.maxDatagramSize, size),
       minCongestionWindow := MIN_WINDOW_PACKETS * size)
  }

  function WithDatagramSize(s: Bbr, size: int): Bbr
    requires s.maxDatagramSize > 0
  {
    var t := Rescaled(s, size);
    t.(congestionWindow := if s.congestionWindow == s.minCongestionWindow then t.minCongestionWindow
                           else if s.congestionWindow == s.initialCongestionWindow then t.initialCongestionWindow
                           else Min(t.maxCongestionWindow, Max(s.congestionWindow, t.minCongestionWindow)),
       recoveryWindow := Min(t.maxCongestionWindow, Max(s.recoveryWindow, t.minCongestionWindow)))
  }

  function CongestionWindowOf(s: Bbr): int {
    if s.mode == ProbeRtt then s.minCongestionWindow
    else if s.recoveryState != NotInRecovery then Min(s.congestionWindow, s.recoveryWindow)
    else s.congestionWindow
  }

  // Whole runs

  /** The packet-sized windows are exact multiples of the datagram size. */
  predicate Scaled(s: Bbr) {
    && s.maxDatagramSize > 0 && s.cfg.maxWindowPackets >= INITIAL_WINDOW_PACKETS
    && s.minCongestionWindow == MIN_WINDOW_PACKETS * s.maxDatagramSize
    && s.initialCongestionWindow == INITIAL_WINDOW_PACKETS * s.maxDatagramSize
    && s.maxCongestionWindow == s.cfg.maxWindowPackets * s.maxDatagramSize
  }

  predicate WindowsInBounds(s: Bbr) {
    && s.minCongestionWindow <= s.congestionWindow <= s.maxCongestionWindow
    && (s.recoveryState != NotInRecovery ==> s.recoveryWindow >= s.minCongestionWindow)
  }

  /** Draining, cruising and recovery come after full bandwidth was reached, and startup before. */
  predicate ModesInOrder(s: Bbr) {
    && (s.mode == Drain || s.mode == ProbeBw || s.recoveryState != NotInRecovery ==> s.isAtFullBandwidth)
    && (s.mode == Startup ==> !s.isAtFullBandwidth)
  }

  predicate Good(s: Bbr) {
    Scaled(s) && WindowsInBounds(s) && ModesInOrder(s)
  }

  lemma NewBbrIsGood(datagramSize: int, cfg: Config)
    requires datagramSize > 0 && cfg.maxWindowPackets >= INITIAL_WINDOW_PACKETS
    ensures Good(NewBbr(datagramSize, cfg))
  {
    Distribute(INITIAL_WINDOW_PACKETS, cfg.maxWindowPackets - INITIAL_WINDOW_PACKETS, datagramSize);
    SmallMultiple(cfg.maxWindowPackets - INITIAL_WINDOW_PACKETS, datagramSize);
  }

  /** The windows stay in bounds between the limits, which the bounds make non-empty. */
  lemma GoodWindow(s: Bbr)
    requires Good(s)
    ensures s.minCongestionWindow <= CongestionWindowOf(s) <= s.maxCongestionWindow
  {
  }

  /** What a step may do to the mode: full bandwidth is never taken back, and draining is only entered
      from startup. */
  predicate ModeMoves(s: Bbr, t: Bbr) {
    && (s.isAtFullBandwidth ==> t.isAtFullBandwidth)
    && (t.mode == Drain ==> s.mode == Startup || s.mode == Drain)
  }

  /** Between the steps of an event, entering recovery leaves a zero window that a later step sets. */
  predicate Underway(s: Bbr) {
    && Scaled(s) && s.minCongestionWindow <= s.congestionWindow <= s.maxCongestionWindow
    && (s.recoveryState != NotInRecovery ==> s.recoveryWindow == 0 || s.recoveryWindow >= s.minCongestionWindow)
    && (s.mode == Drain || s.mode == ProbeBw || s.recoveryState != NotInRecovery ==> s.isAtFullBandwidth)
  }

  predicate SameModeAndWindow(s: Bbr, t: Bbr) {
    t.mode == s.mode && t.isAtFullBandwidth == s.isAtFullBandwidth && t.congestionWindow == s.congestionWindow
  }

  /** A step that touches only the model of the path. */
  predicate SameControl(s: Bbr, t: Bbr) {
    && SameModeAndWindow(s, t) && t.recoveryState == s.recoveryState && t.recoveryWindow == s.recoveryWindow
    && t.cfg == s.cfg && t.maxDatagramSize == s.maxDatagramSize && t.minCongestionWindow == s.minCongestionWindow
    && t.initialCongestionWindow == s.initialCongestionWindow && t.maxCongestionWindow == s.maxCongestionWindow
  }

  lemma RecoveryKeeps(s: Bbr, lastAcked: int, hasLosses: bool, isRoundStart: bool)
    requires Underway(s)
    ensures var t := RecoveryUpdated(s, lastAcked, hasLosses, isRoundStart); Underway(t) && SameModeAndWindow(s, t)
  {
  }

  lemma AcksKeep(s: Bbr, e: CongestionEvent)
    requires Underway(s)
    ensures Underway(AcksSeen(s, e)) && SameModeAndWindow(s, AcksSeen(s, e))
  {
    if e.acked != [] {
      var last := e.acked[|e.acked| - 1].number;
      var t := RoundUpdated(s, last);
      assert SameControl(s, t);
      RecoveryKeeps(t, last, e.lost != [], StartsRound(s, last));
      hide RoundUpdated, RecoveryUpdated;
    }
  }

  lemma ModelKeeps(s: Bbr, e: CongestionEvent)
    requires Underway(s)
    ensures Underway(Modelled(s, e)) && SameModeAndWindow(s, Modelled(s, e))
  {
    hide Updated, TotalBytes;
    var t := SampleUsed(s, e.report);
    assert SameControl(s, t);
    var u := MinRttUpdated(t, e.time, e.report.sampleRtt);
    assert SameControl(t, u);
    assert SameControl(u, LossesCounted(u, e.lost));
    hide SampleUsed, MinRttUpdated, LossesCounted;
  }

  lemma FullBandwidthKeeps(s: Bbr, sent: Option<SendState>)
    requires Underway(s)
    ensures var t := FullBandwidthChecked(s, sent);
            Underway(t) && t.mode == s.mode && t.congestionWindow == s.congestionWindow
            && (s.isAtFullBandwidth ==> t.isAtFullBandwidth)
  {
  }

  lemma StartupOrDrainKeeps(s: Bbr, rttStatsMin: int)
    requires Underway(s)
    ensures var t := StartupOrDrainExited(s, rttStatsMin);
            && Underway(t) && ModesInOrder(t) && ModeMoves(s, t) && t.congestionWindow == s.congestionWindow
            && t.isAtFullBandwidth == s.isAtFullBandwidth && (t.mode == ProbeRtt <==> s.mode == ProbeRtt)
  {
    hide TargetWindow;
  }

  lemma EnteredKeeps(s: Bbr, minRttExpired: bool)
    requires Underway(s) && ModesInOrder(s)
    ensures var t := ProbeRttEntered(s, minRttExpired);
            Underway(t) && ModesInOrder(t) && t.congestionWindow == s.congestionWindow
            && t.isAtFullBandwidth == s.isAtFullBandwidth && (t.mode == Drain ==> s.mode == Drain)
  {
  }

  lemma LeftKeeps(s: Bbr, now: int)
    requires Underway(s)
    ensures var t := ProbeRttLeft(s, now);
            Underway(t) && ModesInOrder(t) && t.congestionWindow == s.congestionWindow
            && t.isAtFullBandwidth == s.isAtFullBandwidth && t.mode != Drain
  {
  }

  lemma AdvancedKeeps(s: Bbr, now: int, isRoundStart: bool)
    requires Underway(s) && ModesInOrder(s)
    ensures var t := ProbeRttAdvanced(s, now, isRoundStart);
            Underway(t) && ModesInOrder(t) && t.congestionWindow == s.congestionWindow
            && t.isAtFullBandwidth == s.isAtFullBandwidth && (t.mode == Drain ==> s.mode == Drain)
  {
    LeftKeeps(s, now);
    LeftKeeps(s.(probeRttRoundPassed := true), now);
    hide ProbeRttLeft;
  }

  lemma ProbeRttKeeps(s: Bbr, now: int, isRoundStart: bool, minRttExpired: bool)
    requires Underway(s) && ModesInOrder(s)
    ensures var t := ProbeRttChecked(s, now, isRoundStart, minRttExpired);
            && Underway(t) && ModesInOrder(t) && t.congestionWindow == s.congestionWindow
            && t.isAtFullBandwidth == s.isAtFullBandwidth
            && (t.mode == Drain ==> s.mode == Drain)
  {
    EnteredKeeps(s, minRttExpired);
    AdvancedKeeps(ProbeRttEntered(s, minRttExpired), now, isRoundStart);
    hide ProbeRttEntered, ProbeRttAdvanced;
  }

  lemma ModeKeeps(s: Bbr, e: CongestionEvent, isRoundStart: bool, minRttExpired: bool)
    requires Underway(s) && ModesInOrder(s)
    ensures var t := ModeUpdated(s, e, isRoundStart, minRttExpired);
            && Underway(t) && ModesInOrder(t) && ModeMoves(s, t) && t.congestionWindow == s.congestionWindow
  {
    FullBandwidthKeeps(s, e.report.lastPacketSendState);
    var t := if isRoundStart && !s.isAtFullBandwidth then FullBandwidthChecked(s, e.report.lastPacketSendState) else s;
    StartupOrDrainKeeps(t, e.rttStatsMin);
    var u := StartupOrDrainExited(t, e.rttStatsMin);
    ProbeRttKeeps(u, e.time, isRoundStart, minRttExpired);
    hide FullBandwidthChecked, StartupOrDrainExited, ProbeRttChecked;
  }

  lemma WindowKeeps(s: Bbr, e: CongestionEvent)
    requires Underway(s) && ModesInOrder(s)
    ensures var t := WindowCalculated(s, e);
            && Underway(t) && ModesInOrder(t) && t.mode == s.mode && t.isAtFullBandwidth == s.isAtFullBandwidth
            && (!s.isAtFullBandwidth ==> t.congestionWindow >= s.congestionWindow)
  {
    hide TargetWindow;
  }

  lemma RecoveryWindowKeeps(s: Bbr, bytesAcked: nat, bytesLost: nat)
    requires Underway(s) && ModesInOrder(s)
    ensures var t := RecoveryWindowCalculated(s, bytesAcked, bytesLost);
            Good(t) && SameModeAndWindow(s, t)
  {
  }

  lemma WindowsKeep(s: Bbr, e: CongestionEvent)
    requires Underway(s) && ModesInOrder(s)
    ensures var t := WindowsUpdated(s, e);
            && Good(t) && t.mode == s.mode && t.isAtFullBandwidth == s.isAtFullBandwidth
            && (!s.isAtFullBandwidth ==> t.congestionWindow >= s.congestionWindow)
  {
    WindowKeeps(s, e);
    RecoveryWindowKeeps(WindowCalculated(s, e), e.report.bytesAcked, TotalBytes(e.lost));
    hide WindowCalculated, RecoveryWindowCalculated;
  }

  /** Up to its windows, an event keeps the bounds and the order of modes. */
  lemma StepsBeforeWindowsKeep(s: Bbr, e: CongestionEvent)
    requires Good(s)
    ensures var t := BeforeWindows(s, e);
            Underway(t) && ModesInOrder(t) && ModeMoves(s, t) && t.congestionWindow == s.congestionWindow
  {
    var s0 := InFlightUpdated(s, e);
    var s1 := AcksSeen(s0, e);
    assert Underway(s0) && SameModeAndWindow(s, s0) && ModesInOrder(s0);
    AcksKeep(s0, e);
    ModelKeeps(s1, e);
    hide AcksSeen, Modelled, ModeUpdated, InFlightUpdated, Underway, RoundStartOf;
    ModeKeeps(Modelled(s1, e), e, RoundStartOf(s, e), e.report.sampleRtt.Some? && MinRttExpired(s1, e.time));
  }

  lemma CountersKeepGood(s: Bbr, isRoundStart: bool)
    requires Good(s)
    ensures var t := RoundCountersReset(s, isRoundStart); Good(t) && SameModeAndWindow(s, t)
  {
  }

  /** A congestion event keeps all bounds, and before full bandwidth it never shrinks the window. */
  lemma CongestionKeepsGood(s: Bbr, e: CongestionEvent)
    requires Good(s)
    ensures var t := AfterCongestion(s, e);
            && Good(t) && ModeMoves(s, t)
            && (!t.isAtFullBandwidth ==> t.congestionWindow >= s.congestionWindow)
  {
    StepsBeforeWindowsKeep(s, e);
    hide BeforeWindows, WindowsUpdated, RoundCountersReset, Good, Underway, RoundStartOf;
    WindowsKeep(BeforeWindows(s, e), e);
    CountersKeepGood(WindowsUpdated(BeforeWindows(s, e), e), RoundStartOf(s, e));
  }

  lemma ExactScaling(packets: nat, oldSize: int, newSize: int)
    requires 0 < oldSize <= newSize
    ensures ScaledWindow(packets * oldSize, oldSize, newSize) == packets * newSize
  {
    var n, q := packets * oldSize * newSize, packets * newSize;
    assert n == q * oldSize;
    DivideAndMultiply(n, oldSize);
    UniqueModulus(n, q, 0, oldSize);
    Distribute(n / oldSize, -q, oldSize);
    SmallMultiple(n / oldSize - q, oldSize);
  }

  lemma LargerProduct(packets: nat, oldSize: int, newSize: int)
    requires oldSize <= newSize
    ensures packets * oldSize <= packets * newSize
  {
    Distribute(newSize - oldSize, oldSize, packets);
    SmallMultiple(newSize - oldSize, packets);
  }

  /** A larger datagram scales the limits exactly and never shrinks the window. */
  lemma DatagramSizeKeepsGood(s: Bbr, size: int)
    requires Good(s) && size >= s.maxDatagramSize
    ensures var t := WithDatagramSize(s, size);
            Good(t) && ModeMoves(s, t) && t.congestionWindow >= s.congestionWindow
  {
    ExactScaling(INITIAL_WINDOW_PACKETS, s.maxDatagramSize, size);
    ExactScaling(s.cfg.maxWindowPackets, s.maxDatagramSize, size);
    LargerProduct(s.cfg.maxWindowPackets, s.maxDatagramSize, size);
    Distribute(INITIAL_WINDOW_PACKETS, s.cfg.maxWindowPackets - INITIAL_WINDOW_PACKETS, size);
    SmallMultiple(s.cfg.maxWindowPackets - INITIAL_WINDOW_PACKETS, size);
    hide ScaledWindow;
  }

  datatype Event =
    | Congestion(event: CongestionEvent)
    | Sent(bytesInFlight: int, packetNumber: int)
    | DatagramSize(size: int)

  /** The source panics on an empty event and on a datagram size that shrinks. */
  predicate Allowed(s: Bbr, e: Event) {
    match e
    case Congestion(event) => event.NonEmpty()
    case Sent(_, _) => true
    case DatagramSize(size) => size >= s.maxDatagramSize
  }

  function Next(s: Bbr, e: Event): Bbr
    requires s.maxDatagramSize > 0
  {
    match e
    case Congestion(event) => AfterCongestion(s, event)
    case Sent(bytesInFlight, packetNumber) => AfterSent(s, bytesInFlight, packetNumber)
    case DatagramSize(size) => WithDatagramSize(s, size)
  }

  ghost predicate IsRun(states: seq<Bbr>, events: seq<Event>) {
    && |states| == |events| + 1
    && forall i {:trigger events[i]} | 0 <= i < |events| ::
         states[i].maxDatagramSize > 0 && Allowed(states[i], events[i]) && states[i + 1] == Next(states[i], events[i])
  }

  lemma NextKeepsGood(s: Bbr, e: Event)
    requires Good(s) && Allowed(s, e)
    ensures var t := Next(s, e);
            && Good(t) && ModeMoves(s, t)
            && (!t.isAtFullBandwidth ==> t.congestionWindow >= s.congestionWindow)
  {
    match e
    case Congestion(event) => CongestionKeepsGood(s, event);
    case DatagramSize(size) => DatagramSizeKeepsGood(s, size);
    case Sent(_, _) =>
  }

  /** In every state of every run of a new sender, the packet-sized windows are exact multiples of the
      datagram size, the window handed out lies between the least and the greatest, the modes respect
      full bandwidth, and until then the congestion window has never shrunk. */
  lemma {:induction false} RunStaysGood(states: seq<Bbr>, events: seq<Event>, datagramSize: int, cfg: Config, i: nat,
      j: nat)
    requires IsRun(states, events) && datagramSize > 0 && cfg.maxWindowPackets >= INITIAL_WINDOW_PACKETS
    requires states[0] == NewBbr(datagramSize, cfg) && i <= j <= |events|
    ensures Good(states[j])
    ensures states[j].minCongestionWindow <= CongestionWindowOf(states[j]) <= states[j].maxCongestionWindow
    ensures states[i].isAtFullBandwidth ==> states[j].isAtFullBandwidth && states[j].mode != Startup
    ensures states[i].isAtFullBandwidth && states[i].mode != Drain ==> states[j].mode != Drain
    ensures !states[j].isAtFullBandwidth ==> states[j].congestionWindow >= states[i].congestionWindow
    decreases j
  {
    if j == 0 {
      NewBbrIsGood(datagramSize, cfg);
    } else {
      RunStaysGood(states, events, datagramSize, cfg, if i == j then j - 1 else i, j - 1);
      NextKeepsGood(states[j - 1], events[j - 1]);
      hide Next, Allowed;
    }
    GoodWindow(states[j]);
  }

  class BbrSender {
    const cfg: Config
    const maxBandwidth: WindowedFilter
    var mode: Mode
    var roundTripCount: nat
    var lastSentPacket: int
    var currentRoundTripEnd: int
    var numLossEventsInRound: nat
    var bytesLostInRound: int
    var minRtt: int
    var minRttTimestamp: int
    var congestionWindow: int
    var initialCongestionWindow: int
    var maxCongestionWindow: int
    var minCongestionWindow: int
    var congestionWindowGain: real
    var isAtFullBandwidth: bool
    var roundsWithoutBandwidthGain: int
    var bandwidthAtLastRound: nat
    var exitingQuiescence: bool
    var exitProbeRttAt: int
    var probeRttRoundPassed: bool
    var lastSampleIsAppLimited: bool
    var recoveryState: RecoveryState
    var endRecoveryAt: int
    var recoveryWindow: int
    var maxDatagramSize: int
    var bytesInFlight: int

    ghost predicate Valid()
      reads maxBandwidth
    {
      maxBandwidth.Valid()
    }

    ghost function State(): Bbr
      requires Valid()
      reads this, maxBandwidth, maxBandwidth.estimates
    {
      Bbr(cfg, mode, maxBandwidth.State(), roundTripCount, lastSentPacket, currentRoundTripEnd, numLossEventsInRound,
          bytesLostInRound, minRtt, minRttTimestamp, congestionWindow, initialCongestionWindow, maxCongestionWindow,
          minCongestionWindow, congestionWindowGain, isAtFullBandwidth, roundsWithoutBandwidthGain,
          bandwidthAtLastRound,
          exitingQuiescence, exitProbeRttAt, probeRttRoundPassed, lastSampleIsAppLimited, recoveryState, endRecoveryAt,
          recoveryWindow, maxDatagramSize, bytesInFlight)
    }

    constructor (initialMaxDatagramSize: int, profile: Profile, maxWindowPackets: nat, maxPacketBufferSize: nat)
      ensures Valid() && fresh(maxBandwidth) && fresh(maxBandwidth.estimates)
      ensures State() == NewBbr(initialMaxDatagramSize, ConfigFor(profile, maxWindowPackets, maxPacketBufferSize))
    {
      var c := ConfigFor(profile, maxWindowPackets, maxPacketBufferSize);
      cfg := c;
      maxBandwidth := new WindowedFilter(BANDWIDTH_WINDOW_SIZE);
      roundTripCount, lastSentPacket, currentRoundTripEnd := 0, INVALID_PACKET_NUMBER, INVALID_PACKET_NUMBER;
      numLossEventsInRound, bytesLostInRound, minRtt, minRttTimestamp := 0, 0, 0, 0;
      congestionWindow := INITIAL_WINDOW_PACKETS * initialMaxDatagramSize;
      initialCongestionWindow := INITIAL_WINDOW_PACKETS * initialMaxDatagramSize;
      maxCongestionWindow := maxWindowPackets * initialMaxDatagramSize;
      minCongestionWindow := MIN_WINDOW_PACKETS * initialMaxDatagramSize;
      isAtFullBandwidth, roundsWithoutBandwidthGain, bandwidthAtLastRound := false, 0, 0;
      exitingQuiescence, exitProbeRttAt, probeRttRoundPassed, lastSampleIsAppLimited := false, 0, false, false;
      recoveryState, endRecoveryAt := NotInRecovery, INVALID_PACKET_NUMBER;
      recoveryWindow := maxWindowPackets * initialMaxDatagramSize;
      maxDatagramSize, bytesInFlight := initialMaxDatagramSize, 0;
      // The sender starts in startup mode.
      mode, congestionWindowGain := Startup, c.highCwndGain;
    }

    method OnPacketSent(bytesInFlight: int, packetNumber: int)
      requires Valid()
      modifies `lastSentPacket, `bytesInFlight, `exitingQuiescence
      ensures Valid() && State() == AfterSent(old(State()), bytesInFlight, packetNumber)
    {
      lastSentPacket := packetNumber;
      this.bytesInFlight := bytesInFlight;
      if bytesInFlight == 0 {
        exitingQuiescence := true;
      }
    }

    method OnCongestionEventEx(e: CongestionEvent)
      requires Valid() && e.NonEmpty()
      modifies this, maxBandwidth.estimates
      ensures Valid() && State() == AfterCongestion(old(State()), e)
    {
      hide Modelled, ModeUpdated, WindowCalculated, RecoveryWindowCalculated, RoundUpdated, RecoveryUpdated,
           TotalBytes, InFlightUpdated, RoundCountersReset;
      UpdateBytesInFlight(e);
      var isRoundStart := false;
      if e.acked != [] {
        isRoundStart := SeeAcks(e.acked[|e.acked| - 1].number, e.lost != []);
      }
      var minRttExpired := UpdateModel(e);
      UpdateMode(e, isRoundStart, minRttExpired);
      CalculateCongestionWindow(e);
      CalculateRecoveryWindow(e.report.bytesAcked, e.lost);
      ResetRoundCounters(isRoundStart);
    }

    method ResetRoundCounters(isRoundStart: bool)
      requires Valid()
      modifies `numLossEventsInRound, `bytesLostInRound
      ensures Valid() && State() == RoundCountersReset(old(State()), isRoundStart)
    {
      if isRoundStart {
        numLossEventsInRound, bytesLostInRound := 0, 0;
      }
    }

    method UpdateBytesInFlight(e: CongestionEvent)
      requires Valid()
      modifies `bytesInFlight
      ensures Valid() && State() == InFlightUpdated(old(State()), e)
    {
      bytesInFlight := e.priorInFlight;
      for i := 0 to |e.acked|
        invariant bytesInFlight == e.priorInFlight - TotalBytes(e.acked[..i])
      {
        assert e.acked[..i + 1][..i] == e.acked[..i];
        bytesInFlight := bytesInFlight - e.acked[i].bytes;
      }
      assert e.acked[..|e.acked|] == e.acked;
      for i := 0 to |e.lost|
        invariant bytesInFlight == e.priorInFlight - TotalBytes(e.acked) - TotalBytes(e.lost[..i])
      {
        assert e.lost[..i + 1][..i] == e.lost[..i];
        bytesInFlight := bytesInFlight - e.lost[i].bytes;
      }
      assert e.lost[..|e.lost|] == e.lost;
    }

    method SeeAcks(lastAckedPacket: int, hasLosses: bool) returns (isRoundStart: bool)
      requires Valid()
      modifies this
      ensures Valid()
      ensures State() == RecoveryUpdated(RoundUpdated(old(State()), lastAckedPacket), lastAckedPacket, hasLosses,
              isRoundStart)
      ensures isRoundStart == StartsRound(old(State()), lastAckedPacket)
    {
      hide RoundUpdated, RecoveryUpdated;
      isRoundStart := UpdateRoundTripCounter(lastAckedPacket);
      UpdateRecoveryState(lastAckedPacket, hasLosses, isRoundStart);
    }

    method UpdateRoundTripCounter(lastAckedPacket: int) returns (advanced: bool)
      requires Valid()
      modifies `roundTripCount, `currentRoundTripEnd
      ensures Valid() && State() == RoundUpdated(old(State()), lastAckedPacket)
      ensures advanced == StartsRound(old(State()), lastAckedPacket)
    {
      if currentRoundTripEnd == INVALID_PACKET_NUMBER || lastAckedPacket > currentRoundTripEnd {
        roundTripCount := roundTripCount + 1;
        currentRoundTripEnd := lastSentPacket;
        return true;
      }
      return false;
    }

    method UpdateRecoveryState(lastAckedPacket: int, hasLosses: bool, isRoundStart: bool)
      requires Valid()
      modifies `recoveryState, `recoveryWindow, `endRecoveryAt, `currentRoundTripEnd
      ensures Valid() && State() == RecoveryUpdated(old(State()), lastAckedPacket, hasLosses, isRoundStart)
    {
      hide RecoveryEntered, RecoveryAdvanced;
      if !isAtFullBandwidth {
        return;
      }
      if hasLosses {
        endRecoveryAt := lastSentPacket;
      }
      if recoveryState != NotInRecovery {
        AdvanceRecovery(lastAckedPacket, hasLosses, isRoundStart);
      } else if hasLosses {
        EnterRecovery();
      }
    }

    method EnterRecovery()
      requires Valid()
      modifies `recoveryState, `recoveryWindow, `currentRoundTripEnd
      ensures Valid() && State() == RecoveryEntered(old(State()))
    {
      recoveryState := Conservation;
      recoveryWindow := 0;
      currentRoundTripEnd := lastSentPacket;
    }

    method AdvanceRecovery(lastAckedPacket: int, hasLosses: bool, isRoundStart: bool)
      requires Valid()
      modifies `recoveryState
      ensures Valid() && State() == RecoveryAdvanced(old(State()), lastAckedPacket, hasLosses, isRoundStart)
    {
      if recoveryState == Conservation && isRoundStart {
        recoveryState := Growth;
      }
      if !hasLosses && lastAckedPacket > endRecoveryAt {
        recoveryState := NotInRecovery;
      }
    }

    method UpdateModel(e: CongestionEvent) returns (minRttExpired: bool)
      requires Valid()
      modifies this, maxBandwidth.estimates
      ensures Valid() && State() == Modelled(old(State()), e)
      ensures minRttExpired == (e.report.sampleRtt.Some? && MinRttExpired(old(State()), e.time))
    {
      hide Updated, TotalBytes;
      UseSample(e.report);
      minRttExpired := false;
      if e.report.sampleRtt.Some? {
        minRttExpired := MaybeUpdateMinRtt(e.time, e.report.sampleRtt.value);
      }
      if e.lost != [] {
        CountLosses(e.lost);
      }
    }

    method UseSample(r: Report)
      requires Valid()
      modifies `lastSampleIsAppLimited, maxBandwidth.estimates
      ensures Valid() && State() == SampleUsed(old(State()), r)
    {
      hide Updated;
      if r.lastPacketSendState.Some? {
        lastSampleIsAppLimited := r.lastPacketSendState.value.isAppLimited;
      }
      if r.bytesAcked != 0 {
        if !r.sampleIsAppLimited || r.sampleMaxBandwidth > maxBandwidth.GetBest() {
          maxBandwidth.Update(r.sampleMaxBandwidth, roundTripCount);
        }
      }
    }

    method MaybeUpdateMinRtt(now: int, sampleMinRtt: int) returns (minRttExpired: bool)
      requires Valid()
      modifies `minRtt, `minRttTimestamp
      ensures Valid() && State() == MinRttUpdated(old(State()), now, Some(sampleMinRtt))
      ensures minRttExpired == MinRttExpired(old(State()), now)
    {
      minRttExpired := minRtt != 0 && now > minRttTimestamp + MIN_RTT_EXPIRY;
      if minRttExpired || sampleMinRtt < minRtt || minRtt == 0 {
        minRtt := sampleMinRtt;
        minRttTimestamp := now;
      }
    }

    method CountLosses(lost: seq<PacketInfo>)
      requires Valid() && lost != []
      modifies `numLossEventsInRound, `bytesLostInRound
      ensures Valid() && State() == LossesCounted(old(State()), lost)
    {
      numLossEventsInRound := numLossEventsInRound + 1;
      bytesLostInRound := bytesLostInRound + TotalBytes(lost);
    }

    method UpdateMode(e: CongestionEvent, isRoundStart: bool, minRttExpired: bool)
      requires Valid()
      modifies this
      ensures Valid() && State() == ModeUpdated(old(State()), e, isRoundStart, minRttExpired)
    {
      hide FullBandwidthChecked, StartupOrDrainExited, ProbeRttChecked, TargetWindow;
      if isRoundStart && !isAtFullBandwidth {
        CheckIfFullBandwidthReached(e.report.lastPacketSendState);
      }
      MaybeExitStartupOrDrain(e.rttStatsMin);
      MaybeEnterOrExitProbeRtt(e.time, isRoundStart, minRttExpired);
    }

    method CheckIfFullBandwidthReached(sent: Option<SendState>)
      requires Valid()
      modifies `bandwidthAtLastRound, `roundsWithoutBandwidthGain, `isAtFullBandwidth
      ensures Valid() && State() == FullBandwidthChecked(old(State()), sent)
    {
      if lastSampleIsAppLimited {
        return;
      }
      var target := (bandwidthAtLastRound as real * STARTUP_GROWTH_TARGET).Floor;
      if maxBandwidth.GetBest() >= target {
        bandwidthAtLastRound := maxBandwidth.GetBest();
        roundsWithoutBandwidthGain := 0;
        return;
      }
      var lossy := ShouldExitStartupDueToLoss(sent);
      roundsWithoutBandwidthGain := roundsWithoutBandwidthGain + 1;
      if roundsWithoutBandwidthGain >= cfg.numStartupRtts || lossy {
        isAtFullBandwidth := true;
      }
    }

    predicate ShouldExitStartupDueToLoss(sent: Option<SendState>)
      requires Valid()
      reads this, maxBandwidth, maxBandwidth.estimates
      ensures ShouldExitStartupDueToLoss(sent) <==> ExitsStartupDueToLoss(State(), sent)
    {
      if numLossEventsInRound < STARTUP_FULL_LOSS_COUNT || sent.None? then false
      else if sent.value.bytesInFlight > 0 && bytesLostInRound > 0 then
        bytesLostInRound > (sent.value.bytesInFlight as real * LOSS_THRESHOLD).Floor
      else false
    }

    function GetTargetCongestionWindow(gain: real, rttStatsMin: int): (window: int)
      requires Valid()
      reads this, maxBandwidth, maxBandwidth.estimates
      ensures window == TargetWindow(State(), gain, rttStatsMin)
    {
      var rtt := if minRtt != 0 then minRtt else if rttStatsMin == 0 then 100 * MILLISECOND else rttStatsMin;
      WindowFor(gain, Bdp(rtt, maxBandwidth.GetBest()), initialCongestionWindow, minCongestionWindow)
    }

    method MaybeExitStartupOrDrain(rttStatsMin: int)
      requires Valid()
      modifies `mode, `congestionWindowGain
      ensures Valid() && State() == StartupOrDrainExited(old(State()), rttStatsMin)
    {
      hide TargetWindow;
      if mode == Startup && isAtFullBandwidth {
        mode := Drain;
        congestionWindowGain := cfg.highCwndGain;
      }
      if mode == Drain && bytesInFlight <= GetTargetCongestionWindow(1.0, rttStatsMin) {
        EnterProbeBandwidthMode();
      }
    }

    method MaybeEnterOrExitProbeRtt(now: int, isRoundStart: bool, minRttExpired: bool)
      requires Valid()
      modifies `mode, `exitProbeRttAt, `exitingQuiescence, `congestionWindowGain, `probeRttRoundPassed, `minRttTimestamp
      ensures Valid() && State() == ProbeRttChecked(old(State()), now, isRoundStart, minRttExpired)
    {
      hide ProbeRttEntered, ProbeRttAdvanced;
      MaybeEnterProbeRtt(minRttExpired);
      AdvanceProbeRtt(now, isRoundStart);
      exitingQuiescence := false;
    }

    method MaybeEnterProbeRtt(minRttExpired: bool)
      requires Valid()
      modifies `mode, `exitProbeRttAt
      ensures Valid() && State() == ProbeRttEntered(old(State()), minRttExpired)
    {
      if minRttExpired && !exitingQuiescence && mode != ProbeRtt {
        mode := ProbeRtt;
        exitProbeRttAt := 0;
      }
    }

    method AdvanceProbeRtt(now: int, isRoundStart: bool)
      requires Valid()
      modifies `mode, `congestionWindowGain, `exitProbeRttAt, `probeRttRoundPassed, `minRttTimestamp
      ensures Valid() && State() == ProbeRttAdvanced(old(State()), now, isRoundStart)
    {
      hide ProbeRttLeft;
      if mode != ProbeRtt {
        return;
      }
      if exitProbeRttAt == 0 {
        if bytesInFlight < minCongestionWindow + cfg.maxPacketBufferSize {
          exitProbeRttAt := now + PROBE_RTT_TIME;
          probeRttRoundPassed := false;
        }
      } else {
        if isRoundStart {
          probeRttRoundPassed := true;
        }
        if now - exitProbeRttAt >= 0 && probeRttRoundPassed {
          LeaveProbeRtt(now);
        }
      }
    }

    method LeaveProbeRtt(now: int)
      requires Valid()
      modifies `mode, `congestionWindowGain, `minRttTimestamp
      ensures Valid() && State() == ProbeRttLeft(old(State()), now)
    {
      hide InStartup, InProbeBw;
      minRttTimestamp := now;
      if !isAtFullBandwidth {
        EnterStartupMode();
      } else {
        EnterProbeBandwidthMode();
      }
    }

    method EnterStartupMode()
      requires Valid()
      modifies `mode, `congestionWindowGain
      ensures Valid() && State() == InStartup(old(State()))
    {
      mode := Startup;
      congestionWindowGain := cfg.highCwndGain;
    }

    method EnterProbeBandwidthMode()
      requires Valid()
      modifies `mode, `congestionWindowGain
      ensures Valid() && State() == InProbeBw(old(State()))
    {
      mode := ProbeBw;
      congestionWindowGain := cfg.congestionWindowGainConstant;
    }

    method CalculateCongestionWindow(e: CongestionEvent)
      requires Valid()
      modifies `congestionWindow
      ensures Valid() && State() == WindowCalculated(old(State()), e)
    {
      hide TargetWindow;
      if mode == ProbeRtt {
        return;
      }
      var targetWindow := GetTargetCongestionWindow(congestionWindowGain, e.rttStatsMin);
      if isAtFullBandwidth {
        targetWindow := targetWindow + e.report.maxAckHeight;
      } else if cfg.enableAckAggregationStartup {
        targetWindow := targetWindow + e.report.extraAcked;
      }
      var window := congestionWindow;
      if isAtFullBandwidth {
        window := Min(targetWindow, window + e.report.bytesAcked);
      } else if window < targetWindow || e.report.totalBytesAcked < initialCongestionWindow {
        window := window + e.report.bytesAcked;
      }
      window := Max(window, minCongestionWindow);
      congestionWindow := Min(window, maxCongestionWindow);
    }

    method CalculateRecoveryWindow(bytesAcked: nat, lost: seq<PacketInfo>)
      requires Valid()
      modifies `recoveryWindow
      ensures Valid() && State() == RecoveryWindowCalculated(old(State()), bytesAcked, TotalBytes(lost))
    {
      hide TotalBytes;
      if recoveryState == NotInRecovery {
        return;
      }
      if recoveryWindow == 0 {
        recoveryWindow := Max(minCongestionWindow, bytesInFlight + bytesAcked);
        return;
      }
      var window := if recoveryWindow >= TotalBytes(lost) then recoveryWindow - TotalBytes(lost) else maxDatagramSize;
      if recoveryState == Growth {
        window := window + bytesAcked;
      }
      window := Max(window, bytesInFlight + bytesAcked);
      recoveryWindow := Max(minCongestionWindow, window);
    }

    method SetMaxDatagramSize(size: int)
      requires Valid() && 0 < maxDatagramSize <= size
      modifies `maxDatagramSize, `initialCongestionWindow, `maxCongestionWindow, `minCongestionWindow,
               `congestionWindow, `recoveryWindow
      ensures Valid() && State() == WithDatagramSize(old(State()), size)
    {
      hide ScaledWindow;
      var oldMinCongestionWindow := minCongestionWindow;
      var oldInitialCongestionWindow := initialCongestionWindow;
      RescalePacketSizedWindows(size);
      if congestionWindow == oldMinCongestionWindow {
        congestionWindow := minCongestionWindow;
      } else if congestionWindow == oldInitialCongestionWindow {
        congestionWindow := initialCongestionWindow;
      } else {
        congestionWindow := Min(maxCongestionWindow, Max(congestionWindow, minCongestionWindow));
      }
      recoveryWindow := Min(maxCongestionWindow, Max(recoveryWindow, minCongestionWindow));
    }

    method RescalePacketSizedWindows(size: int)
      requires Valid() && maxDatagramSize > 0
      modifies `maxDatagramSize, `initialCongestionWindow, `maxCongestionWindow, `minCongestionWindow
      ensures Valid() && State() == Rescaled(old(State()), size)
    {
      hide ScaledWindow;
      RescaleLimits(maxDatagramSize, size);
      maxDatagramSize := size;
      minCongestionWindow := MIN_WINDOW_PACKETS * size;
    }

    method RescaleLimits(oldSize: int, newSize: int)
      requires Valid() && oldSize > 0
      modifies `initialCongestionWindow, `maxCongestionWindow
      ensures Valid()
      ensures State() == old(State()).(
                initialCongestionWindow := ScaledWindow(old(initialCongestionWindow), oldSize, newSize),
                maxCongestionWindow := ScaledWindow(old(maxCongestionWindow), oldSize, newSize))
    {
      hide ScaledWindow;
      initialCongestionWindow := ScaledWindow(initialCongestionWindow, oldSize, newSize);
      maxCongestionWindow := ScaledWindow(maxCongestionWindow, oldSize, newSize);
    }

    function GetCongestionWindow(): (window: int)
      requires Valid()
      reads this, maxBandwidth, maxBandwidth.estimates
      ensures window == CongestionWindowOf(State())
      ensures Good(State()) ==> minCongestionWindow <= window <= maxCongestionWindow
    {
      if mode == ProbeRtt then minCongestionWindow
      else if recoveryState != NotInRecovery then Min(congestionWindow, recoveryWindow)
      else congestionWindow
    }
  }
}
