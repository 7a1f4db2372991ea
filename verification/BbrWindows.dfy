/** Where the congestion window of the BBR sender goes: it follows the acknowledged bytes up to its target, and the
    target is a gain times what the path holds. */
module BbrWindows {
  import opened Basics
  import opened WindowedFilters
  import opened BbrSenders
  import opened BbrRuns

  // ---- Steps that leave the limits alone ----

  predicate SameLimits(s: Bbr, t: Bbr) {
    t.minCongestionWindow == s.minCongestionWindow && t.initialCongestionWindow == s.initialCongestionWindow
    && t.maxCongestionWindow == s.maxCongestionWindow && t.cfg == s.cfg
  }

  /** The limits are multiples of the datagram size, so that the least one decides the others. */
  lemma LeastLimitDecides(s: Bbr, t: Bbr)
    requires Scaled(s) && Scaled(t) && t.cfg == s.cfg && t.minCongestionWindow == s.minCongestionWindow
    ensures SameLimits(s, t) && t.maxDatagramSize == s.maxDatagramSize
  {
    assert t.maxDatagramSize == s.maxDatagramSize;
  }

  lemma CheckKeepsLimits(s: Bbr, now: int, isRoundStart: bool, minRttExpired: bool)
    ensures var t := ProbeRttChecked(s, now, isRoundStart, minRttExpired);
            t.cfg == s.cfg && t.minCongestionWindow == s.minCongestionWindow
  {
  }

  lemma BeforeWindowsKeepsLimits(s: Bbr, e: CongestionEvent)
    requires Good(s)
    ensures SameLimits(s, BeforeWindows(s, e))
  {
    var s0, isRoundStart := InFlightUpdated(s, e), RoundStartOf(s, e);
    var s1 := AcksSeen(s0, e);
    var s2, expired := Modelled(s1, e), e.report.sampleRtt.Some? && MinRttExpired(s1, e.time);
    var s3 := BeforeProbe(s2, e, isRoundStart);
    AcksSameProbe(s0, e);
    ModelAside(s1, e);
    BeforeProbeAside(s2, e, isRoundStart);
    CheckKeepsLimits(s3, e.time, isRoundStart, expired);
    StepsBeforeWindowsKeep(s, e);
    assert BeforeWindows(s, e) == ProbeRttChecked(s3, e.time, isRoundStart, expired);
    assert s0.cfg == s.cfg && s0.minCongestionWindow == s.minCongestionWindow;
    hide AcksSeen, Modelled, BeforeProbe, ProbeRttChecked, BeforeWindows, InFlightUpdated, RoundStartOf,
         WindowsInBounds, ModesInOrder;
    LeastLimitDecides(s, BeforeWindows(s, e));
  }

  predicate SamePath(s: Bbr, t: Bbr) {
    t.mode == s.mode && t.isAtFullBandwidth == s.isAtFullBandwidth && t.congestionWindowGain == s.congestionWindowGain
    && t.minRtt == s.minRtt && t.filter == s.filter && SameLimits(s, t)
  }

  lemma WindowSamePath(s: Bbr, e: CongestionEvent)
    ensures SamePath(s, WindowCalculated(s, e))
  {
    hide TargetWindow;
  }

  lemma RecoveryWindowSamePath(s: Bbr, bytesAcked: nat, bytesLost: nat)
    ensures var t := RecoveryWindowCalculated(s, bytesAcked, bytesLost);
            SamePath(s, t) && t.congestionWindow == s.congestionWindow
  {
  }

  lemma AfterWindows(s: Bbr, e: CongestionEvent)
    ensures var u, t := BeforeWindows(s, e), AfterCongestion(s, e);
            SamePath(u, t) && t.congestionWindow == WindowCalculated(u, e).congestionWindow
  {
    var u := BeforeWindows(s, e);
    WindowSamePath(u, e);
    RecoveryWindowSamePath(WindowCalculated(u, e), e.report.bytesAcked, TotalBytes(e.lost));
    hide BeforeWindows, WindowCalculated, RecoveryWindowCalculated, RoundStartOf;
  }

  // ---- The target ----

  lemma NestedQuotient(a: int)
    ensures a / 8 / 1_000_000_000 == a / 8_000_000_000
  {
  }

  /** What a path of this round-trip time and this rate in bits per second holds, in bytes. */
  function PathHolds(rtt: int, bandwidth: nat): real {
    (rtt * bandwidth) as real / 8_000_000_000.0
  }

  lemma QuotientBounds(rtt: int, bandwidth: nat)
    ensures var held := (rtt * bandwidth / 8_000_000_000) as real; held <= PathHolds(rtt, bandwidth) < held + 1.0
  {
    var a := rtt * bandwidth;
    assert 8_000_000_000 * (a / 8_000_000_000) <= a < 8_000_000_000 * (a / 8_000_000_000) + 8_000_000_000;
  }

  function Gained(gain: real, held: real): real {
    gain * held
  }

  lemma GainBounds(gain: real, x: real, y: real)
    requires gain >= 0.0 && x <= y < x + 1.0
    ensures Gained(gain, x) <= Gained(gain, y) <= Gained(gain, x) + gain
  {
    var d := y - x;
    assert 0.0 <= gain * d;
    assert 0.0 <= gain * (1.0 - d);
    assert Gained(gain, y) == gain * (x + d) == gain * x + gain * d;
  }

  lemma FloorIsZero(x: real)
    ensures x.Floor == 0 <==> 0.0 <= x < 1.0
  {
  }

  lemma BdpIsWhole(rtt: int, bandwidth: nat)
    ensures Bdp(rtt, bandwidth) == rtt * bandwidth / 8_000_000_000
  {
    NestedQuotient(rtt * bandwidth);
  }

  /** The measured minimum round-trip time, else the one of the connection, else a tenth of a second. */
  function RttInUse(s: Bbr, rttStatsMin: int): int {
    if s.minRtt == 0 && rttStatsMin == 0 then 100_000_000 else if s.minRtt == 0 then rttStatsMin else s.minRtt
  }

  lemma WindowIsExact(gain: real, whole: int, initial: int, least: int)
    ensures var byPath := Gained(gain, whole as real);
            WindowFor(gain, whole, initial, least) ==
            Max(if 0.0 <= byPath < 1.0 then Gained(gain, initial as real).Floor else byPath.Floor, least)
  {
    FloorIsZero(gain * whole as real);
  }

  /** The target is the gain times the whole bytes that the path holds, but no less than the least window, and while
      that gives no window, it is the gain times the initial one. */
  lemma TargetIsExact(s: Bbr, gain: real, rttStatsMin: int)
    ensures var whole := (RttInUse(s, rttStatsMin) * s.filter.e0.sample / 8_000_000_000) as real;
            TargetWindow(s, gain, rttStatsMin) ==
            Max(if 0.0 <= Gained(gain, whole) < 1.0 then Gained(gain, s.initialCongestionWindow as real).Floor
                else Gained(gain, whole).Floor, s.minCongestionWindow)
  {
    var rtt := RttInUse(s, rttStatsMin);
    assert CurrentMinRtt(s, rttStatsMin) == rtt;
    BdpIsWhole(rtt, s.filter.e0.sample);
    WindowIsExact(gain, rtt * s.filter.e0.sample / 8_000_000_000, s.initialCongestionWindow, s.minCongestionWindow);
    hide CurrentMinRtt, RttInUse, Bdp, WindowFor, Gained;
  }

  lemma RoundedBounds(x: real, y: real, gain: real, start: int, least: int, target: int)
    requires x <= y <= x + gain && target == Max(if 0.0 <= x < 1.0 then start else x.Floor, least)
    ensures y >= gain + 1.0 ==>
              target as real > y - gain - 1.0 && target >= least && (target as real <= y || target == least)
  {
  }

  /** Up to the two roundings, it is the gain times what the path holds. */
  lemma TargetIsPathTimesGain(s: Bbr, gain: real, rttStatsMin: int)
    requires gain >= 0.0
    ensures var product := Gained(gain, PathHolds(RttInUse(s, rttStatsMin), s.filter.e0.sample));
            var target, least := TargetWindow(s, gain, rttStatsMin), s.minCongestionWindow;
            product >= gain + 1.0 ==>
              target as real > product - gain - 1.0 && target >= least && (target as real <= product || target == least)
  {
    var rtt, bandwidth := RttInUse(s, rttStatsMin), s.filter.e0.sample;
    var whole := (rtt * bandwidth / 8_000_000_000) as real;
    QuotientBounds(rtt, bandwidth);
    TargetIsExact(s, gain, rttStatsMin);
    GainBounds(gain, whole, PathHolds(rtt, bandwidth));
    hide *;
    RoundedBounds(Gained(gain, whole), Gained(gain, PathHolds(rtt, bandwidth)), gain,
        Gained(gain, s.initialCongestionWindow as real).Floor, s.minCongestionWindow,
        TargetWindow(s, gain, rttStatsMin));
  }

  // ---- One event ----

  /** Where the window is heading: the target and the acknowledgements that came ahead of the estimated rate. */
  function Goal(t: Bbr, e: CongestionEvent): int {
    TargetWindow(t, t.congestionWindowGain, e.rttStatsMin)
    + (if t.isAtFullBandwidth then e.report.maxAckHeight
       else if t.cfg.enableAckAggregationStartup then e.report.extraAcked else 0)
  }

  /** How an event moves the window from state `s` to state `t`. At full bandwidth it goes to its goal, up by no more
      than the acknowledged bytes; before, it grows by all of them below the goal or while less than the initial
      window was ever acknowledged, and rests otherwise. */
  predicate WindowMoves(s: Bbr, t: Bbr, e: CongestionEvent) {
    var full := s.congestionWindow + e.report.bytesAcked;
    if t.mode == ProbeRtt then t.congestionWindow == s.congestionWindow
    else if t.isAtFullBandwidth then
      && t.minCongestionWindow <= t.congestionWindow <= t.maxCongestionWindow
      && (full <= Goal(t, e) ==> t.congestionWindow == Min(full, t.maxCongestionWindow))
      && (t.minCongestionWindow <= Goal(t, e) <= full ==>
            t.congestionWindow == Min(Goal(t, e), t.maxCongestionWindow))
      && (Goal(t, e) < t.minCongestionWindow ==> t.congestionWindow == t.minCongestionWindow)
    else
      && (s.congestionWindow < Goal(t, e) ==> t.congestionWindow == Min(full, t.maxCongestionWindow))
      && (e.report.totalBytesAcked < t.initialCongestionWindow ==>
            t.congestionWindow == Min(full, t.maxCongestionWindow))
      && (s.congestionWindow >= Goal(t, e) && e.report.totalBytesAcked >= t.initialCongestionWindow ==>
            t.congestionWindow == s.congestionWindow)
  }

  lemma CalculatedMoves(u: Bbr, e: CongestionEvent)
    requires Underway(u)
    ensures WindowMoves(u, WindowCalculated(u, e), e)
  {
    WindowSamePath(u, e);
    var t := WindowCalculated(u, e);
    assert Goal(t, e) == Goal(u, e);
    hide TargetWindow;
  }

  lemma EventMovesWindow(s: Bbr, e: CongestionEvent)
    requires Good(s)
    ensures WindowMoves(s, AfterCongestion(s, e), e) && SameLimits(s, AfterCongestion(s, e))
  {
    StepsBeforeWindowsKeep(s, e);
    BeforeWindowsKeepsLimits(s, e);
    AfterWindows(s, e);
    CalculatedMoves(BeforeWindows(s, e), e);
    WindowSamePath(BeforeWindows(s, e), e);
    hide AfterCongestion, BeforeWindows, WindowCalculated, Underway, Good;
    MovesAcross(s, BeforeWindows(s, e), WindowCalculated(BeforeWindows(s, e), e), AfterCongestion(s, e), e);
  }

  lemma MovesAcross(s: Bbr, u: Bbr, v: Bbr, t: Bbr, e: CongestionEvent)
    requires u.congestionWindow == s.congestionWindow && WindowMoves(u, v, e)
    requires SamePath(u, v) && SamePath(u, t) && t.congestionWindow == v.congestionWindow
    ensures WindowMoves(s, t, e)
  {
    assert Goal(t, e) == Goal(v, e);
    hide TargetWindow, Goal;
  }

  // ---- The gain of each mode ----

  predicate SameGain(s: Bbr, t: Bbr) {
    t.mode == s.mode && t.congestionWindowGain == s.congestionWindowGain && t.cfg == s.cfg
  }

  /** The gain before and while draining is the high one, and the constant one while cruising. */
  predicate GainFits(s: Bbr) {
    && (s.mode == Startup || s.mode == Drain ==> s.congestionWindowGain == s.cfg.highCwndGain)
    && (s.mode == ProbeBw ==> s.congestionWindowGain == s.cfg.congestionWindowGainConstant)
  }

  lemma AcksSameGain(s: Bbr, e: CongestionEvent)
    ensures SameGain(s, AcksSeen(s, e))
  {
    if e.acked != [] {
      var last := e.acked[|e.acked| - 1].number;
      assert SameGain(s, RoundUpdated(s, last));
      RecoverySameGain(RoundUpdated(s, last), last, e.lost != [], StartsRound(s, last));
      hide RoundUpdated, RecoveryUpdated;
    }
  }

  lemma RecoverySameGain(s: Bbr, last: int, hasLosses: bool, isRoundStart: bool)
    ensures SameGain(s, RecoveryUpdated(s, last, hasLosses, isRoundStart))
  {
  }

  lemma ModelSameGain(s: Bbr, e: CongestionEvent)
    ensures SameGain(s, Modelled(s, e))
  {
    hide Updated, TotalBytes;
    var t := SampleUsed(s, e.report);
    assert SameGain(s, t);
    var u := MinRttUpdated(t, e.time, e.report.sampleRtt);
    assert SameGain(t, u);
    assert SameGain(u, LossesCounted(u, e.lost));
    hide SampleUsed, MinRttUpdated, LossesCounted;
  }

  lemma FullBandwidthSameGain(s: Bbr, sent: Option<SendState>)
    ensures SameGain(s, FullBandwidthChecked(s, sent))
  {
    hide ExitsStartupDueToLoss;
  }

  lemma BeforeProbeGainFits(s: Bbr, e: CongestionEvent, isRoundStart: bool)
    requires GainFits(s)
    ensures GainFits(BeforeProbe(s, e, isRoundStart))
  {
    FullBandwidthSameGain(s, e.report.lastPacketSendState);
    hide TargetWindow, FullBandwidthChecked;
  }

  lemma CheckGainFits(s: Bbr, now: int, isRoundStart: bool, minRttExpired: bool)
    requires GainFits(s)
    ensures GainFits(ProbeRttChecked(s, now, isRoundStart, minRttExpired))
  {
  }

  lemma EventGainFits(s: Bbr, e: CongestionEvent)
    requires GainFits(s)
    ensures GainFits(AfterCongestion(s, e))
  {
    var s0, isRoundStart := InFlightUpdated(s, e), RoundStartOf(s, e);
    var s1 := AcksSeen(s0, e);
    var s2, expired := Modelled(s1, e), e.report.sampleRtt.Some? && MinRttExpired(s1, e.time);
    var s3 := BeforeProbe(s2, e, isRoundStart);
    assert SameGain(s, s0);
    AcksSameGain(s0, e);
    ModelSameGain(s1, e);
    hide InFlightUpdated, AcksSeen, Modelled;
    BeforeProbeGainFits(s2, e, isRoundStart);
    CheckGainFits(s3, e.time, isRoundStart, expired);
    assert BeforeWindows(s, e) == ProbeRttChecked(s3, e.time, isRoundStart, expired);
    AfterWindows(s, e);
    hide AfterCongestion, BeforeWindows, BeforeProbe, ProbeRttChecked;
  }

  // ---- Whole runs ----

  /** What a run does to the window. */
  predicate MovesTo(s: Bbr, t: Bbr, e: Event) {
    match e
    case Congestion(event) => WindowMoves(s, t, event) && SameLimits(s, t)
    case Sent(_, _) => t.congestionWindow == s.congestionWindow && SameLimits(s, t)
    case DatagramSize(_) => true
  }

  predicate InLimits(s: Bbr) {
    s.minCongestionWindow <= s.congestionWindow <= s.maxCongestionWindow
  }

  ghost predicate WindowRun(states: seq<Bbr>, events: seq<Event>) {
    && |states| == |events| + 1 && (forall i | 0 <= i < |states| :: InLimits(states[i]) && GainFits(states[i]))
    && forall i {:trigger events[i]} | 0 <= i < |events| :: MovesTo(states[i], states[i + 1], events[i])
  }

  lemma NextMovesTo(s: Bbr, e: Event)
    requires Good(s) && GainFits(s)
    ensures MovesTo(s, Next(s, e), e) && GainFits(Next(s, e))
  {
    match e
    case Congestion(event) =>
      EventMovesWindow(s, event);
      EventGainFits(s, event);
      hide AfterCongestion, WindowMoves;
    case Sent(_, _) =>
    case DatagramSize(_) =>
      hide ScaledWindow;
  }

  lemma {:induction false} GainFitsInRun(states: seq<Bbr>, events: seq<Event>, datagramSize: int, cfg: Config, i: nat)
    requires IsRun(states, events) && datagramSize > 0 && cfg.maxWindowPackets >= INITIAL_WINDOW_PACKETS
    requires states[0] == NewBbr(datagramSize, cfg) && i <= |events|
    ensures GainFits(states[i])
  {
    if i == 0 {
    } else {
      GainFitsInRun(states, events, datagramSize, cfg, i - 1);
      RunStaysGood(states, events, datagramSize, cfg, i - 1, i - 1);
      NextMovesTo(states[i - 1], events[i - 1]);
      hide Next, Allowed, Good, GainFits;
    }
  }

  /** In every run of a new sender the window moves by these rules, with the gain of the mode. */
  lemma RunMovesWindow(states: seq<Bbr>, events: seq<Event>, datagramSize: int, cfg: Config)
    requires IsRun(states, events) && datagramSize > 0 && cfg.maxWindowPackets >= INITIAL_WINDOW_PACKETS
    requires states[0] == NewBbr(datagramSize, cfg)
    ensures WindowRun(states, events)
  {
    hide Next, Allowed, NewBbr, GainFits, MovesTo;
    forall i | 0 <= i < |states| ensures InLimits(states[i]) && GainFits(states[i]) {
      RunStaysGood(states, events, datagramSize, cfg, i, i);
      GainFitsInRun(states, events, datagramSize, cfg, i);
    }
    forall i | 0 <= i < |events| ensures MovesTo(states[i], states[i + 1], events[i]) {
      RunStaysGood(states, events, datagramSize, cfg, i, i);
      NextMovesTo(states[i], events[i]);
    }
  }

  /** From state `i` to state `j` of a run nothing changes the datagram size, and events that touch the window do so
      outside PROBE_RTT. */
  ghost predicate Calm(states: seq<Bbr>, events: seq<Event>, i: nat, j: nat)
    requires i <= j <= |events| < |states|
  {
    forall k {:trigger events[k]} | i <= k < j ::
      !events[k].DatagramSize? && (events[k].Congestion? ==> states[k + 1].mode != ProbeRtt)
  }

  /** Events before full bandwidth that come while less than the initial window was ever acknowledged, or while the
      window is below its goal. */
  ghost predicate Filling(states: seq<Bbr>, events: seq<Event>, i: nat, j: nat)
    requires i <= j <= |events| < |states|
  {
    forall k {:trigger events[k]} | i <= k < j && events[k].Congestion? ::
      && !states[k + 1].isAtFullBandwidth
      && (events[k].event.report.totalBytesAcked < states[k + 1].initialCongestionWindow
          || states[k].congestionWindow < Goal(states[k + 1], events[k].event))
  }

  /** Before full bandwidth the window takes in every acknowledged byte, up to the greatest window, as long as less
      than the initial window was ever acknowledged or the window is below its goal. */
  lemma {:induction false} StartupFollowsAcks(states: seq<Bbr>, events: seq<Event>, i: nat, j: nat)
    requires WindowRun(states, events) && i <= j <= |events| && Calm(states, events, i, j)
    requires Filling(states, events, i, j)
    ensures states[j].congestionWindow ==
            Min(states[i].congestionWindow + AckedBytes(events, i, j), states[i].maxCongestionWindow)
    ensures SameLimits(states[i], states[j])
    decreases j
  {
    hide Goal, GainFits;
    if i == j {
    } else {
      StartupFollowsAcks(states, events, i, j - 1);
      assert MovesTo(states[j - 1], states[j - 1 + 1], events[j - 1]);
    }
  }

  /** A new sender starts with 32 packets and adds every acknowledged byte. */
  lemma SlowStart(states: seq<Bbr>, events: seq<Event>, datagramSize: int, cfg: Config, j: nat)
    requires IsRun(states, events) && datagramSize > 0 && cfg.maxWindowPackets >= INITIAL_WINDOW_PACKETS
    requires states[0] == NewBbr(datagramSize, cfg) && j <= |events| && Calm(states, events, 0, j)
    requires Filling(states, events, 0, j)
    ensures states[j].congestionWindow ==
            Min(32 * datagramSize + AckedBytes(events, 0, j), cfg.maxWindowPackets * datagramSize)
  {
    RunMovesWindow(states, events, datagramSize, cfg);
    hide IsRun, WindowRun, Calm, Filling, Next;
    StartupFollowsAcks(states, events, 0, j);
  }

  /** Every goal on the way is at least `low` and at most `high`. */
  ghost predicate GoalsWithin(states: seq<Bbr>, events: seq<Event>, i: nat, j: nat, low: int, high: int)
    requires i <= j <= |events| < |states|
  {
    forall k {:trigger events[k]} | i <= k < j && events[k].Congestion? ::
      low <= Goal(states[k + 1], events[k].event) <= high
  }

  /** Outside PROBE_RTT the window reaches the least of the goals on its way as soon as enough is acknowledged. */
  lemma {:induction false} WindowReachesGoal(states: seq<Bbr>, events: seq<Event>, i: nat, j: nat, low: int, high: int)
    requires WindowRun(states, events) && i <= j <= |events| && Calm(states, events, i, j)
    requires GoalsWithin(states, events, i, j, low, high)
    ensures states[j].congestionWindow >=
            Min(Min(low, states[j].maxCongestionWindow), states[i].congestionWindow + AckedBytes(events, i, j))
    decreases j
  {
    hide Goal, GainFits;
    if i == j {
    } else {
      WindowReachesGoal(states, events, i, j - 1, low, high);
      assert MovesTo(states[j - 1], states[j - 1 + 1], events[j - 1]);
    }
  }

  /** The congestion events from `i` to before `j` leave the sender at full bandwidth. */
  ghost predicate FullBetween(states: seq<Bbr>, events: seq<Event>, i: nat, j: nat)
    requires i <= j <= |events| < |states|
  {
    forall k {:trigger events[k]} | i <= k < j && events[k].Congestion? :: states[k + 1].isAtFullBandwidth
  }

  /** At full bandwidth one event brings it down to the greatest of the goals, and there it stays. */
  lemma {:induction false} WindowStaysUnderGoal(states: seq<Bbr>, events: seq<Event>, i: nat, k: nat, j: nat, low: int,
      high: int)
    requires WindowRun(states, events) && i <= k < j <= |events| && Calm(states, events, i, j)
    requires GoalsWithin(states, events, i, j, low, high) && FullBetween(states, events, i, j)
    requires events[k].Congestion?
    ensures states[j].congestionWindow <= Max(high, states[j].minCongestionWindow)
    decreases j
  {
    hide Goal, GainFits;
    if k == j - 1 {
    } else {
      WindowStaysUnderGoal(states, events, i, k, j - 1, low, high);
    }
    assert MovesTo(states[j - 1], states[j - 1 + 1], events[j - 1]);
  }

  /** At full bandwidth the window settles between the least and the greatest of its goals, as far as the limits allow,
      as soon as enough is acknowledged. */
  lemma WindowSettles(states: seq<Bbr>, events: seq<Event>, i: nat, k: nat, j: nat, low: int, high: int)
    requires WindowRun(states, events) && i <= k < j <= |events| && Calm(states, events, i, j)
    requires GoalsWithin(states, events, i, j, low, high) && FullBetween(states, events, i, j)
    requires events[k].Congestion? && states[i].congestionWindow + AckedBytes(events, i, j) >= low
    ensures Min(low, states[j].maxCongestionWindow) <= states[j].congestionWindow
            <= Max(high, states[j].minCongestionWindow)
  {
    hide WindowRun, Calm, GoalsWithin, FullBetween;
    WindowReachesGoal(states, events, i, j, low, high);
    WindowStaysUnderGoal(states, events, i, k, j, low, high);
  }
}
