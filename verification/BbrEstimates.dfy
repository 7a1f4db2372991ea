/** What the BBR sender knows of its path over a run: the bandwidth estimate is the filtered stream of the samples that
    count, the minimum round-trip time is the least sample, and startup ends for a reason. */
module BbrEstimates {
  import opened Basics
  import opened WindowedFilters
  import opened BbrSenders
  import opened BbrRuns
  import opened BbrWindows
  import opened BbrModels

  // ---- The bandwidth estimate ----

  ghost predicate Counts(s: Bbr, e: Event) {
    e.Congestion? && CountsSample(s, e.event)
  }

  /** The samples that count up to state `j`, each with the number of its round. */
  ghost function Counted(states: seq<Bbr>, events: seq<Event>, j: nat): seq<Estimate>
    requires j <= |events| < |states|
  {
    if j == 0 then []
    else if Counts(states[j - 1], events[j - 1]) then
      Counted(states, events, j - 1)
      + [Estimate(events[j - 1].event.report.sampleMaxBandwidth, states[j].roundTripCount)]
    else Counted(states, events, j - 1)
  }

  lemma MoveOfEstimate(s: Bbr, t: Bbr, e: Event)
    requires ModelMove(s, t, e)
    ensures t.filter == (if Counts(s, e) then Updated(s.filter, e.event.report.sampleMaxBandwidth, t.roundTripCount)
                         else s.filter)
    ensures t.roundTripCount >= s.roundTripCount
  {
    hide ConservationMoves, MinRttDated, LossesMove, StallsMove, ModeTable, ProbeMovesOn, RecoveryWindowMoves,
         ModesInOrder, CountsSample, Updated, SameStalls, SameLosses, SameMode;
  }

  lemma {:induction false} CountedInOrder(states: seq<Bbr>, events: seq<Event>, j: nat)
    requires ModelRun(states, events) && j <= |events|
    ensures var h := Counted(states, events, j);
            InOrder(h) && forall k | 0 <= k < |h| :: h[k].time <= states[j].roundTripCount
  {
    if j == 0 {
    } else {
      CountedInOrder(states, events, j - 1);
      assert ModelMove(states[j - 1], states[j - 1 + 1], events[j - 1]);
      hide ModelRun, ModelMove, Counts;
      MoveOfEstimate(states[j - 1], states[j], events[j - 1]);
    }
  }

  /** The filter of every state of a run is that of the samples that count, over a window of ten rounds. */
  lemma {:induction false} EstimateIsFiltered(states: seq<Bbr>, events: seq<Event>, j: nat)
    requires ModelRun(states, events) && j <= |events| && states[0].filter == EmptyFilter(10)
    ensures states[j].filter == Filtered(10, Counted(states, events, j))
  {
    if j == 0 {
    } else {
      EstimateIsFiltered(states, events, j - 1);
      assert ModelMove(states[j - 1], states[j - 1 + 1], events[j - 1]);
      hide ModelRun, ModelMove, Counts, Filtered;
      MoveOfEstimate(states[j - 1], states[j], events[j - 1]);
      if Counts(states[j - 1], events[j - 1]) {
        FilteredNext(10, Counted(states, events, j - 1),
            Estimate(events[j - 1].event.report.sampleMaxBandwidth, states[j].roundTripCount));
      }
    }
  }

  /** So the bandwidth estimate is a sample that counts as long as this one is no more than ten rounds older than the
      last, no later one exceeds it, and no earlier one of its ten rounds did. */
  lemma EstimateIsGreatest(states: seq<Bbr>, events: seq<Event>, j: nat, k: nat)
    requires ModelRun(states, events) && j <= |events| && states[0].filter == EmptyFilter(10)
    requires var h := Counted(states, events, j);
             && k < |h| && TopsWindow(10, h, k) && h[|h| - 1].time - h[k].time <= 10
             && forall i | k < i < |h| :: h[i].sample <= h[k].sample
    ensures states[j].filter.e0.sample == Counted(states, events, j)[k].sample
  {
    EstimateIsFiltered(states, events, j);
    CountedInOrder(states, events, j);
    hide ModelRun, Counted, Filtered;
    MaximumIsKept(10, Counted(states, events, j), k);
  }

  // ---- The minimum round-trip time ----

  ghost predicate HasRtt(e: Event) {
    e.Congestion? && e.event.report.sampleRtt.Some?
  }

  function RttOf(e: Event): int
    requires HasRtt(e)
  {
    e.event.report.sampleRtt.value
  }

  /** The samples from `i` to before `j` are positive, and none of them finds a minimum of more than ten seconds. */
  ghost predicate RttsAreFresh(states: seq<Bbr>, events: seq<Event>, i: nat, j: nat)
    requires i <= j <= |events| < |states|
  {
    forall k {:trigger events[k]} | i <= k < j && HasRtt(events[k]) ::
      RttOf(events[k]) > 0 && !MinRttIsOld(states[k], events[k].event)
  }

  lemma MoveOfMinRtt(s: Bbr, t: Bbr, e: Event)
    requires ModelMove(s, t, e)
    ensures HasRtt(e) && !MinRttIsOld(s, e.event) ==>
              t.minRtt == if s.minRtt == 0 then RttOf(e) else Min(s.minRtt, RttOf(e))
    ensures HasRtt(e) && MinRttIsOld(s, e.event) ==> t.minRtt == RttOf(e)
    ensures !HasRtt(e) ==> t.minRtt == s.minRtt
  {
    hide RoundMoves, ConservationMoves, MinRttDated, LossesMove, StallsMove, ModeTable, ProbeMovesOn,
         RecoveryWindowMoves, ModesInOrder, CountsSample, SameStalls, SameLosses, SameMode, MinRttIsOld;
  }

  /** Until it is more than ten seconds old, the minimum is the least of the samples and of the one before them. */
  lemma {:induction false} MinRttIsLeast(states: seq<Bbr>, events: seq<Event>, i: nat, j: nat)
    requires ModelRun(states, events) && i <= j <= |events| && RttsAreFresh(states, events, i, j)
    requires states[i].minRtt >= 0
    ensures states[i].minRtt != 0 ==> 0 < states[j].minRtt <= states[i].minRtt
    ensures forall k {:trigger events[k]} | i <= k < j && HasRtt(events[k]) :: 0 < states[j].minRtt <= RttOf(events[k])
    ensures states[j].minRtt == states[i].minRtt
            || exists k {:trigger events[k]} :: i <= k < j && HasRtt(events[k]) && states[j].minRtt == RttOf(events[k])
    decreases j
  {
    if i == j {
    } else {
      MinRttIsLeast(states, events, i, j - 1);
      assert ModelMove(states[j - 1], states[j - 1 + 1], events[j - 1]);
      hide ModelRun, ModelMove, MinRttIsOld;
      MoveOfMinRtt(states[j - 1], states[j], events[j - 1]);
    }
  }

  // ---- The end of startup ----

  /** A round starts before full bandwidth, and the sender had enough to send. */
  ghost predicate Probes(s: Bbr, t: Bbr, e: Event) {
    e.Congestion? && StartsAt(s, e.event) && !s.isAtFullBandwidth && !t.lastSampleIsAppLimited
  }

  /** How many such rounds in a row brought no gain. */
  ghost function StalledRounds(states: seq<Bbr>, events: seq<Event>, j: nat): nat
    requires j <= |events| < |states|
  {
    if j == 0 then 0
    else if !Probes(states[j - 1], states[j], events[j - 1]) then StalledRounds(states, events, j - 1)
    else if Grows(states[j - 1], states[j].filter.e0.sample) then 0
    else StalledRounds(states, events, j - 1) + 1
  }

  lemma MoveOfStalls(s: Bbr, t: Bbr, e: Event)
    requires ModelMove(s, t, e)
    ensures t.roundsWithoutBandwidthGain ==
            if !Probes(s, t, e) then s.roundsWithoutBandwidthGain
            else if Grows(s, t.filter.e0.sample) then 0
            else s.roundsWithoutBandwidthGain + 1
    ensures !s.isAtFullBandwidth ==>
              (t.isAtFullBandwidth <==>
                 && Probes(s, t, e) && !Grows(s, t.filter.e0.sample)
                 && (t.roundsWithoutBandwidthGain >= s.cfg.numStartupRtts || LosesTooMuch(s, e.event)))
    ensures t.cfg == s.cfg
  {
    hide RoundMoves, ConservationMoves, EstimatesMove, MinRttDated, LossesMove, ModeTable, ProbeMovesOn,
         RecoveryWindowMoves, ModesInOrder, StartsAt, Grows, LosesTooMuch, SameMode, SameLosses;
  }

  lemma {:induction false} StallsAreCounted(states: seq<Bbr>, events: seq<Event>, j: nat)
    requires ModelRun(states, events) && j <= |events| && states[0].roundsWithoutBandwidthGain == 0
    ensures states[j].roundsWithoutBandwidthGain == StalledRounds(states, events, j) && states[j].cfg == states[0].cfg
  {
    if j == 0 {
    } else {
      StallsAreCounted(states, events, j - 1);
      assert ModelMove(states[j - 1], states[j - 1 + 1], events[j - 1]);
      hide ModelRun, ModelMove, Probes, Grows;
      MoveOfStalls(states[j - 1], states[j], events[j - 1]);
    }
  }

  /** An event reaches full bandwidth exactly if it starts a round without a gain, and this is one in a row of as many
      as the profile asks for, or the round before it lost too much. */
  lemma FullBandwidthHasAReason(states: seq<Bbr>, events: seq<Event>, i: nat)
    requires ModelRun(states, events) && i < |events| && states[0].roundsWithoutBandwidthGain == 0
    requires !states[i].isAtFullBandwidth
    ensures states[i + 1].isAtFullBandwidth <==>
            && Probes(states[i], states[i + 1], events[i]) && !Grows(states[i], states[i + 1].filter.e0.sample)
            && (StalledRounds(states, events, i + 1) >= states[0].cfg.numStartupRtts
                || LosesTooMuch(states[i], events[i].event))
  {
    StallsAreCounted(states, events, i);
    StallsAreCounted(states, events, i + 1);
    assert ModelMove(states[i], states[i + 1], events[i]);
    hide ModelRun, ModelMove, Probes, Grows, StalledRounds, LosesTooMuch;
    MoveOfStalls(states[i], states[i + 1], events[i]);
  }

  // ---- PROBE_RTT sees a round ----

  /** Event `c` started a round in PROBE_RTT, after its end was set to the one of state `b`. */
  ghost predicate RoundInProbe(states: seq<Bbr>, events: seq<Event>, c: nat, b: nat)
    requires b <= |events| < |states|
  {
    && c < |events| && events[c].Congestion? && StartsAt(states[c], events[c].event)
    && (forall k | c <= k <= b :: states[k].mode == ProbeRtt)
    && states[c].exitProbeRttAt == states[b].exitProbeRttAt != 0
  }

  lemma MoveOfProbe(s: Bbr, t: Bbr, e: Event)
    requires ModelMove(s, t, e)
    ensures t.mode == ProbeRtt && t.exitProbeRttAt != 0 && t.probeRttRoundPassed ==>
              && s.mode == ProbeRtt && s.exitProbeRttAt == t.exitProbeRttAt
              && (s.probeRttRoundPassed || (e.Congestion? && StartsAt(s, e.event)))
    ensures s.mode == ProbeRtt && t.mode != ProbeRtt ==> e.Congestion? && LeavesProbe(s, e.event)
  {
    hide RoundMoves, ConservationMoves, EstimatesMove, MinRttDated, LossesMove, StallsMove, RecoveryWindowMoves,
         ModesInOrder, StartsAt, SameModel, SameStalls, SameLosses, Drained, MinRttIsOld;
  }

  lemma {:induction false} PassedRoundWasSeen(states: seq<Bbr>, events: seq<Event>, b: nat)
    requires ModelRun(states, events) && b <= |events| && states[0].mode != ProbeRtt
    requires states[b].mode == ProbeRtt && states[b].exitProbeRttAt != 0 && states[b].probeRttRoundPassed
    ensures exists c: nat :: c < b && RoundInProbe(states, events, c, b)
  {
    assert ModelMove(states[b - 1], states[b - 1 + 1], events[b - 1]);
    MoveOfProbe(states[b - 1], states[b], events[b - 1]);
    hide ModelRun, ModelMove, StartsAt;
    if states[b - 1].probeRttRoundPassed {
      PassedRoundWasSeen(states, events, b - 1);
      var c: nat :| c < b - 1 && RoundInProbe(states, events, c, b - 1);
      assert RoundInProbe(states, events, c, b);
    } else {
      assert RoundInProbe(states, events, b - 1, b);
    }
  }

  /** PROBE_RTT is not left before a round has started in it, after its end was set. */
  lemma ProbeRttSeesARound(states: seq<Bbr>, events: seq<Event>, b: nat)
    requires ModelRun(states, events) && b < |events| && states[0].mode != ProbeRtt
    requires states[b].mode == ProbeRtt && states[b + 1].mode != ProbeRtt
    ensures exists c: nat :: c <= b && RoundInProbe(states, events, c, b)
  {
    assert ModelMove(states[b], states[b + 1], events[b]);
    MoveOfProbe(states[b], states[b + 1], events[b]);
    hide ModelRun, ModelMove, StartsAt;
    if states[b].probeRttRoundPassed {
      PassedRoundWasSeen(states, events, b);
      var c: nat :| c < b && RoundInProbe(states, events, c, b);
    } else {
      assert RoundInProbe(states, events, b, b);
    }
  }
}
