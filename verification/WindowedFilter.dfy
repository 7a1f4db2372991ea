/** Tracking a windowed maximum, core/internal/congestion/bbr/windowed_filter.go. Samples are
    non-negative, as the bandwidths and byte counts that BBR feeds are, so the zero sample that marks
    an empty filter is the smallest one. */
module WindowedFilters {

  datatype Estimate = Estimate(sample: nat, time: nat)

  const NO_ESTIMATE := Estimate(0, 0)

  datatype Filter = Filter(window: nat, e0: Estimate, e1: Estimate, e2: Estimate)

  function EmptyFilter(window: nat): Filter {
    Filter(window, NO_ESTIMATE, NO_ESTIMATE, NO_ESTIMATE)
  }

  /** The comparator of a maximum filter. */
  function MaxFilter(a: nat, b: nat): int {
    if a > b then 1 else if a < b then -1 else 0
  }

  function Restarted(f: Filter, sample: nat, time: nat): Filter {
    var e := Estimate(sample, time);
    Filter(f.window, e, e, e)
  }

  predicate StartsOver(f: Filter, sample: nat, time: nat) {
    f.e0.sample == 0 || sample >= f.e0.sample || time - f.e2.time > f.window
  }

  /** A sample that beats the second or third estimate takes its place. */
  function Placed(f: Filter, sample: nat, time: nat): Filter {
    var e := Estimate(sample, time);
    if sample >= f.e1.sample then f.(e1 := e, e2 := e)
    else if sample >= f.e2.sample then f.(e2 := e)
    else f
  }

  /** Estimates that are too old make room, or the later ones are spread over the window. */
  function Aged(f: Filter, sample: nat, time: nat): Filter {
    var e := Estimate(sample, time);
    if time - f.e0.time > f.window then
      if time - f.e1.time > f.window then Filter(f.window, f.e2, e, e) else Filter(f.window, f.e1, f.e2, e)
    else if f.e1.sample == f.e0.sample && time - f.e1.time > f.window / 4 then f.(e1 := e, e2 := e)
    else if f.e2.sample == f.e1.sample && time - f.e2.time > f.window / 2 then f.(e2 := e)
    else f
  }

  function Updated(f: Filter, sample: nat, time: nat): Filter {
    if StartsOver(f, sample, time) then Restarted(f, sample, time)
    else Aged(Placed(f, sample, time), sample, time)
  }

  class WindowedFilter {
    var windowLength: nat
    const estimates: array<Estimate>

    ghost predicate Valid()
      reads this
    {
      estimates.Length == 3
    }

    ghost function State(): Filter
      requires Valid()
      reads this, estimates
    {
      Filter(windowLength, estimates[0], estimates[1], estimates[2])
    }

    constructor (windowLength: nat)
      ensures Valid() && fresh(estimates) && State() == EmptyFilter(windowLength)
    {
      this.windowLength := windowLength;
      estimates := new Estimate[3](_ => NO_ESTIMATE);
    }

    function GetBest(): nat
      requires Valid()
      reads this, estimates
    {
      estimates[0].sample
    }

    method Update(newSample: nat, newTime: nat)
      requires Valid()
      modifies estimates
      ensures State() == Updated(old(State()), newSample, newTime)
    {
      if MaxFilter(estimates[0].sample, 0) == 0
         || MaxFilter(newSample, estimates[0].sample) >= 0
         || newTime - estimates[2].time > windowLength {
        Reset(newSample, newTime);
        return;
      }
      if MaxFilter(newSample, estimates[1].sample) >= 0 {
        estimates[1] := Estimate(newSample, newTime);
        estimates[2] := estimates[1];
      } else if MaxFilter(newSample, estimates[2].sample) >= 0 {
        estimates[2] := Estimate(newSample, newTime);
      }
      if newTime - estimates[0].time > windowLength {
        estimates[0] := estimates[1];
        estimates[1] := estimates[2];
        estimates[2] := Estimate(newSample, newTime);
        if newTime - estimates[0].time > windowLength {
          estimates[0] := estimates[1];
          estimates[1] := estimates[2];
        }
        return;
      }
      if MaxFilter(estimates[1].sample, estimates[0].sample) == 0 && newTime - estimates[1].time > windowLength / 4 {
        estimates[1] := Estimate(newSample, newTime);
        estimates[2] := estimates[1];
        return;
      }
      if MaxFilter(estimates[2].sample, estimates[1].sample) == 0 && newTime - estimates[2].time > windowLength / 2 {
        estimates[2] := Estimate(newSample, newTime);
      }
    }

    method Reset(newSample: nat, newTime: nat)
      requires Valid()
      modifies estimates
      ensures State() == Restarted(old(State()), newSample, newTime)
    {
      estimates[2] := Estimate(newSample, newTime);
      estimates[1] := estimates[2];
      estimates[0] := estimates[1];
    }
  }

  // Streams of samples

  ghost predicate InOrder(h: seq<Estimate>) {
    forall i, j | 0 <= i < j < |h| :: h[i].time <= h[j].time
  }

  /** The filter after a stream of samples. */
  function Filtered(window: nat, h: seq<Estimate>): (f: Filter)
    ensures f.window == window
    decreases h
  {
    if h == [] then EmptyFilter(window)
    else
      var last := h[|h| - 1];
      Updated(Filtered(window, h[..|h| - 1]), last.sample, last.time)
  }

  /** An estimate is a recorded sample, and nothing recorded after it was better. */
  ghost predicate Leads(e: Estimate, h: seq<Estimate>) {
    exists j :: 0 <= j < |h| && h[j] == e && NotBeatenFrom(e, h, j)
  }

  ghost predicate NotBeatenFrom(e: Estimate, h: seq<Estimate>, j: int) {
    forall i | 0 <= j <= i < |h| :: h[i].sample <= e.sample
  }

  /** No estimate would be moved by another sample at the same time. */
  predicate Settled(f: Filter, time: nat) {
    && !(f.e1.sample == f.e0.sample && time - f.e1.time > f.window / 4)
    && !(f.e2.sample == f.e1.sample && time - f.e2.time > f.window / 2)
  }

  /** Ordered by value and by time, with a best estimate that is at most one window old. */
  predicate InShape(f: Filter, now: nat) {
    && f.e0.sample >= f.e1.sample >= f.e2.sample
    && f.e0.time <= f.e1.time <= f.e2.time <= now
    && now - f.e0.time <= f.window
    && (f.e2.time < now ==> Settled(f, now))
  }

  ghost predicate Tracking(f: Filter, h: seq<Estimate>)
    requires h != []
  {
    InShape(f, h[|h| - 1].time) && Leads(f.e0, h) && Leads(f.e1, h) && Leads(f.e2, h)
  }

  /** An estimate after an update is the new sample, or an old estimate that the sample does not beat. */
  predicate Stems(e: Estimate, f: Filter, next: Estimate) {
    e == next || (e in {f.e0, f.e1, f.e2} && next.sample <= e.sample)
  }

  lemma UpdateShapes(f: Filter, now: nat, next: Estimate)
    requires InShape(f, now) && now <= next.time
    ensures var g := Updated(f, next.sample, next.time);
            InShape(g, next.time) && Stems(g.e0, f, next) && Stems(g.e1, f, next) && Stems(g.e2, f, next)
  {
    if !StartsOver(f, next.sample, next.time) {
      var p := Placed(f, next.sample, next.time);
      var e0, e1, e2 := p.e0, p.e1, p.e2;
      assert e0 == f.e0 && e0.sample >= e1.sample >= e2.sample && e0.time <= e1.time <= e2.time <= next.time;
      assert Stems(e0, f, next) && Stems(e1, f, next) && Stems(e2, f, next);
      hide Placed;
    }
  }

  lemma LeadsLonger(e: Estimate, h: seq<Estimate>, next: Estimate)
    requires Leads(e, h) && next.sample <= e.sample
    ensures Leads(e, h + [next])
  {
    var j :| 0 <= j < |h| && h[j] == e && NotBeatenFrom(e, h, j);
    assert NotBeatenFrom(e, h + [next], j);
  }

  lemma NewestLeads(h: seq<Estimate>, next: Estimate)
    ensures Leads(next, h + [next])
  {
    assert NotBeatenFrom(next, h + [next], |h|);
  }

  lemma UpdateTracks(f: Filter, h: seq<Estimate>, next: Estimate)
    requires h != [] ==> Tracking(f, h) && h[|h| - 1].time <= next.time
    requires h == [] ==> f == EmptyFilter(f.window)
    ensures Tracking(Updated(f, next.sample, next.time), h + [next])
  {
    var g, now := Updated(f, next.sample, next.time), h + [next];
    NewestLeads(h, next);
    if h != [] {
      UpdateShapes(f, h[|h| - 1].time, next);
      forall e | e in {f.e0, f.e1, f.e2} && next.sample <= e.sample ensures Leads(e, now) {
        LeadsLonger(e, h, next);
      }
    }
  }

  /** After any stream of samples in time order, the estimates are recorded samples, ordered by value
      and by time; the best is at most one window old; and none was beaten since it was recorded. */
  lemma {:induction false} FilterTracks(window: nat, h: seq<Estimate>)
    requires h != [] && InOrder(h)
    ensures Tracking(Filtered(window, h), h)
    decreases h
  {
    hide Updated, Tracking;
    var before, last := h[..|h| - 1], h[|h| - 1];
    if before != [] {
      FilterTracks(window, before);
    }
    UpdateTracks(Filtered(window, before), before, last);
    assert h == before + [last];
  }

  // Samples that share a time stamp

  /** Every estimate is at least as good as all samples recorded since its own time stamp. */
  ghost predicate Covers(f: Filter, h: seq<Estimate>) {
    forall i | 0 <= i < |h| :: CoveredBy(f.e0, h[i]) && CoveredBy(f.e1, h[i]) && CoveredBy(f.e2, h[i])
  }

  predicate CoveredBy(e: Estimate, sample: Estimate) {
    sample.time >= e.time ==> sample.sample <= e.sample
  }

  /** A sample slips in front of a better one with the same time stamp: it loses against the third estimate of
      that very time, but takes over the second place because the second estimate has only repeated the best
      one for too long. */
  predicate Slips(f: Filter, sample: nat, time: nat) {
    && time == f.e2.time && sample < f.e2.sample
    && f.e1.sample == f.e0.sample && time - f.e1.time > f.window / 4
  }

  predicate AllCover(f: Filter, sample: Estimate) {
    CoveredBy(f.e0, sample) && CoveredBy(f.e1, sample) && CoveredBy(f.e2, sample)
  }

  lemma PlacedCoversOne(f: Filter, last: nat, earlier: Estimate, next: Estimate)
    requires InShape(f, last) && earlier.time <= last <= next.time && AllCover(f, earlier)
    requires next.sample < f.e0.sample
    ensures var p := Placed(f, next.sample, next.time);
            && AllCover(p, earlier) && AllCover(p, next) && p.e0 == f.e0 && p.window == f.window
            && (p.e2 != f.e2 ==> p.e2 == next)
            && p.e0.sample >= p.e1.sample >= p.e2.sample && p.e0.time <= p.e1.time <= p.e2.time <= next.time
  {
  }

  /** Estimates give way to a sample only where the sample is as good as the ones recorded at its time. */
  lemma AgedCoversOne(p: Filter, earlier: Estimate, next: Estimate)
    requires AllCover(p, earlier) && AllCover(p, next) && earlier.time <= next.time
    requires p.e0.sample >= p.e1.sample >= p.e2.sample && p.e0.time <= p.e1.time <= p.e2.time <= next.time
    requires earlier.time == next.time ==> earlier.sample <= next.sample || Aged(p, next.sample, next.time) == p
    ensures var g := Aged(p, next.sample, next.time); AllCover(g, earlier) && AllCover(g, next)
  {
  }

  /** At the time of the latest update, a sample that is worse than an earlier one of that time moves no estimate. */
  lemma SameTimeMovesNothing(f: Filter, earlier: Estimate, next: Estimate)
    requires InShape(f, next.time) && earlier.time == next.time && AllCover(f, earlier)
    requires next.sample < earlier.sample && !Slips(f, next.sample, next.time)
    ensures Aged(Placed(f, next.sample, next.time), next.sample, next.time) == Placed(f, next.sample, next.time)
  {
    assert Placed(f, next.sample, next.time) == f;
  }

  /** Unless the new sample slips, the estimates cover it, and every earlier sample that they covered before. */
  lemma UpdateCoversOne(f: Filter, last: nat, earlier: Estimate, next: Estimate)
    requires InShape(f, last) && earlier.time <= last <= next.time && AllCover(f, earlier)
    requires !Slips(f, next.sample, next.time)
    ensures var g := Updated(f, next.sample, next.time); AllCover(g, earlier) && AllCover(g, next)
  {
    if !StartsOver(f, next.sample, next.time) {
      PlacedCoversOne(f, last, earlier, next);
      if earlier.time == next.time && next.sample < earlier.sample {
        SameTimeMovesNothing(f, earlier, next);
      }
      hide Placed, Aged, Slips, InShape, CoveredBy;
      AgedCoversOne(Placed(f, next.sample, next.time), earlier, next);
    }
  }

  /** Exactly the slipping samples make an estimate worse than a sample of its own time. */
  lemma UpdateCoversIff(f: Filter, h: seq<Estimate>, next: Estimate)
    requires h != [] && InOrder(h) && Tracking(f, h) && Covers(f, h) && h[|h| - 1].time <= next.time
    ensures Covers(Updated(f, next.sample, next.time), h + [next]) <==> !Slips(f, next.sample, next.time)
  {
    var g, now := Updated(f, next.sample, next.time), h + [next];
    if Slips(f, next.sample, next.time) {
      var j :| 0 <= j < |h| && h[j] == f.e2 && NotBeatenFrom(f.e2, h, j);
      assert now[j] == f.e2 && g.e1 == next;
    } else {
      var last := h[|h| - 1];
      assert InShape(f, last.time) && AllCover(f, last);
      hide Updated, Slips, InShape, CoveredBy, Leads;
      UpdateCoversOne(f, last.time, last, next);
      forall i | 0 <= i < |now| ensures AllCover(g, now[i]) {
        if i < |h| {
          assert now[i] == h[i] && AllCover(f, h[i]) && h[i].time <= last.time;
          UpdateCoversOne(f, last.time, h[i], next);
        }
      }
    }
  }

  ghost predicate NeverSlips(window: nat, h: seq<Estimate>) {
    forall i | 0 < i < |h| :: !Slips(Filtered(window, h[..i]), h[i].sample, h[i].time)
  }

  lemma OrderOfPrefix(h: seq<Estimate>)
    requires h != [] && InOrder(h)
    ensures InOrder(h[..|h| - 1]) && forall i | 0 <= i < |h| :: h[i].time <= h[|h| - 1].time
  {
  }

  lemma FirstCovers(window: nat, first: Estimate)
    ensures Covers(Updated(EmptyFilter(window), first.sample, first.time), [] + [first])
  {
  }

  lemma {:induction false} FilterCovers(window: nat, h: seq<Estimate>)
    requires h != [] && InOrder(h) && NeverSlips(window, h)
    ensures Covers(Filtered(window, h), h)
    decreases h
  {
    hide Updated, Slips, Covers, Tracking, InOrder;
    var before, last := h[..|h| - 1], h[|h| - 1];
    assert h == before + [last];
    OrderOfPrefix(h);
    if before != [] {
      assert forall i | 0 < i < |before| :: before[..i] == h[..i] && before[i] == h[i];
      FilterCovers(window, before);
      FilterTracks(window, before);
      UpdateCoversIff(Filtered(window, before), before, last);
    } else {
      FirstCovers(window, last);
    }
  }

  /** What a filter covers after every sample of a stream. */
  ghost predicate AlwaysCovers(window: nat, h: seq<Estimate>) {
    forall n | 0 < n <= |h| :: Covers(Filtered(window, h[..n]), h[..n])
  }

  lemma AlwaysCoversStep(window: nat, h: seq<Estimate>, n: nat)
    requires 0 < n < |h| && InOrder(h) && Covers(Filtered(window, h[..n]), h[..n])
    ensures Covers(Filtered(window, h[..n + 1]), h[..n + 1])
            <==> !Slips(Filtered(window, h[..n]), h[n].sample, h[n].time)
  {
    hide Updated, Slips, Covers, Tracking;
    assert InOrder(h[..n]);
    FilterTracks(window, h[..n]);
    assert h[..n + 1] == h[..n] + [h[n]];
    FilteredNext(window, h[..n], h[n]);
    UpdateCoversIff(Filtered(window, h[..n]), h[..n], h[n]);
  }

  /** Over a whole stream: every estimate is at least as good as all samples since its own time stamp after each
      sample, if and only if no sample slips. */
  lemma CoversAlwaysIff(window: nat, h: seq<Estimate>)
    requires h != [] && InOrder(h)
    ensures AlwaysCovers(window, h) <==> NeverSlips(window, h)
  {
    hide Slips, Covers, Filtered;
    if AlwaysCovers(window, h) {
      forall i | 0 < i < |h| ensures !Slips(Filtered(window, h[..i]), h[i].sample, h[i].time) {
        AlwaysCoversStep(window, h, i);
      }
    }
    if NeverSlips(window, h) {
      forall n | 0 < n <= |h| ensures Covers(Filtered(window, h[..n]), h[..n]) {
        assert forall i | 0 < i < n :: h[..n][..i] == h[..i] && h[..n][i] == h[i];
        FilterCovers(window, h[..n]);
      }
    }
  }

  /** Samples at distinct times never slip. */
  lemma DistinctTimesCover(window: nat, h: seq<Estimate>)
    requires h != [] && forall i, j | 0 <= i < j < |h| :: h[i].time < h[j].time
    ensures Covers(Filtered(window, h), h)
  {
    forall i | 0 < i < |h| ensures !Slips(Filtered(window, h[..i]), h[i].sample, h[i].time) {
      FilterTracks(window, h[..i]);
    }
    FilterCovers(window, h);
  }

  lemma FilteredNext(window: nat, h: seq<Estimate>, next: Estimate)
    ensures Filtered(window, h + [next]) == Updated(Filtered(window, h), next.sample, next.time)
  {
    assert (h + [next])[..|h|] == h;
  }

  /** A stream whose last sample slips, in the window of ten rounds that BBR uses: the second estimate says 1,
      although 2 came in the same round. */
  lemma SlippingStream()
    ensures var h := [Estimate(4, 0), Estimate(1, 3), Estimate(3, 4), Estimate(2, 11), Estimate(1, 11)];
            InOrder(h) && Filtered(10, h).e1 == Estimate(1, 11) && !Covers(Filtered(10, h), h)
  {
    var a, b, c, d, e := Estimate(4, 0), Estimate(1, 3), Estimate(3, 4), Estimate(2, 11), Estimate(1, 11);
    hide Filtered;
    FilteredNext(10, [], a);
    FilteredNext(10, [a], b);
    FilteredNext(10, [a, b], c);
    FilteredNext(10, [a, b, c], d);
    FilteredNext(10, [a, b, c, d], e);
    EmptyStream(10);
    var h := [a, b, c, d, e];
    assert [] + [a] == [a] && [a] + [b] == [a, b] && [a, b] + [c] == [a, b, c];
    assert [a, b, c] + [d] == [a, b, c, d] && [a, b, c, d] + [e] == h;
    assert Filtered(10, [a, b, c]) == Filter(10, a, c, c);
    assert Filtered(10, [a, b, c, d]) == Filter(10, c, c, d);
    assert !CoveredBy(Filtered(10, h).e1, h[3]);
  }

  lemma EmptyStream(window: nat)
    ensures Filtered(window, []) == EmptyFilter(window)
  {
  }

  // The greatest sample of the window

  /** Within its window the best estimate gives way only to a sample that reaches it, and when it gets too old, the
      second takes over, or the third if the second is too old as well, unless the new sample reaches them. */
  lemma BestIsKept(f: Filter, now: nat, sample: nat, time: nat)
    requires InShape(f, now) && now <= time
    ensures var best, oldest := Updated(f, sample, time).e0, time - f.window;
            && (f.e0.time >= oldest ==> best == if sample >= f.e0.sample then Estimate(sample, time) else f.e0)
            && (f.e0.time < oldest <= f.e1.time ==>
                  best == if sample >= f.e1.sample then Estimate(sample, time) else f.e1)
            && (f.e1.time < oldest <= f.e2.time ==>
                  best == if sample >= f.e2.sample then Estimate(sample, time) else f.e2)
            && (f.e2.time < oldest ==> best == Estimate(sample, time))
  {
    if !StartsOver(f, sample, time) {
      var p := Placed(f, sample, time);
      assert p.e0 == f.e0 && p.e1 == if sample >= f.e1.sample then Estimate(sample, time) else f.e1;
      assert sample < f.e1.sample ==> p.e2 == if sample >= f.e2.sample then Estimate(sample, time) else f.e2;
      hide Placed;
    }
  }

  predicate FreshUpTo(f: Filter, e: Estimate, time: nat, limit: nat) {
    time - e.time <= f.window ==> e.sample <= limit
  }

  /** So it is the greatest of the new sample and of the estimates that are not too old. */
  lemma BestOfWindow(f: Filter, now: nat, sample: nat, time: nat)
    requires InShape(f, now) && now <= time
    ensures var best := Updated(f, sample, time).e0;
            && best.sample >= sample && time - best.time <= f.window
            && FreshUpTo(f, f.e0, time, best.sample) && FreshUpTo(f, f.e1, time, best.sample)
            && FreshUpTo(f, f.e2, time, best.sample)
            && (best == Estimate(sample, time) || best == f.e0 || best == f.e1 || best == f.e2)
  {
    BestIsKept(f, now, sample, time);
    hide Updated;
  }

  /** A sample that none of these exceeds starts the filter over. */
  lemma TopStartsOver(f: Filter, now: nat, sample: nat, time: nat)
    requires InShape(f, now) && now <= time && FreshUpTo(f, f.e0, time, sample)
    requires FreshUpTo(f, f.e1, time, sample) && FreshUpTo(f, f.e2, time, sample)
    ensures Updated(f, sample, time) == Restarted(f, sample, time)
  {
  }

  /** No sample of the window that ends with sample `k` is greater than it. */
  ghost predicate TopsWindow(window: nat, h: seq<Estimate>, k: nat)
    requires k < |h|
  {
    forall i | 0 <= i < k && h[k].time - h[i].time <= window :: h[i].sample <= h[k].sample
  }

  /** A sample that no earlier one of its window exceeds is the best when it is recorded. */
  lemma TopIsBest(window: nat, h: seq<Estimate>)
    requires h != [] && InOrder(h) && TopsWindow(window, h, |h| - 1)
    ensures Filtered(window, h) == Filter(window, h[|h| - 1], h[|h| - 1], h[|h| - 1])
  {
    var before, last := h[..|h| - 1], h[|h| - 1];
    hide Updated, InShape;
    if before != [] {
      FilterTracks(window, before);
      var f := Filtered(window, before);
      RecordedUpTo(window, h, f.e0);
      RecordedUpTo(window, h, f.e1);
      RecordedUpTo(window, h, f.e2);
      TopStartsOver(f, before[|before| - 1].time, last.sample, last.time);
    } else {
      FirstStartsOver(window, last);
    }
  }

  lemma FirstStartsOver(window: nat, first: Estimate)
    ensures Updated(EmptyFilter(window), first.sample, first.time) == Filter(window, first, first, first)
  {
  }

  lemma RecordedUpTo(window: nat, h: seq<Estimate>, e: Estimate)
    requires h != [] && TopsWindow(window, h, |h| - 1) && Leads(e, h[..|h| - 1])
    ensures FreshUpTo(EmptyFilter(window), e, h[|h| - 1].time, h[|h| - 1].sample)
  {
  }

  /** The filter answers the greatest sample of its window, once this one has topped its own window and while it is no
      more than a window old. */
  lemma {:induction false} MaximumIsKept(window: nat, h: seq<Estimate>, k: nat)
    requires k < |h| && InOrder(h) && TopsWindow(window, h, k)
    requires h[|h| - 1].time - h[k].time <= window && forall i | k < i < |h| :: h[i].sample <= h[k].sample
    ensures var best := Filtered(window, h).e0; best.sample == h[k].sample && best.time >= h[k].time
    decreases h
  {
    hide Updated, InShape;
    if k == |h| - 1 {
      TopIsBest(window, h);
    } else {
      var before, last := h[..|h| - 1], h[|h| - 1];
      assert TopsWindow(window, before, k);
      MaximumIsKept(window, before, k);
      FilterTracks(window, before);
      BestIsKept(Filtered(window, before), before[|before| - 1].time, last.sample, last.time);
    }
  }

  // The second estimate

  /** While the best estimate stays, the second is a copy of it for a quarter of the window, then the first sample, and
      from there on the greatest. */
  lemma SecondFollows(f: Filter, now: nat, sample: nat, time: nat)
    requires InShape(f, now) && now <= time && sample < f.e0.sample && time - f.e0.time <= f.window
    ensures var g := Updated(f, sample, time);
            && g.e0 == f.e0
            && (f.e1.sample < f.e0.sample ==>
                  g.e1 == if sample >= f.e1.sample then Estimate(sample, time) else f.e1)
            && (f.e1.sample == f.e0.sample ==>
                  g.e1 == if time - f.e1.time > f.window / 4 then Estimate(sample, time) else f.e1)
  {
  }

  /** Sample `i` came more than a quarter of the window after sample `k`. */
  ghost predicate Later(window: nat, h: seq<Estimate>, k: nat, i: nat)
    requires k < |h| && i < |h|
  {
    k < i && h[i].time - h[k].time > window / 4
  }

  /** The second estimate behind the best one `h[k]`. */
  ghost predicate SecondBest(window: nat, h: seq<Estimate>, k: nat, f: Filter)
    requires k < |h|
  {
    && f.e0 == h[k]
    && (f.e1 == h[k] ==> forall i | 0 <= i < |h| :: !Later(window, h, k, i))
    && (f.e1 != h[k] ==>
          (exists j | 0 <= j < |h| :: Later(window, h, k, j) && h[j] == f.e1 && f.e1.sample < h[k].sample)
          && forall i | 0 <= i < |h| && Later(window, h, k, i) :: h[i].sample <= f.e1.sample)
  }

  lemma SecondStep(h: seq<Estimate>, k: nat, f: Filter, last: Estimate)
    requires h != [] && k < |h| && SecondBest(f.window, h, k, f) && InShape(f, h[|h| - 1].time)
    requires h[|h| - 1].time <= last.time && last.sample < h[k].sample && last.time - h[k].time <= f.window
    ensures SecondBest(f.window, h + [last], k, Updated(f, last.sample, last.time))
  {
    var g, now := Updated(f, last.sample, last.time), h + [last];
    SecondFollows(f, h[|h| - 1].time, last.sample, last.time);
    hide Updated, InShape;
    assert now[|h|] == last && Later(f.window, now, k, |h|) == (last.time - h[k].time > f.window / 4);
    assert forall i | 0 <= i < |h| :: now[i] == h[i] && Later(f.window, now, k, i) == Later(f.window, h, k, i);
    if f.e1 != h[k] {
      var j :| 0 <= j < |h| && Later(f.window, h, k, j) && h[j] == f.e1 && f.e1.sample < h[k].sample;
      assert Later(f.window, now, k, j);
    }
  }

  /** Behind a best estimate that no later sample reached, the second one is the greatest of the samples that came more
      than a quarter of the window later; so this sample becomes the best when the old one is too old. */
  lemma {:induction false} SecondIsGreatest(window: nat, h: seq<Estimate>, k: nat)
    requires k < |h| && InOrder(h) && h[k].sample > 0 && TopsWindow(window, h, k)
    requires h[|h| - 1].time - h[k].time <= window && forall i | k < i < |h| :: h[i].sample < h[k].sample
    ensures SecondBest(window, h, k, Filtered(window, h))
    decreases h
  {
    hide Updated, InShape;
    if k == |h| - 1 {
      TopIsBest(window, h);
    } else {
      var before, last := h[..|h| - 1], h[|h| - 1];
      assert h == before + [last] && TopsWindow(window, before, k);
      SecondIsGreatest(window, before, k);
      FilterTracks(window, before);
      hide SecondBest, Later, TopsWindow;
      SecondStep(before, k, Filtered(window, before), last);
    }
  }
}
