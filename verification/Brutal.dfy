/** Brutal's loss-rate estimate: a five-slot table indexed by the second modulo five, against the log of
    every congestion event the sender was told about. */
module Brutal {
  import opened Basics

  const SLOTS: nat := 5
  const MIN_SAMPLES: nat := 50
  const MIN_ACK_RATE := 0.8

  /** One congestion event: the second it happened in, and how many packets it acknowledged and lost. */
  datatype Event = Event(second: nat, acked: nat, lost: nat)

  datatype Counts = Counts(acked: nat, lost: nat) {
    function Plus(other: Counts): Counts {
      Counts(acked + other.acked, lost + other.lost)
    }
  }

  const NOTHING := Counts(0, 0)

  datatype PktInfo = PktInfo(timestamp: nat, ackCount: nat, lossCount: nat)

  // ---- Sums over the log ----

  /** The packets acknowledged and lost in the events from second `from` on. */
  ghost function Since(log: seq<Event>, from: int): Counts {
    if log == [] then NOTHING
    else
      var e := log[|log| - 1];
      var before := Since(log[..|log| - 1], from);
      if from <= e.second then before.Plus(Counts(e.acked, e.lost)) else before
  }

  /** The part of that sum whose seconds belong to slot `k`. */
  ghost function InSlot(log: seq<Event>, from: int, k: nat): Counts {
    if log == [] then NOTHING
    else
      var e := log[|log| - 1];
      var before := InSlot(log[..|log| - 1], from, k);
      if from <= e.second && e.second % SLOTS == k then before.Plus(Counts(e.acked, e.lost)) else before
  }

  /** The totals of the last five seconds, the current one included. */
  ghost function LastFive(log: seq<Event>, now: nat): Counts {
    Since(log, now - (SLOTS - 1))
  }

  /** A slot's sum depends only on which of its own events are late enough. */
  lemma {:induction false} SameSelectionSameSum(log: seq<Event>, a: int, b: int, k: nat)
    requires forall e :: e in log && e.second % SLOTS == k ==> (a <= e.second <==> b <= e.second)
    ensures InSlot(log, a, k) == InSlot(log, b, k)
  {
    if log == [] {
    } else {
      assert log[|log| - 1] in log;
      SameSelectionSameSum(log[..|log| - 1], a, b, k);
    }
  }

  lemma {:induction false} NothingSelected(log: seq<Event>, a: int, k: nat)
    requires forall e :: e in log && e.second % SLOTS == k ==> e.second < a
    ensures InSlot(log, a, k) == NOTHING
  {
    if log == [] {
    } else {
      assert log[|log| - 1] in log;
      NothingSelected(log[..|log| - 1], a, k);
    }
  }

  /** The sum of the first `n` slots' parts. */
  ghost function SlotsBelow(log: seq<Event>, from: int, n: nat): Counts {
    if n == 0 then NOTHING else SlotsBelow(log, from, n - 1).Plus(InSlot(log, from, n - 1))
  }

  lemma {:induction false} EventFallsInOneSlot(log: seq<Event>, from: int, n: nat)
    requires log != []
    ensures var e := log[|log| - 1];
            var before := SlotsBelow(log[..|log| - 1], from, n);
            SlotsBelow(log, from, n) ==
            if from <= e.second && e.second % SLOTS < n then before.Plus(Counts(e.acked, e.lost)) else before
  {
    if n == 0 {
    } else {
      EventFallsInOneSlot(log, from, n - 1);
    }
  }

  lemma {:induction false} NothingInNoEvents(from: int, n: nat)
    ensures SlotsBelow([], from, n) == NOTHING
  {
    if n == 0 {
    } else {
      NothingInNoEvents(from, n - 1);
    }
  }

  /** Every second belongs to exactly one slot, so a sum is the sum of its five parts. */
  lemma {:induction false} SumBySlot(log: seq<Event>, from: int)
    ensures Since(log, from) == SlotsBelow(log, from, SLOTS)
  {
    hide SlotsBelow;
    if log == [] {
      NothingInNoEvents(from, SLOTS);
    } else {
      SumBySlot(log[..|log| - 1], from);
      EventFallsInOneSlot(log, from, SLOTS);
    }
  }

  // ---- What each slot holds ----

  /** The latest second of slot `k` in which anything happened; zero for an untouched slot. */
  ghost function Latest(log: seq<Event>, k: nat): (t: nat)
    ensures forall e :: e in log && e.second % SLOTS == k ==> e.second <= t
    ensures (t % SLOTS == k && exists e :: e in log && e.second == t)
            || (t == 0 && forall e :: e in log ==> e.second % SLOTS != k)
  {
    if log == [] then 0
    else
      var e := log[|log| - 1];
      assert log == log[..|log| - 1] + [e];
      var before := Latest(log[..|log| - 1], k);
      if e.second % SLOTS == k && before < e.second then e.second else before
  }

  ghost function SlotOf(log: seq<Event>, k: nat): PktInfo {
    var t := Latest(log, k);
    var c := InSlot(log, t, k);
    PktInfo(t, c.acked, c.lost)
  }

  /** What the source does to the slot of the current second. */
  function Recorded(info: PktInfo, e: Event): PktInfo {
    if info.timestamp == e.second then PktInfo(e.second, info.ackCount + e.acked, info.lossCount + e.lost)
    else PktInfo(e.second, e.acked, e.lost)
  }

  /** One event changes only the slot of its own second: it is added to what that slot holds for this second,
      and replaces what the slot holds for any earlier one. */
  lemma SlotAfterEvent(log: seq<Event>, e: Event, k: nat)
    requires forall x :: x in log ==> x.second <= e.second
    ensures SlotOf(log + [e], k) == if e.second % SLOTS == k then Recorded(SlotOf(log, k), e) else SlotOf(log, k)
  {
    assert (log + [e])[..|log|] == log;
    var t := Latest(log, k);
    if e.second % SLOTS == k && t < e.second {
      NothingSelected(log, e.second, k);
    }
  }

  // ---- The total taken from the table ----

  function Tally(slots: seq<PktInfo>, oldest: int): Counts {
    if slots == [] then NOTHING
    else
      var i := slots[|slots| - 1];
      var before := Tally(slots[..|slots| - 1], oldest);
      if i.timestamp < oldest then before else before.Plus(Counts(i.ackCount, i.lossCount))
  }

  /** What the table contributes for one slot. */
  function Share(i: PktInfo, oldest: int): Counts {
    if i.timestamp < oldest then NOTHING else Counts(i.ackCount, i.lossCount)
  }

  /** Two seconds of one slot that are both among the last five are the same. */
  lemma SameSlotInWindow(s: nat, t: nat, now: nat, k: nat)
    requires s <= t <= now && s % SLOTS == k && t % SLOTS == k && now - SLOTS <= t
    requires t == now - SLOTS ==> now % SLOTS != k
    ensures now - (SLOTS - 1) <= s <==> t <= s
  {
  }

  /** Although the cutoff `now - 5` would admit six different seconds, a slot that survives it holds exactly the
      events of the last five: the slot that could hold the sixth was just taken over by the current second. */
  lemma SlotHoldsItsShare(log: seq<Event>, now: nat, k: nat)
    requires k < SLOTS
    requires forall e :: e in log ==> e.second <= now
    requires exists e :: e in log && e.second == now
    ensures InSlot(log, now - (SLOTS - 1), k) == Share(SlotOf(log, k), now - SLOTS)
  {
    var t := Latest(log, k);
    if t < now - SLOTS {
      NothingSelected(log, now - (SLOTS - 1), k);
    } else {
      forall e | e in log && e.second % SLOTS == k
        ensures now - (SLOTS - 1) <= e.second <==> t <= e.second
      {
        if t % SLOTS == k {
          SameSlotInWindow(e.second, t, now, k);
        }
      }
      hide Latest;
      SameSelectionSameSum(log, now - (SLOTS - 1), t, k);
    }
  }

  ghost function Table(log: seq<Event>): (t: seq<PktInfo>)
    ensures |t| == SLOTS
    ensures forall k: nat :: k < SLOTS ==> t[k] == SlotOf(log, k)
  {
    seq(SLOTS, k requires 0 <= k < SLOTS => SlotOf(log, k))
  }

  lemma TableAfterEvent(log: seq<Event>, e: Event)
    requires forall x :: x in log ==> x.second <= e.second
    ensures var slot := e.second % SLOTS;
            Table(log + [e]) == Table(log)[slot := Recorded(Table(log)[slot], e)]
  {
    forall k: nat | k < SLOTS
      ensures SlotOf(log + [e], k) == if e.second % SLOTS == k then Recorded(SlotOf(log, k), e) else SlotOf(log, k)
    {
      SlotAfterEvent(log, e, k);
    }
    hide SlotOf, Recorded;
  }

  lemma {:induction false} TallyOfFirst(log: seq<Event>, now: nat, n: nat)
    requires n <= SLOTS
    requires forall e :: e in log ==> e.second <= now
    requires exists e :: e in log && e.second == now
    ensures Tally(Table(log)[..n], now - SLOTS) == SlotsBelow(log, now - (SLOTS - 1), n)
  {
    hide SlotOf, InSlot, Table;
    if n > 0 {
      TallyOfFirst(log, now, n - 1);
      SlotHoldsItsShare(log, now, n - 1);
      assert Table(log)[..n][..n - 1] == Table(log)[..n - 1];
    }
  }

  lemma TableTotalsAreTheLog(log: seq<Event>, now: nat)
    requires forall e :: e in log ==> e.second <= now
    requires exists e :: e in log && e.second == now
    ensures Tally(Table(log), now - SLOTS) == LastFive(log, now)
  {
    hide SlotsBelow, Tally, Since, Table;
    SumBySlot(log, now - (SLOTS - 1));
    TallyOfFirst(log, now, SLOTS);
    assert Table(log)[..SLOTS] == Table(log);
  }

  // ---- The rate ----

  /** The share of packets acknowledged, held between 0.8 and 1; 1 while there are fewer than fifty. */
  function Rate(c: Counts): (r: real)
    ensures MIN_ACK_RATE <= r <= 1.0
    ensures c.lost == 0 ==> r == 1.0
  {
    if c.acked + c.lost < MIN_SAMPLES then 1.0
    else
      var rate := c.acked as real / (c.acked + c.lost) as real;
      assert rate <= 1.0;
      if rate < MIN_ACK_RATE then MIN_ACK_RATE else rate
  }

  class BrutalSender {
    const disableLossCompensation: bool
    const pktInfoSlots: array<PktInfo>
    var ackRate: real
    /** Every congestion event so far. */
    ghost var log: seq<Event>

    ghost predicate Valid()
      reads this, pktInfoSlots
    {
      pktInfoSlots[..] == Table(log)
    }

    constructor (disableLossCompensation: bool)
      ensures Valid() && log == [] && ackRate == 1.0 && fresh(pktInfoSlots)
      ensures this.disableLossCompensation == disableLossCompensation
    {
      this.disableLossCompensation := disableLossCompensation;
      ackRate := 1.0;
      pktInfoSlots := new PktInfo[SLOTS](_ => PktInfo(0, 0, 0));
      log := [];
    }

    /** After any history of events in time order, the rate is that of the last five seconds of the log. */
    method OnCongestionEventEx(eventTime: nat, acked: nat, lost: nat)
      requires Valid()
      requires forall e :: e in log ==> e.second <= eventTime / SECOND
      modifies this, pktInfoSlots
      ensures Valid()
      ensures log == old(log) + [Event(eventTime / SECOND, acked, lost)]
      ensures ackRate == if disableLossCompensation then 1.0 else Rate(LastFive(log, eventTime / SECOND))
    {
      var now := eventTime / SECOND;
      ghost var e := Event(now, acked, lost);
      TableAfterEvent(log, e);
      hide Table, LastFive, Rate, Tally;
      Record(now, acked, lost);
      log := log + [e];
      assert e in log;
      TableTotalsAreTheLog(log, now);
      UpdateAckRate(now);
    }

    /** Add to this second's slot, or take over a slot that is untouched or too old. */
    method Record(now: nat, acked: nat, lost: nat)
      requires pktInfoSlots.Length == SLOTS
      modifies pktInfoSlots
      ensures var slot := now % SLOTS;
              pktInfoSlots[..] ==
              old(pktInfoSlots[..])[slot := Recorded(old(pktInfoSlots[slot]), Event(now, acked, lost))]
    {
      var slot := now % SLOTS;
      var info := pktInfoSlots[slot];
      if info.timestamp == now {
        pktInfoSlots[slot] := info.(ackCount := info.ackCount + acked, lossCount := info.lossCount + lost);
      } else {
        pktInfoSlots[slot] := PktInfo(now, acked, lost);
      }
    }

    method UpdateAckRate(now: nat)
      requires pktInfoSlots.Length == SLOTS
      modifies `ackRate
      ensures ackRate == if disableLossCompensation then 1.0 else Rate(Tally(pktInfoSlots[..], now - SLOTS))
    {
      if disableLossCompensation {
        ackRate := 1.0;
        return;
      }
      var oldest := now - SLOTS;
      var ackCount: nat, lossCount: nat := 0, 0;
      for i := 0 to pktInfoSlots.Length
        invariant Counts(ackCount, lossCount) == Tally(pktInfoSlots[..i], oldest)
      {
        assert pktInfoSlots[..i + 1][..i] == pktInfoSlots[..i];
        var info := pktInfoSlots[i];
        if info.timestamp >= oldest {
          ackCount, lossCount := ackCount + info.ackCount, lossCount + info.lossCount;
        }
      }
      assert pktInfoSlots[..pktInfoSlots.Length] == pktInfoSlots[..];
      if ackCount + lossCount < MIN_SAMPLES {
        ackRate := 1.0;
        return;
      }
      var rate := ackCount as real / (ackCount + lossCount) as real;
      if rate < MIN_ACK_RATE {
        ackRate := MIN_ACK_RATE;
        return;
      }
      ackRate := rate;
    }
  }

  lemma ProductOfNonNegatives(x: real, y: real)
    requires x >= 0.0 && y >= 0.0
    ensures x * y >= 0.0
  {
  }

  lemma QuotientBounds(b: real, r: real, q: real)
    requires b >= 0.0 && MIN_ACK_RATE <= r <= 1.0 && q == b / r
    ensures b <= q && 0.8 * q <= b
  {
    assert q * r == b;
    assert q >= 0.0 by {
      if q < 0.0 {
        ProductOfNonNegatives(-q, r - MIN_ACK_RATE);
      }
    }
    ProductOfNonNegatives(q, 1.0 - r);
    ProductOfNonNegatives(q, r - MIN_ACK_RATE);
    assert q * (1.0 - r) == q - q * r;
    assert q * (r - MIN_ACK_RATE) == q * r - q * MIN_ACK_RATE;
  }

  /** The rate the pacer is given, `bps / ackRate`, never drops below the configured one and exceeds it by at
      most a quarter. */
  lemma PacingRateBounds(bps: nat, c: Counts)
    ensures bps <= (bps as real / Rate(c)).Floor
    ensures 4 * (bps as real / Rate(c)).Floor <= 5 * bps
  {
    hide Rate;
    QuotientBounds(bps as real, Rate(c), bps as real / Rate(c));
  }

  lemma FourFifths(a: real, n: real)
    requires n > 0.0
    ensures a / n * n == a
    ensures a / n < 0.8 <==> a < 0.8 * n
    ensures a / n <= 0.8 <==> a <= 0.8 * n
  {
    var r := a / n;
    var d := r - 0.8;
    assert r * n == a;
    assert d * n == a - 0.8 * n;
    if d > 0.0 {
      assert d * n > 0.0;
    }
    if d < 0.0 {
      assert -d * n > 0.0;
    }
  }

  /** From fifty packets on, the rate is the share acknowledged as long as this is at least four fifths. */
  lemma RateIsShare(c: Counts)
    ensures var all := c.acked + c.lost;
            && (all < 50 ==> Rate(c) == 1.0)
            && (all >= 50 && 5 * c.acked >= 4 * all ==> Rate(c) * all as real == c.acked as real)
            && (all >= 50 && 5 * c.acked <= 4 * all ==> Rate(c) == 0.8)
  {
    if c.acked + c.lost >= 50 {
      FourFifths(c.acked as real, (c.acked + c.lost) as real);
    }
  }

  /** Raising the rate makes up for the losses: of what is sent, the share acknowledged is the configured rate. */
  lemma LossIsMadeUp(bps: nat, c: Counts)
    requires c.acked + c.lost >= 50 && 5 * c.acked >= 4 * (c.acked + c.lost)
    ensures var sent := bps as real / Rate(c); sent * c.acked as real == bps as real * (c.acked + c.lost) as real
  {
    RateIsShare(c);
    var r, n, sent := Rate(c), (c.acked + c.lost) as real, bps as real / Rate(c);
    assert sent * r == bps as real;
    assert sent * (r * n) == (sent * r) * n;
  }
}
