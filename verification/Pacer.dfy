/** The token bucket of core/internal/congestion/common/pacer.go. Times are in nanoseconds, bandwidths in
    bytes per second; the bandwidth source answers every call, and is a parameter here. */
module Pacers {
  import opened Basics

  const MAX_BURST_PACKETS := 10
  const MAX_BURST_PACING_DELAY_MULTIPLIER := 4
  const OVERFLOW_BUDGET := 0x3FFF_FFFF_FFFF_FFFF

  /** Division that rounds towards zero. */
  function TruncatedQuotient(n: int, d: int): int
    requires d > 0
  {
    if n >= 0 then n / d else -(-n / d)
  }

  /** `minPacingDelay` is a constant of the QUIC library. */
  datatype Bucket = Bucket(budgetAtLastSent: int, maxDatagramSize: int, lastSentTime: int, minPacingDelay: nat)
  {
    predicate Reasonable() {
      budgetAtLastSent >= 0 && maxDatagramSize >= 0
    }
  }

  function MaxBurstSize(b: Bucket, bw: int): int {
    Max(TruncatedQuotient(MAX_BURST_PACING_DELAY_MULTIPLIER * b.minPacingDelay * bw, SECOND),
        MAX_BURST_PACKETS * b.maxDatagramSize)
  }

  function Budget(b: Bucket, now: int, bw: int): int {
    if b.lastSentTime == 0 then MaxBurstSize(b, bw)
    else
      var budget := b.budgetAtLastSent + TruncatedQuotient(bw * (now - b.lastSentTime), SECOND);
      Min(MaxBurstSize(b, bw), if budget < 0 then OVERFLOW_BUDGET else budget)
  }

  function AfterSending(b: Bucket, sendTime: int, size: int, bw: int): Bucket {
    var budget := Budget(b, sendTime, bw);
    b.(budgetAtLastSent := if size > budget then 0 else budget - size, lastSentTime := sendTime)
  }

  /** The time until the missing budget has accrued, rounded up. */
  function WaitingTime(b: Bucket, bw: int): int
    requires bw > 0 && b.budgetAtLastSent < b.maxDatagramSize
  {
    var diff := SECOND * (b.maxDatagramSize - b.budgetAtLastSent);
    diff / bw + if diff % bw > 0 then 1 else 0
  }

  /** Zero says that a packet can be sent at once. A zero bandwidth would divide by zero in the source. */
  function TimeUntilSend(b: Bucket, bw: int): int
    requires bw > 0
  {
    if b.budgetAtLastSent >= b.maxDatagramSize then 0
    else b.lastSentTime + Max(b.minPacingDelay, WaitingTime(b, bw))
  }

  class Pacer {
    var budgetAtLastSent: int
    var maxDatagramSize: int
    var lastSentTime: int
    const minPacingDelay: nat

    function State(): Bucket
      reads this
    {
      Bucket(budgetAtLastSent, maxDatagramSize, lastSentTime, minPacingDelay)
    }

    constructor (initialPacketSize: nat, minPacingDelay: nat)
      ensures State() == Bucket(MAX_BURST_PACKETS * initialPacketSize, initialPacketSize, 0, minPacingDelay)
    {
      budgetAtLastSent := MAX_BURST_PACKETS * initialPacketSize;
      maxDatagramSize := initialPacketSize;
      lastSentTime := 0;
      this.minPacingDelay := minPacingDelay;
    }

    method SentPacket(sendTime: int, size: int, bw: int)
      modifies `budgetAtLastSent, `lastSentTime
      ensures State() == AfterSending(old(State()), sendTime, size, bw)
    {
      var budget := Budget(State(), sendTime, bw);
      if size > budget {
        budgetAtLastSent := 0;
      } else {
        budgetAtLastSent := budget - size;
      }
      lastSentTime := sendTime;
    }

    method SetMaxDatagramSize(s: int)
      modifies `maxDatagramSize
      ensures State() == old(State()).(maxDatagramSize := s)
    {
      maxDatagramSize := s;
    }
  }

  // The promised time is right

  lemma QuotientBounds(n: int, d: int)
    requires d > 0
    ensures n / d * d <= n < n / d * d + d
  {
  }

  lemma ProductGrows(x: int, y: int, z: nat)
    requires x <= y
    ensures z * x <= z * y
  {
    Distribute(y - x, x, z);
    SmallMultiple(y - x, z);
  }

  /** Waiting for the promised time gives enough budget, and waiting any shorter does not. */
  lemma WaitingTimeIsExact(b: Bucket, bw: int, elapsed: int)
    requires bw > 0 && b.Reasonable() && b.budgetAtLastSent < b.maxDatagramSize && elapsed >= 0
    ensures elapsed >= WaitingTime(b, bw) <==> bw * elapsed >= SECOND * (b.maxDatagramSize - b.budgetAtLastSent)
  {
    var diff, w := SECOND * (b.maxDatagramSize - b.budgetAtLastSent), WaitingTime(b, bw);
    QuotientBounds(diff, bw);
    Distribute(diff / bw, 1, bw);
    assert w * bw >= diff && (w - 1) * bw < diff by {
      if diff % bw == 0 {
        DivideAndMultiply(diff, bw);
        Distribute(w - 1, 1, bw);
      } else {
        DivideAndMultiply(diff, bw);
      }
    }
    if elapsed >= w {
      ProductGrows(w, elapsed, bw);
    } else {
      ProductGrows(elapsed, w - 1, bw);
    }
  }

  /** At the time that TimeUntilSend returns, or at once if it returns zero, the budget covers a full
      datagram; and when the returned time is later than the minimum delay, it is the first such time. */
  lemma PromisedTimeSuffices(b: Bucket, bw: int, now: int)
    requires bw > 0 && b.Reasonable() && now >= b.lastSentTime
    ensures b.budgetAtLastSent >= b.maxDatagramSize || now >= TimeUntilSend(b, bw)
            ==> Budget(b, now, bw) >= b.maxDatagramSize
    ensures b.lastSentTime != 0 && b.budgetAtLastSent < b.maxDatagramSize && b.maxDatagramSize > 0
            && b.minPacingDelay <= WaitingTime(b, bw) && now < TimeUntilSend(b, bw)
            ==> Budget(b, now, bw) < b.maxDatagramSize
  {
    var elapsed := now - b.lastSentTime;
    ProductGrows(0, elapsed, bw);
    QuotientBounds(bw * elapsed, SECOND);
    if b.budgetAtLastSent < b.maxDatagramSize {
      WaitingTimeIsExact(b, bw, elapsed);
    }
  }

  // The burst bound

  datatype Send = Send(time: int, size: nat)

  function BucketAfter(b: Bucket, sends: seq<Send>, bw: int): Bucket
    decreases sends
  {
    if sends == [] then b
    else
      var last := sends[|sends| - 1];
      AfterSending(BucketAfter(b, sends[..|sends| - 1], bw), last.time, last.size, bw)
  }

  function TotalSize(sends: seq<Send>): nat {
    if sends == [] then 0 else TotalSize(sends[..|sends| - 1]) + sends[|sends| - 1].size
  }

  /** The sends come in time order and each fits the budget of its moment. */
  ghost predicate WithinBudget(b: Bucket, sends: seq<Send>, bw: int)
    decreases sends
  {
    sends == [] ||
    var before, last := sends[..|sends| - 1], sends[|sends| - 1];
    && WithinBudget(b, before, bw) && last.time > 0 && b.lastSentTime <= last.time
    && (before != [] ==> before[|before| - 1].time <= last.time)
    && last.size <= Budget(BucketAfter(b, before, bw), last.time, bw)
  }

  /** Any run of sends that each fit their budget stays below one burst plus what the bandwidth allows
      in the elapsed time; what is left in the bucket comes on top. */
  lemma {:induction false} BurstBound(b: Bucket, sends: seq<Send>, bw: int)
    requires bw > 0 && b.Reasonable() && sends != [] && WithinBudget(b, sends, bw)
    ensures var after := BucketAfter(b, sends, bw);
            && TotalSize(sends) + after.budgetAtLastSent
               <= MaxBurstSize(b, bw) + bw * (sends[|sends| - 1].time - sends[0].time) / SECOND
            && after.budgetAtLastSent >= 0 && after.lastSentTime == sends[|sends| - 1].time
            && after.(budgetAtLastSent := 0, lastSentTime := 0) == b.(budgetAtLastSent := 0, lastSentTime := 0)
    decreases sends
  {
    var before, last := sends[..|sends| - 1], sends[|sends| - 1];
    var mid := BucketAfter(b, before, bw);
    if before == [] {
      SpendingStep(b, last, bw);
      assert last == sends[0] && bw * (last.time - sends[0].time) == 0;
    } else {
      BurstBound(b, before, bw);
      SpendingStep(mid, last, bw);
      AllowanceAdds(bw, sends[0].time, mid.lastSentTime, last.time);
      hide AfterSending, Budget;
      assert MaxBurstSize(mid, bw) == MaxBurstSize(b, bw);
    }
  }

  lemma SpendingStep(b: Bucket, send: Send, bw: int)
    requires bw > 0
    requires b.Reasonable()
    requires b.lastSentTime <= send.time
    requires 0 < send.time
    requires send.size <= Budget(b, send.time, bw)
    ensures var after := AfterSending(b, send.time, send.size, bw);
            && 0 <= after.budgetAtLastSent && after.budgetAtLastSent + send.size <= MaxBurstSize(b, bw)
            && (b.lastSentTime != 0 ==> after.budgetAtLastSent + send.size
                                        <= b.budgetAtLastSent + bw * (send.time - b.lastSentTime) / SECOND)
            && after.lastSentTime == send.time
            && after.(budgetAtLastSent := 0, lastSentTime := 0) == b.(budgetAtLastSent := 0, lastSentTime := 0)
  {
    ProductGrows(0, send.time - b.lastSentTime, bw);
  }

  lemma AllowanceAdds(bw: nat, t0: int, t1: int, t2: int)
    ensures bw * (t1 - t0) / SECOND + bw * (t2 - t1) / SECOND <= bw * (t2 - t0) / SECOND
  {
    Distribute(t1 - t0, t2 - t1, bw);
    QuotientsAdd(bw * (t1 - t0), bw * (t2 - t1));
  }

  lemma QuotientsAdd(x: int, y: int)
    ensures x / SECOND + y / SECOND <= (x + y) / SECOND
  {
  }

  // What the times and budgets are

  /** A datagram that the budget covers can go at once; otherwise the promised time is the first one that is the minimum
      delay after the last send, and by which the bandwidth has brought what is missing. */
  lemma PromisedTimeIsFirst(b: Bucket, bw: int, now: int)
    requires bw > 0 && b.Reasonable() && now >= b.lastSentTime
    ensures b.budgetAtLastSent >= b.maxDatagramSize ==> TimeUntilSend(b, bw) == 0
    ensures b.budgetAtLastSent < b.maxDatagramSize ==>
              (now >= TimeUntilSend(b, bw) <==>
                 && now - b.lastSentTime >= b.minPacingDelay
                 && bw * (now - b.lastSentTime) >= 1_000_000_000 * (b.maxDatagramSize - b.budgetAtLastSent))
  {
    if b.budgetAtLastSent < b.maxDatagramSize {
      WaitingTimeIsExact(b, bw, now - b.lastSentTime);
    }
    hide WaitingTime;
  }

  /** A send takes its size off the budget, which never goes below zero. */
  lemma SendingTakesItsSize(b: Bucket, sendTime: int, size: int, bw: int)
    ensures var budget, left := Budget(b, sendTime, bw), AfterSending(b, sendTime, size, bw).budgetAtLastSent;
            (size <= budget ==> left + size == budget) && (size > budget ==> left == 0)
  {
    hide Budget;
  }

  /** The greatest burst is what the bandwidth brings in four minimum delays, rounded down, or ten datagrams, whichever
      is more. */
  lemma BurstIsGreaterOfTwo(b: Bucket, bw: nat)
    ensures var burst := MaxBurstSize(b, bw);
            && burst >= 10 * b.maxDatagramSize
            && 1_000_000_000 * (burst + 1) > 4 * b.minPacingDelay * bw
            && (burst == 10 * b.maxDatagramSize || 1_000_000_000 * burst <= 4 * b.minPacingDelay * bw)
  {
    var n := 4 * b.minPacingDelay * bw;
    ProductGrows(0, 4 * b.minPacingDelay, bw);
    QuotientBounds(n, SECOND);
  }

  /** After the last send the budget grows by what the bandwidth brings, rounded down, up to the greatest burst. */
  lemma BudgetAccrues(b: Bucket, now: int, bw: nat)
    requires b.Reasonable() && b.lastSentTime != 0 && now >= b.lastSentTime
    ensures var budget, brought := Budget(b, now, bw), bw * (now - b.lastSentTime);
            && budget <= MaxBurstSize(b, bw)
            && 1_000_000_000 * budget <= 1_000_000_000 * b.budgetAtLastSent + brought
            && (budget < MaxBurstSize(b, bw) ==>
                  1_000_000_000 * (budget + 1) > 1_000_000_000 * b.budgetAtLastSent + brought)
  {
    ProductGrows(0, now - b.lastSentTime, bw);
    QuotientBounds(bw * (now - b.lastSentTime), SECOND);
    hide MaxBurstSize;
  }
}
