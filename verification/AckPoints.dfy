/** The candidates for the A0 point of a bandwidth sample, core/internal/congestion/bbr/bandwidth_sampler.go. */
module AckPoints {
  import opened Basics
  import opened RingBuffers

  datatype AckPoint = AckPoint(ackTime: int, totalBytesAcked: nat)

  const NO_POINT := AckPoint(0, 0)

  /** The two most recent ack points at distinct times. */
  datatype RecentAckPoints = RecentAckPoints(older: AckPoint, newer: AckPoint)
  {
    function Update(ackTime: int, totalBytesAcked: nat): RecentAckPoints {
      RecentAckPoints(if ackTime > newer.ackTime then newer else older, AckPoint(ackTime, totalBytesAcked))
    }

    function LessRecentPoint(): AckPoint {
      if older.totalBytesAcked != 0 then older else newer
    }
  }

  const NO_POINTS := RecentAckPoints(NO_POINT, NO_POINT)

  /** The first position from `i` on whose point exceeds `x`, or the end of the list. */
  function FirstAbove(points: seq<AckPoint>, x: nat, i: nat): (k: nat)
    requires i <= |points|
    ensures i <= k <= |points|
    ensures forall j | i <= j < k :: points[j].totalBytesAcked <= x
    ensures k < |points| ==> points[k].totalBytesAcked > x
    decreases |points| - i
  {
    if i == |points| || points[i].totalBytesAcked > x then i else FirstAbove(points, x, i + 1)
  }

  /** The answer of a list that is never trimmed: the point before the first later one that exceeds `x`. */
  function ChosenPoint(points: seq<AckPoint>, x: nat): AckPoint
    requires points != []
  {
    points[FirstAbove(points, x, 1) - 1]
  }

  /** How many points a query drops from the front. When no point exceeds `x`, the loop compares its
      counter with a length that shrinks at the same time, and so drops only half of them. */
  function Dropped(points: seq<AckPoint>, x: nat): (d: nat)
    requires points != []
    ensures d < |points|
  {
    var k := FirstAbove(points, x, 1);
    if k < |points| then k - 1 else |points| / 2
  }

  function Trimmed(points: seq<AckPoint>, x: nat): (t: seq<AckPoint>)
    requires points != []
    ensures t != []
  {
    points[Dropped(points, x)..]
  }

  method PopMany(candidates: RingBuffer<AckPoint>, n: nat)
    requires candidates.Valid() && n <= |candidates.contents|
    modifies candidates, candidates.ring
    ensures candidates.Valid() && candidates.ring == old(candidates.ring)
    ensures candidates.contents == old(candidates.contents)[n..]
  {
    for j := 0 to n
      invariant candidates.Valid() && candidates.ring == old(candidates.ring)
      invariant candidates.contents == old(candidates.contents)[j..]
    {
      var _ := candidates.PopFront();
    }
  }

  method ChooseA0Point(candidates: RingBuffer<AckPoint>, totalBytesAcked: nat) returns (a0: Option<AckPoint>)
    requires candidates.Valid()
    modifies candidates, candidates.ring
    ensures candidates.Valid() && candidates.ring == old(candidates.ring)
    ensures old(candidates.contents) == [] ==> a0 == None && candidates.contents == []
    ensures old(candidates.contents) != [] ==>
              && a0 == Some(ChosenPoint(old(candidates.contents), totalBytesAcked))
              && candidates.contents == Trimmed(old(candidates.contents), totalBytesAcked)
  {
    hide View;
    ghost var points := candidates.contents;
    if candidates.Empty() {
      return None;
    }
    if candidates.Len() == 1 {
      return Some(candidates.Front());
    }
    var i := 1;
    while i < candidates.Len()
      invariant 1 <= i <= |points| && candidates.Valid()
      invariant candidates.contents == points && candidates.ring == old(candidates.ring)
      invariant FirstAbove(points, totalBytesAcked, 1) == FirstAbove(points, totalBytesAcked, i)
    {
      if candidates.Offset(i).totalBytesAcked > totalBytesAcked {
        a0 := Some(candidates.Offset(i - 1));
        if i > 1 {
          PopMany(candidates, i - 1);
        }
        return;
      }
      i := i + 1;
    }
    a0 := Some(candidates.Back());
    var k := 0;
    while k < candidates.Len() - 1
      invariant 0 <= k <= |points| / 2 && candidates.Valid()
      invariant candidates.ring == old(candidates.ring) && candidates.contents == points[k..]
      decreases |points| - k
    {
      var _ := candidates.PopFront();
      k := k + 1;
    }
  }

  // Trimming never changes an answer

  /** `trimmed` lacks some points at the front of `all`, and no query from `x` upwards misses them. */
  ghost predicate AnswersLike(trimmed: seq<AckPoint>, all: seq<AckPoint>, x: nat) {
    && trimmed != [] && |trimmed| <= |all| && trimmed == all[|all| - |trimmed|..]
    && forall i | 1 <= i <= |all| - |trimmed| :: all[i].totalBytesAcked <= x
  }

  lemma SameAnswer(trimmed: seq<AckPoint>, all: seq<AckPoint>, x: nat)
    requires AnswersLike(trimmed, all, x)
    ensures ChosenPoint(trimmed, x) == ChosenPoint(all, x)
  {
    var d, k := |all| - |trimmed|, FirstAbove(trimmed, x, 1);
    assert forall j | 1 <= j < d + k :: all[j].totalBytesAcked <= x by {
      forall j | d < j < d + k ensures all[j].totalBytesAcked <= x {
        assert all[j] == trimmed[j - d];
      }
    }
    assert FirstAbove(all, x, 1) == d + k;
  }

  /** Dropping `d` points leaves a query where it was if and only if it would have passed over all of them but the
      first. */
  lemma DroppingIsHarmlessIff(all: seq<AckPoint>, d: nat, x: nat)
    requires d < |all|
    ensures d + FirstAbove(all[d..], x, 1) == FirstAbove(all, x, 1)
            <==> forall i | 1 <= i <= d :: all[i].totalBytesAcked <= x
  {
    var rest := all[d..];
    var k := FirstAbove(rest, x, 1);
    if forall i | 1 <= i <= d :: all[i].totalBytesAcked <= x {
      assert AnswersLike(rest, all, x);
      forall j | 1 <= j < d + k ensures all[j].totalBytesAcked <= x {
        assert j > d ==> all[j] == rest[j - d];
      }
      assert k < |rest| ==> all[d + k] == rest[k];
    }
  }

  lemma TrimKeepsAnswers(trimmed: seq<AckPoint>, all: seq<AckPoint>, x: nat)
    requires AnswersLike(trimmed, all, x)
    ensures AnswersLike(Trimmed(trimmed, x), all, x)
  {
    var d, e := |all| - |trimmed|, Dropped(trimmed, x);
    forall i | 1 <= i <= d + e ensures all[i].totalBytesAcked <= x {
      if i > d {
        assert all[i] == trimmed[i - d];
      }
    }
  }

  datatype Operation = Query(x: nat) | Push(point: AckPoint)

  /** The answers when every query trims the list. */
  function TrimmingAnswers(points: seq<AckPoint>, ops: seq<Operation>): seq<AckPoint>
    requires points != []
    decreases ops
  {
    if ops == [] then []
    else
      match ops[0]
      case Query(x) => [ChosenPoint(points, x)] + TrimmingAnswers(Trimmed(points, x), ops[1..])
      case Push(point) => TrimmingAnswers(points + [point], ops[1..])
  }

  /** The answers when the list only grows. */
  function GrowingAnswers(points: seq<AckPoint>, ops: seq<Operation>): seq<AckPoint>
    requires points != []
    decreases ops
  {
    if ops == [] then []
    else
      match ops[0]
      case Query(x) => [ChosenPoint(points, x)] + GrowingAnswers(points, ops[1..])
      case Push(point) => GrowingAnswers(points + [point], ops[1..])
  }

  /** Queries come with values that never decrease, starting from `x`. */
  ghost predicate QueriesRise(ops: seq<Operation>, x: nat)
    decreases ops
  {
    ops == [] || if ops[0].Query? then x <= ops[0].x && QueriesRise(ops[1..], ops[0].x) else QueriesRise(ops[1..], x)
  }

  lemma {:induction false} TrimmingChangesNothingFrom(
    trimmed: seq<AckPoint>, all: seq<AckPoint>, ops: seq<Operation>, x: nat)
    requires AnswersLike(trimmed, all, x) && QueriesRise(ops, x)
    ensures TrimmingAnswers(trimmed, ops) == GrowingAnswers(all, ops)
    decreases ops
  {
    if ops == [] {
    } else {
      match ops[0]
      case Query(y) =>
        SameAnswer(trimmed, all, y);
        TrimKeepsAnswers(trimmed, all, y);
        TrimmingChangesNothingFrom(Trimmed(trimmed, y), all, ops[1..], y);
      case Push(point) =>
        TrimmingChangesNothingFrom(trimmed + [point], all + [point], ops[1..], x);
    }
  }

  /** Over any run of queries with rising values and candidates pushed in between, the trimmed list
      gives the same answers as a list that keeps every candidate. */
  lemma TrimmingChangesNothing(points: seq<AckPoint>, ops: seq<Operation>)
    requires points != [] && QueriesRise(ops, 0)
    ensures TrimmingAnswers(points, ops) == GrowingAnswers(points, ops)
  {
    TrimmingChangesNothingFrom(points, points, ops, 0);
  }

  /** A query below an earlier one can miss a point that was dropped. */
  lemma FallingQueriesDiffer()
    ensures var points := [AckPoint(1, 10), AckPoint(2, 20), AckPoint(3, 30)];
            var ops := [Query(25), Query(5)];
            TrimmingAnswers(points, ops) != GrowingAnswers(points, ops)
  {
    var points := [AckPoint(1, 10), AckPoint(2, 20), AckPoint(3, 30)];
    var ops := [Query(25), Query(5)];
    assert FirstAbove(points, 25, 1) == 2 && Trimmed(points, 25) == points[1..];
    assert FirstAbove(points, 5, 1) == 1 && ChosenPoint(points, 5) == points[0];
    assert FirstAbove(points[1..], 5, 1) == 1 && ChosenPoint(points[1..], 5) == points[1];
    assert ops[1..] == [Query(5)] && ops[1..][1..] == [];
    assert TrimmingAnswers(points, ops)[1] == points[1];
    assert GrowingAnswers(points, ops)[1] == points[0];
  }
}
