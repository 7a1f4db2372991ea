/** Unions of port ranges: normalising, listing, and leaving out the first port. */
module PortUnions {

  type port = p: int | 0 <= p < 0x1_0000

  /** Both ends belong to the range; a range whose end precedes its start is empty. */
  datatype PortRange = PortRange(start: port, end: port)

  type PortUnion = seq<PortRange>

  predicate InRange(r: PortRange, p: port) {
    r.start <= p <= r.end
  }

  predicate Covers(u: PortUnion, p: port) {
    exists r :: r in u && InRange(r, p)
  }

  ghost predicate SamePorts(u: PortUnion, v: PortUnion) {
    forall p: port :: Covers(u, p) <==> Covers(v, p)
  }

  /** No range is inverted. */
  ghost predicate Proper(u: PortUnion) {
    forall r :: r in u ==> r.start <= r.end
  }

  /** The ranges are in order, with at least one port between neighbours. */
  ghost predicate Normal(u: PortUnion) {
    forall i, j :: 0 <= i < j < |u| ==> u[i].start <= u[j].start && u[i].end + 1 < u[j].start
  }

  ghost predicate IsNormalFormOf(v: PortUnion, u: PortUnion) {
    Proper(v) && Normal(v) && SamePorts(v, u)
  }

  // ---- A set of ports has one normal form ----

  /** The first range of a normal union starts at its least port and ends where its ports stop being consecutive. */
  lemma FirstRange(u: PortUnion)
    requires u != [] && Proper(u) && Normal(u)
    ensures Covers(u, u[0].start)
    ensures forall p: port | p < u[0].start :: !Covers(u, p)
    ensures forall p: port | u[0].start <= p <= u[0].end :: Covers(u, p)
    ensures u[0].end < 0xFFFF ==> !Covers(u, u[0].end + 1)
    ensures forall p: port :: Covers(u[1..], p) <==> Covers(u, p) && u[0].end < p
  {
    assert u[0] in u;
    assert forall r :: r in u <==> r == u[0] || r in u[1..];
    forall p: port | u[0].start <= p <= u[0].end ensures Covers(u, p) { assert InRange(u[0], p); }
  }

  lemma {:induction false} NormalFormIsUnique(u: PortUnion, v: PortUnion)
    requires Proper(u) && Normal(u) && Proper(v) && Normal(v)
    requires SamePorts(u, v)
    ensures u == v
  {
    if u != [] && v != [] {
      FirstRange(u);
      FirstRange(v);
      hide Covers;
      assert u[0].start == v[0].start;
      assert u[0].end == v[0].end;
      NormalFormIsUnique(u[1..], v[1..]);
      assert u == [u[0]] + u[1..] && v == [v[0]] + v[1..];
    } else if u != [] {
      FirstRange(u);
    } else if v != [] {
      FirstRange(v);
    }
  }

  // ---- Sorting in place ----

  predicate Before(a: PortRange, b: PortRange) {
    if a.start == b.start then a.end < b.end else a.start < b.start
  }

  predicate AtMost(a: PortRange, b: PortRange) {
    a.start < b.start || (a.start == b.start && a.end <= b.end)
  }

  ghost predicate Sorted(u: PortUnion) {
    forall i, j :: 0 <= i < j < |u| ==> AtMost(u[i], u[j])
  }

  /** Sorts the caller's slice. */
  method Sort(u: array<PortRange>)
    modifies u
    ensures Sorted(u[..]) && multiset(u[..]) == multiset(old(u[..]))
  {
    for i := 0 to u.Length
      invariant Sorted(u[..i]) && multiset(u[..]) == multiset(old(u[..]))
    {
      SiftDown(u, i);
    }
    assert u[..u.Length] == u[..];
  }

  /** Moves element `i` down to its place among the sorted ones below it. */
  method SiftDown(u: array<PortRange>, i: nat)
    requires i < u.Length && Sorted(u[..i])
    modifies u
    ensures Sorted(u[..i + 1]) && multiset(u[..]) == multiset(old(u[..]))
  {
    var j := i;
    assert SortedBut(u[..i + 1], i);
    while j > 0 && Before(u[j], u[j - 1])
      invariant 0 <= j <= i
      invariant multiset(u[..]) == multiset(old(u[..]))
      invariant SortedBut(u[..i + 1], j)
    {
      SwapStaysSorted(u[..i + 1], j);
      hide SortedBut, Before;
      ghost var was := u[..];
      u[j], u[j - 1] := u[j - 1], u[j];
      assert u[..] == was[j := was[j - 1]][j - 1 := was[j]];
      assert u[..i + 1] == was[..i + 1][j := was[j - 1]][j - 1 := was[j]];
      j := j - 1;
    }
  }

  /** Element `j` may be smaller than some of those below it; the others are sorted. */
  ghost predicate SortedBut(u: PortUnion, j: nat) {
    forall a, b :: 0 <= a < b < |u| && b != j ==> AtMost(u[a], u[b])
  }

  lemma SwapStaysSorted(u: PortUnion, j: nat)
    requires 0 < j < |u| && SortedBut(u, j) && Before(u[j], u[j - 1])
    ensures SortedBut(u[j := u[j - 1]][j - 1 := u[j]], j - 1)
  {
  }

  // ---- Normalising ----

  /** What merging one more range, no smaller than any before, does to the last range or the list. */
  function Merge(n: PortUnion, c: PortRange): PortUnion
    requires n != []
  {
    var last := n[|n| - 1];
    if c.start <= last.end + 1 then
      if c.end > last.end then n[..|n| - 1] + [last.(end := c.end)] else n
    else n + [c]
  }

  lemma MergeKeepsPorts(n: PortUnion, c: PortRange, p: port)
    requires n != [] && n[|n| - 1].start <= c.start
    ensures Covers(Merge(n, c), p) <==> Covers(n, p) || InRange(c, p)
  {
    var front, last := n[..|n| - 1], n[|n| - 1];
    assert n == front + [last];
    assert forall r :: r in n <==> r in front || r == last;
    var m := Merge(n, c);
    if c.start <= last.end + 1 && c.end > last.end {
      var l' := last.(end := c.end);
      assert forall r :: r in m <==> r in front || r == l';
      assert InRange(l', p) <==> InRange(last, p) || InRange(c, p);
    } else if c.start > last.end + 1 {
      assert forall r :: r in m <==> r in n || r == c;
    } else {
      assert InRange(c, p) ==> InRange(last, p);
    }
  }

  lemma MergeKeepsNormal(n: PortUnion, c: PortRange)
    requires n != [] && Normal(n) && n[|n| - 1].start <= c.start
    ensures var m := Merge(n, c);
            m != [] && Normal(m) && m[|m| - 1].start <= c.start
  {
  }

  lemma MergeKeepsProper(n: PortUnion, c: PortRange)
    requires n != [] && Proper(n) && c.start <= c.end
    ensures Proper(Merge(n, c))
  {
    var last := n[|n| - 1];
    assert last in n;
    assert forall r :: r in Merge(n, c) ==> r in n || r == c || r == last.(end := c.end);
  }

  /** Sorts the slice, then merges overlapping and touching ranges. The set of ports stays the same, whatever
      the ranges are, inverted ones included; the result is in order with gaps. */
  method Normalize(u: array<PortRange>) returns (normalized: PortUnion)
    modifies u
    ensures Sorted(u[..]) && multiset(u[..]) == multiset(old(u[..]))
    ensures SamePorts(normalized, old(u[..]))
    ensures Normal(normalized)
    ensures Proper(old(u[..])) ==> Proper(normalized)
  {
    if u.Length == 0 {
      return [];
    }
    Sort(u);
    SameElements(u[..], old(u[..]));
    hide Covers, Proper, Normal;
    normalized := MergeSorted(u[..]);
  }

  /** What merging the ranges `done` has achieved. */
  ghost predicate Merged(n: PortUnion, done: PortUnion) {
    && n != [] && done != [] && n[|n| - 1].start <= done[|done| - 1].start
    && SamePorts(n, done) && Normal(n) && (Proper(done) ==> Proper(n))
  }

  /** The merging loop. */
  method MergeSorted(u: PortUnion) returns (normalized: PortUnion)
    requires u != [] && Sorted(u)
    ensures Merged(normalized, u)
  {
    normalized := [u[0]];
    assert u[..1] == normalized;
    OneIsMerged(u[0]);
    for i := 1 to |u|
      invariant normalized != [] && Merged(normalized, u[..i])
    {
      hide Merged, Merge;
      MergeOne(normalized, u[..i], u[i]);
      assert u[..i + 1] == u[..i] + [u[i]];
      normalized := MergeNext(normalized, u[i]);
    }
    assert u[..|u|] == u;
  }

  lemma OneIsMerged(r: PortRange)
    ensures Merged([r], [r])
  {
  }

  method MergeNext(n: PortUnion, current: PortRange) returns (m: PortUnion)
    requires n != []
    ensures m == Merge(n, current)
  {
    var last := n[|n| - 1];
    if current.start <= last.end + 1 {
      if current.end > last.end {
        return n[..|n| - 1] + [last.(end := current.end)];
      }
      return n;
    }
    return n + [current];
  }

  lemma SameElements(u: PortUnion, v: PortUnion)
    requires multiset(u) == multiset(v)
    ensures SamePorts(u, v) && Proper(u) == Proper(v)
  {
    assert forall r :: r in u <==> r in multiset(u);
    assert forall r :: r in v <==> r in multiset(v);
  }

  lemma MergeOne(n: PortUnion, done: PortUnion, c: PortRange)
    requires Merged(n, done) && done[|done| - 1].start <= c.start
    ensures Merge(n, c) != [] && Merged(Merge(n, c), done + [c])
  {
    MergeKeepsNormal(n, c);
    assert forall r :: r in done + [c] <==> r in done || r == c;
    if Proper(done + [c]) {
      MergeKeepsProper(n, c);
    }
    hide Merge, Normal, Proper;
    forall p: port
      ensures Covers(Merge(n, c), p) <==> Covers(done + [c], p)
    {
      MergeKeepsPorts(n, c, p);
    }
  }

  // ---- Listing ----

  function RangePorts(r: PortRange, from: int): (ps: seq<port>)
    requires r.start <= from
    ensures forall p :: p in ps <==> from <= p <= r.end
    decreases r.end - from
  {
    if from > r.end then [] else [from] + RangePorts(r, from + 1)
  }

  function PortList(u: PortUnion): seq<port> {
    if u == [] then [] else PortList(u[..|u| - 1]) + RangePorts(u[|u| - 1], u[|u| - 1].start)
  }

  ghost predicate Increasing(ps: seq<port>) {
    forall i, j :: 0 <= i < j < |ps| ==> ps[i] < ps[j]
  }

  lemma {:induction false} PortListIsTheSet(u: PortUnion, p: port)
    ensures p in PortList(u) <==> Covers(u, p)
  {
    if u == [] {
    } else {
      PortListIsTheSet(u[..|u| - 1], p);
      var front, last := u[..|u| - 1], u[|u| - 1];
      assert forall r :: r in u <==> r in front || r == last;
      assert p in RangePorts(last, last.start) <==> InRange(last, p);
      assert Covers(u, p) <==> Covers(front, p) || InRange(last, p);
    }
  }

  lemma {:induction false} RangePortsIncrease(r: PortRange, from: int)
    requires r.start <= from
    ensures Increasing(RangePorts(r, from))
    decreases r.end - from
  {
    if from <= r.end {
      RangePortsIncrease(r, from + 1);
      var rest := RangePorts(r, from + 1);
      forall j | 0 <= j < |rest| ensures from < rest[j] { assert rest[j] in rest; }
    }
  }

  /** The ports of a normal union are listed in increasing order, and so once each. */
  lemma {:induction false} PortListIncreases(u: PortUnion)
    requires Normal(u)
    ensures Increasing(PortList(u))
  {
    if u == [] {
    } else {
      var front, last := u[..|u| - 1], u[|u| - 1];
      PortListIncreases(front);
      RangePortsIncrease(last, last.start);
      var a, b := PortList(front), RangePorts(last, last.start);
      forall i, j | 0 <= i < |a| && 0 <= j < |b|
        ensures a[i] < b[j]
      {
        assert a[i] in a && b[j] in b;
        PortListIsTheSet(front, a[i]);
        var r :| r in front && InRange(r, a[i]);
        var k :| 0 <= k < |front| && front[k] == r;
        assert u[k].end + 1 < last.start;
      }
    }
  }

  method Ports(u: PortUnion) returns (ports: seq<port>)
    ensures ports == PortList(u)
    ensures forall p: port :: p in ports <==> Covers(u, p)
    ensures Normal(u) ==> Increasing(ports)
  {
    ports := [];
    for k := 0 to |u|
      invariant ports == PortList(u[..k])
    {
      var r := u[k];
      ghost var before := ports;
      var i: int := r.start;
      while i <= r.end
        invariant r.start <= i
        invariant ports + RangePorts(r, i) == before + RangePorts(r, r.start)
        decreases r.end - i
      {
        ports := ports + [i];
        i := i + 1;
      }
      assert u[..k + 1][..k] == u[..k];
    }
    assert u[..|u|] == u;
    forall p: port ensures p in ports <==> Covers(u, p) { PortListIsTheSet(u, p); }
    if Normal(u) {
      PortListIncreases(u);
    }
  }

  method Contains(u: PortUnion, p: port) returns (found: bool)
    ensures found <==> Covers(u, p)
  {
    for i := 0 to |u|
      invariant forall k :: 0 <= k < i ==> !InRange(u[k], p)
    {
      if p >= u[i].start && p <= u[i].end {
        assert InRange(u[i], p);
        return true;
      }
    }
    return false;
  }

  // ---- Leaving out the first port ----

  /** The ranges to be redirected to the first port: all but that one. The caller's slice is left alone. The
      16-bit start may wrap. */
  function Redirected(u: PortUnion): PortUnion {
    if u == [] then []
    else if u[0].start == u[0].end then u[1..]
    else u[0 := u[0].(start := (u[0].start + 1) % 0x1_0000)]
  }

  method RedirectPortUnion(u: PortUnion) returns (redirects: PortUnion)
    ensures redirects == Redirected(u)
  {
    if |u| == 0 {
      return [];
    }
    var copy := new PortRange[|u|](i requires 0 <= i < |u| => u[i]);
    assert copy[..] == u;
    if copy[0].start == copy[0].end {
      return copy[1..];
    }
    copy[0] := copy[0].(start := (copy[0].start + 1) % 0x1_0000);
    return copy[..];
  }

  lemma CoversFirstOrRest(u: PortUnion, p: port)
    requires u != []
    ensures Covers(u, p) <==> InRange(u[0], p) || Covers(u[1..], p)
  {
    assert forall r :: r in u <==> r == u[0] || r in u[1..];
  }

  /** What redirecting does to one port; only an inverted range that starts at the last port wraps around. */
  lemma RedirectedCovers(u: PortUnion, p: port)
    requires u != []
    ensures Covers(Redirected(u), p) <==>
            Covers(u[1..], p) || (InRange(u[0], p) && p != u[0].start)
            || (u[0].start == 0xFFFF && u[0].end < 0xFFFF && p <= u[0].end)
  {
    if u[0].start != u[0].end {
      assert Redirected(u)[1..] == u[1..];
      CoversFirstOrRest(Redirected(u), p);
    }
  }

  /** The redirected ports are all but the first port if and only if no other range holds that port, and the other
      ranges hold all the ports that an inverted first range wraps around to. */
  lemma RedirectedLosesFirstPort(u: PortUnion)
    requires u != []
    ensures (forall p: port :: Covers(Redirected(u), p) <==> Covers(u, p) && p != u[0].start)
            <==> !Covers(u[1..], u[0].start)
                 && (u[0].start == 0xFFFF && u[0].end < 0xFFFF ==> forall p: port | p <= u[0].end :: Covers(u[1..], p))
  {
    forall p: port
      ensures Covers(u, p) <==> InRange(u[0], p) || Covers(u[1..], p)
      ensures Covers(Redirected(u), p) <==>
              Covers(u[1..], p) || (InRange(u[0], p) && p != u[0].start)
              || (u[0].start == 0xFFFF && u[0].end < 0xFFFF && p <= u[0].end)
    {
      CoversFirstOrRest(u, p);
      RedirectedCovers(u, p);
    }
    hide Covers, Redirected;
    var first := u[0].start;
    assert Covers(Redirected(u), first) <==>
           Covers(u[1..], first) || (first == 0xFFFF && u[0].end < 0xFFFF && first <= u[0].end);
  }

  /** On a normal union that is always so. */
  lemma RedirectedNormalUnion(u: PortUnion)
    requires u != [] && Proper(u) && Normal(u)
    ensures forall p: port :: Covers(Redirected(u), p) <==> Covers(u, p) && p != u[0].start
  {
    assert u[0] in u;
    forall r | r in u[1..]
      ensures !InRange(r, u[0].start)
    {
      var k :| 0 < k < |u| && u[k] == r;
    }
    RedirectedLosesFirstPort(u);
  }

  lemma RedirectedStaysNormal(u: PortUnion)
    requires Proper(u) && Normal(u)
    ensures Proper(Redirected(u)) && Normal(Redirected(u))
  {
    if u != [] && u[0].start != u[0].end {
      var r := u[0].(start := u[0].start + 1);
      assert u[0] in u;
      assert Redirected(u) == u[0 := r];
      assert forall i | 0 < i < |u| :: u[0 := r][i] == u[i] && u[i] in u;
      assert Proper(u[0 := r]) by { hide Normal; }
      assert Normal(u[0 := r]) by { hide Proper; }
    }
  }

  /** An inverted first range that starts at the last port wraps around to the ports from zero on. */
  lemma InvertedFirstRangeWraps()
    ensures var u := [PortRange(0xFFFF, 1)];
            !Covers(u, 0) && Covers(Redirected(u), 0)
  {
    var u := [PortRange(0xFFFF, 1)];
    assert Redirected(u) == [PortRange(0, 1)];
    assert PortRange(0, 1) in Redirected(u) && InRange(PortRange(0, 1), 0);
  }
}
