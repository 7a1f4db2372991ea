/** The country matcher: networks sorted by address and searched by bisection. */
module GeoIP {
  import opened Addresses
  import opened Acl
  import opened Basics

  // ---- Networks ----

  /** A network covers a run of consecutive addresses with its own address among them. */
  lemma CoversIsConvex(n: Net, width: nat, a: nat, b: nat, c: nat)
    requires a <= b <= c
    requires Covers(n, width, a) && Covers(n, width, c)
    ensures Covers(n, width, b)
  {
    var p := Pow2(width - n.prefix);
    DivisionIsMonotone(a, b, p);
    DivisionIsMonotone(b, c, p);
  }

  lemma DivisionIsMonotone(a: nat, b: nat, p: nat)
    requires a <= b && p > 0
    ensures a / p <= b / p
  {
    DivideAndMultiply(a, p);
    DivideAndMultiply(b, p);
    Distribute(a / p, -(b / p), p);
    SmallMultiple(a / p - b / p, p);
  }

  ghost predicate Sorted(nets: seq<Net>) {
    forall i, j :: 0 <= i < j < |nets| ==> nets[i].ip <= nets[j].ip
  }

  /** The plain scan. */
  ghost predicate AnyCovers(nets: seq<Net>, width: nat, ip: nat) {
    exists n :: n in nets && Covers(n, width, ip)
  }

  /** No address of an entry lies inside another entry, unless both are the same network. */
  ghost predicate Apart(m: Net, n: Net, width: nat) {
    Covers(m, width, n.ip) ==> m.prefix == n.prefix && IsLive(n, width)
  }

  /** The networks are pairwise disjoint; the same one may be listed more than once. */
  ghost predicate Unnested(nets: seq<Net>, width: nat) {
    forall m, n :: m in nets && n in nets ==> Apart(m, n, width)
  }

  lemma CoversItself(m: Net, width: nat, ip: nat)
    requires Covers(m, width, ip)
    ensures Covers(m, width, m.ip)
  {
  }

  lemma SameNetwork(m: Net, n: Net, width: nat, ip: nat)
    requires Apart(m, n, width) && Covers(m, width, n.ip) && Covers(m, width, ip)
    ensures Covers(n, width, ip)
  {
  }

  /** A network that misses `ip` and whose address is on the far side of another network's address shuts that
      other network out. */
  lemma FarSideIsShutOut(m: Net, mid: Net, width: nat, ip: nat)
    requires Apart(m, mid, width)
    requires !Covers(mid, width, ip)
    requires m.ip <= mid.ip <= ip || ip <= mid.ip <= m.ip
    ensures !Covers(m, width, ip)
  {
    hide Pow2;
    if Covers(m, width, ip) {
      hide Covers;
      CoversItself(m, width, ip);
      if m.ip <= mid.ip {
        CoversIsConvex(m, width, m.ip, mid.ip, ip);
      } else {
        CoversIsConvex(m, width, ip, mid.ip, m.ip);
      }
      SameNetwork(m, mid, width, ip);
    }
  }

  // ---- Bisection ----

  /** What bisection finds between two positions. */
  ghost function Bisect(nets: seq<Net>, width: nat, ip: nat, left: int, right: int): bool
    requires 0 <= left <= right + 1 <= |nets|
    decreases right - left + 1
  {
    if left > right then false
    else
      var mid := (left + right) / 2;
      Covers(nets[mid], width, ip)
      || (if nets[mid].ip < ip then Bisect(nets, width, ip, mid + 1, right) else Bisect(nets, width, ip, left, mid - 1))
  }

  /** Bisection never finds what the scan does not find, whatever the list. */
  lemma {:induction false} FindsOnlyListed(nets: seq<Net>, width: nat, ip: nat, left: int, right: int)
    requires 0 <= left <= right + 1 <= |nets|
    requires Bisect(nets, width, ip, left, right)
    ensures AnyCovers(nets, width, ip)
    decreases right - left + 1
  {
    var mid := (left + right) / 2;
    if Covers(nets[mid], width, ip) {
      assert nets[mid] in nets;
    } else if nets[mid].ip < ip {
      FindsOnlyListed(nets, width, ip, mid + 1, right);
    } else {
      FindsOnlyListed(nets, width, ip, left, mid - 1);
    }
  }

  /** On a sorted list without nesting it finds whatever the scan finds. */
  lemma {:induction false} FindsAllListed(nets: seq<Net>, width: nat, ip: nat, left: int, right: int, i: nat)
    requires 0 <= left <= i <= right < |nets|
    requires Sorted(nets) && Unnested(nets, width) && Covers(nets[i], width, ip)
    ensures Bisect(nets, width, ip, left, right)
    decreases right - left + 1
  {
    hide Covers;
    var mid := (left + right) / 2;
    if !Covers(nets[mid], width, ip) {
      if (nets[mid].ip < ip && i < mid) || (ip <= nets[mid].ip && mid < i) {
        FarSideIsShutOut(nets[i], nets[mid], width, ip);
      } else if nets[mid].ip < ip {
        FindsAllListed(nets, width, ip, mid + 1, right, i);
      } else {
        FindsAllListed(nets, width, ip, left, mid - 1, i);
      }
    }
  }

  lemma BisectionIsScan(nets: seq<Net>, width: nat, ip: nat)
    requires Sorted(nets) && Unnested(nets, width)
    ensures Bisect(nets, width, ip, 0, |nets| - 1) <==> AnyCovers(nets, width, ip)
  {
    if n :| n in nets && Covers(n, width, ip) {
      var i :| 0 <= i < |nets| && nets[i] == n;
      FindsAllListed(nets, width, ip, 0, |nets| - 1, i);
    }
    if Bisect(nets, width, ip, 0, |nets| - 1) {
      FindsOnlyListed(nets, width, ip, 0, |nets| - 1);
    }
  }

  // ---- Which addresses are found ----

  /** The positions that bisection looks at for an address above exactly `rank` of the listed addresses. They depend
      on the length of the list only, not on the prefixes. */
  ghost function Probes(rank: nat, left: int, right: int): set<int>
    requires 0 <= left <= right + 1
    decreases right - left + 1
  {
    if left > right then {}
    else
      var mid := (left + right) / 2;
      {mid} + if mid < rank then Probes(rank, mid + 1, right) else Probes(rank, left, mid - 1)
  }

  /** How many of the listed addresses lie below `ip`. */
  ghost predicate IsRank(nets: seq<Net>, ip: nat, rank: nat) {
    rank <= |nets| && forall i | 0 <= i < |nets| :: nets[i].ip < ip <==> i < rank
  }

  lemma {:induction false} SortedHasRank(nets: seq<Net>, ip: nat) returns (rank: nat)
    requires Sorted(nets)
    ensures IsRank(nets, ip, rank)
  {
    if nets == [] || nets[|nets| - 1].ip < ip {
      rank := |nets|;
    } else {
      rank := SortedHasRank(nets[..|nets| - 1], ip);
    }
  }

  lemma {:induction false} ProbesInRange(rank: nat, left: int, right: int)
    requires 0 <= left <= right + 1
    ensures forall k :: k in Probes(rank, left, right) ==> left <= k <= right
    decreases right - left + 1
  {
    if left <= right {
      var mid := (left + right) / 2;
      ProbesInRange(rank, mid + 1, right);
      ProbesInRange(rank, left, mid - 1);
    }
  }

  ghost predicate ProbeCovers(nets: seq<Net>, width: nat, ip: nat, probes: set<int>) {
    exists k :: k in probes && 0 <= k < |nets| && Covers(nets[k], width, ip)
  }

  /** On a sorted list, nested or not, an address is found if and only if one of the networks probed for its rank
      covers it. */
  lemma {:induction false} FoundIffProbed(nets: seq<Net>, width: nat, ip: nat, rank: nat, left: int, right: int)
    requires 0 <= left <= right + 1 <= |nets| && IsRank(nets, ip, rank)
    ensures Bisect(nets, width, ip, left, right) <==> ProbeCovers(nets, width, ip, Probes(rank, left, right))
    decreases right - left + 1
  {
    hide Covers;
    if left <= right {
      var mid := (left + right) / 2;
      if mid < rank {
        FoundIffProbed(nets, width, ip, rank, mid + 1, right);
      } else {
        FoundIffProbed(nets, width, ip, rank, left, mid - 1);
      }
    }
  }

  /** Bisection answers an address as the scan does if and only if no network covers it, or one that is probed for
      its rank does. */
  lemma AnswerIsRightIff(nets: seq<Net>, width: nat, ip: nat, rank: nat)
    requires Sorted(nets) && IsRank(nets, ip, rank)
    ensures (Bisect(nets, width, ip, 0, |nets| - 1) <==> AnyCovers(nets, width, ip)) <==>
            (AnyCovers(nets, width, ip) ==> ProbeCovers(nets, width, ip, Probes(rank, 0, |nets| - 1)))
  {
    FoundIffProbed(nets, width, ip, rank, 0, |nets| - 1);
    if Bisect(nets, width, ip, 0, |nets| - 1) {
      FindsOnlyListed(nets, width, ip, 0, |nets| - 1);
    }
  }

  /** The network with the greatest address that is not above `ip`. */
  ghost predicate IsNearest(nets: seq<Net>, ip: nat, q: nat) {
    q < |nets| && nets[q].ip <= ip && (q + 1 < |nets| ==> nets[q + 1].ip > ip)
  }

  /** Nesting does no harm to an address that the nearest network below it covers. */
  lemma {:induction false} NearestIsFound(nets: seq<Net>, width: nat, ip: nat, left: int, right: int, q: nat)
    requires Sorted(nets) && forall n | n in nets && n.ip == ip :: IsLive(n, width)
    requires IsNearest(nets, ip, q) && Covers(nets[q], width, ip) && 0 <= left <= q <= right < |nets|
    ensures Bisect(nets, width, ip, left, right)
    decreases right - left + 1
  {
    var mid := (left + right) / 2;
    if !Covers(nets[mid], width, ip) {
      assert nets[mid] in nets;
      if nets[mid].ip < ip {
        NearestIsFound(nets, width, ip, mid + 1, right, q);
      } else {
        NearestIsFound(nets, width, ip, left, mid - 1, q);
      }
    }
  }

  /** So an address is only missed if the nearest network below it does not cover it. */
  lemma MissedByNearest(nets: seq<Net>, width: nat, ip: nat, q: nat)
    requires Sorted(nets) && (forall n | n in nets :: IsLive(n, width)) && IsNearest(nets, ip, q)
    requires !Bisect(nets, width, ip, 0, |nets| - 1)
    ensures !Covers(nets[q], width, ip)
  {
    if Covers(nets[q], width, ip) {
      NearestIsFound(nets, width, ip, 0, |nets| - 1, q);
    }
  }

  /** Every network is written with the first of its addresses. */
  ghost predicate FirstAddressed(nets: seq<Net>, width: nat) {
    forall n | n in nets :: IsLive(n, width) && forall ip: nat | Covers(n, width, ip) :: n.ip <= ip
  }

  /** Without nesting, the nearest network below an address covers it if any network does; hence bisection equals the
      scan on disjoint networks that are so written. */
  lemma NearestDecides(nets: seq<Net>, width: nat, ip: nat, q: nat)
    requires Sorted(nets) && Unnested(nets, width) && FirstAddressed(nets, width) && IsNearest(nets, ip, q)
    ensures Covers(nets[q], width, ip) <==> AnyCovers(nets, width, ip)
    ensures Bisect(nets, width, ip, 0, |nets| - 1) <==> Covers(nets[q], width, ip)
  {
    hide Covers, IsLive, Unnested, Sorted, Bisect;
    assert nets[q] in nets && forall n | n in nets :: IsLive(n, width);
    hide FirstAddressed;
    if n :| n in nets && Covers(n, width, ip) {
      NearestCoversToo(nets, width, ip, q, n);
    }
    if Covers(nets[q], width, ip) {
      NearestIsFound(nets, width, ip, 0, |nets| - 1, q);
    }
    if Bisect(nets, width, ip, 0, |nets| - 1) {
      FindsOnlyListed(nets, width, ip, 0, |nets| - 1);
    }
  }

  lemma NearestCoversToo(nets: seq<Net>, width: nat, ip: nat, q: nat, n: Net)
    requires Sorted(nets) && Unnested(nets, width) && FirstAddressed(nets, width) && IsNearest(nets, ip, q)
    requires n in nets && Covers(n, width, ip)
    ensures Covers(nets[q], width, ip)
  {
    hide Covers, IsLive;
    var i :| 0 <= i < |nets| && nets[i] == n;
    assert n.ip <= ip && nets[q] in nets && Apart(n, nets[q], width);
    assert n.ip <= nets[q].ip;
    hide Sorted, Unnested, FirstAddressed, Apart;
    CoversItself(n, width, ip);
    CoversIsConvex(n, width, n.ip, nets[q].ip, ip);
    SameNetwork(n, nets[q], width, ip);
  }

  /** With a network nested in another, bisection can lose an address that the scan finds: 0.0.0.3 belongs to
      0.0.0.0/30, but the search turns to the far side of 0.0.0.1/32. */
  lemma NestedNetworkIsMissed()
    ensures var nets := [Net(0, 30), Net(1, 32), Net(2, 32)];
            Sorted(nets) && AnyCovers(nets, 32, 3) && !Bisect(nets, 32, 3, 0, 2)
  {
    var nets := [Net(0, 30), Net(1, 32), Net(2, 32)];
    assert Pow2(0) == 1 && Pow2(2) == 4;
    assert nets[0] in nets && Covers(nets[0], 32, 3);
    assert !Bisect(nets, 32, 3, 2, 2);
  }

  // ---- The matcher ----

  /** One entry of a country's list: the number of bytes of its address, the address, and the prefix length. */
  datatype Cidr = Cidr(size: nat, ip: nat, prefix: nat)

  ghost predicate WellSized(cidrs: seq<Cidr>) {
    forall c :: c in cidrs ==> c.size == 4 || c.size == 16
  }

  /** The networks of one family, in the order listed. */
  ghost function Family(cidrs: seq<Cidr>, size: nat): seq<Net> {
    if cidrs == [] then []
    else
      var c := cidrs[|cidrs| - 1];
      var before := Family(cidrs[..|cidrs| - 1], size);
      if c.size == size then before + [Net(c.ip, c.prefix)] else before
  }

  lemma {:induction false} FamilyHoldsItsOwn(cidrs: seq<Cidr>, size: nat, n: Net)
    ensures n in Family(cidrs, size) <==> Cidr(size, n.ip, n.prefix) in cidrs
  {
    if cidrs == [] {
    } else {
      var before := cidrs[..|cidrs| - 1];
      FamilyHoldsItsOwn(before, size, n);
      assert cidrs == before + [cidrs[|cidrs| - 1]];
    }
  }

  /** A sorted copy. */
  method SortByAddress(nets: seq<Net>) returns (sorted: seq<Net>)
    ensures Sorted(sorted) && multiset(sorted) == multiset(nets)
  {
    sorted := [];
    for i := 0 to |nets|
      invariant Sorted(sorted) && multiset(sorted) == multiset(nets[..i])
    {
      assert nets[..i + 1] == nets[..i] + [nets[i]];
      sorted := Insert(sorted, nets[i]);
    }
    assert nets[..|nets|] == nets;
  }

  method Insert(sorted: seq<Net>, n: Net) returns (longer: seq<Net>)
    requires Sorted(sorted)
    ensures Sorted(longer) && multiset(longer) == multiset(sorted) + multiset{n}
  {
    hide Sorted;
    var k := |sorted|;
    while k > 0 && n.ip < sorted[k - 1].ip
      invariant 0 <= k <= |sorted|
      invariant forall j :: k <= j < |sorted| ==> n.ip < sorted[j].ip
    {
      k := k - 1;
    }
    longer := sorted[..k] + [n] + sorted[k..];
    SortedWith(sorted, k, n);
    assert sorted[..k] + sorted[k..] == sorted;
  }

  lemma SortedWith(sorted: seq<Net>, k: nat, n: Net)
    requires Sorted(sorted) && k <= |sorted|
    requires k > 0 ==> sorted[k - 1].ip <= n.ip
    requires forall j :: k <= j < |sorted| ==> n.ip <= sorted[j].ip
    ensures Sorted(sorted[..k] + [n] + sorted[k..])
  {
    var longer := sorted[..k] + [n] + sorted[k..];
    forall i, j | 0 <= i < j < |longer|
      ensures longer[i].ip <= longer[j].ip
    {
      assert longer[i] == if i < k then sorted[i] else if i == k then n else sorted[i - 1];
      assert longer[j] == if j < k then sorted[j] else if j == k then n else sorted[j - 1];
    }
  }

  /** Whether an address is in a country's list: the plain scan over all its entries. */
  ghost predicate Listed(cidrs: seq<Cidr>, a: Address) {
    match Canonical(a)
    case Absent => false
    case Four(bits) => exists c :: c in cidrs && c.size == 4 && Covers(Net(c.ip, c.prefix), 32, bits)
    case Sixteen(bits) => exists c :: c in cidrs && c.size == 16 && Covers(Net(c.ip, c.prefix), 128, bits)
  }

  /** The networks of each family are pairwise disjoint, or repeated. */
  ghost predicate Disjoint(cidrs: seq<Cidr>) {
    Unnested(Family(cidrs, 4), 32) && Unnested(Family(cidrs, 16), 128)
  }

  lemma OrderDoesNotMatter(family: seq<Net>, nets: seq<Net>, width: nat)
    requires multiset(nets) == multiset(family) && Unnested(family, width)
    ensures Unnested(nets, width)
  {
    hide Apart;
    forall m, n | m in nets && n in nets
      ensures Apart(m, n, width)
    {
      assert m in multiset(nets) && n in multiset(nets);
    }
  }

  datatype GeoIPMatcher = GeoIPMatcher(n4: seq<Net>, n6: seq<Net>, inverse: bool)
  {
    /** The two lists are the sorted families of a country's list. */
    ghost predicate Holds(cidrs: seq<Cidr>) {
      && Sorted(n4) && multiset(n4) == multiset(Family(cidrs, 4))
      && Sorted(n6) && multiset(n6) == multiset(Family(cidrs, 16))
    }

    method MatchIP(a: Address) returns (found: bool)
      ensures found == match Canonical(a)
                       case Absent => false
                       case Four(bits) => Bisect(n4, 32, bits, 0, |n4| - 1)
                       case Sixteen(bits) => Bisect(n6, 128, bits, 0, |n6| - 1)
    {
      var ip := Canonical(a);
      if ip.Absent? {
        return false;
      }
      var n, width := n4, 32;
      if ip.Sixteen? {
        n, width := n6, 128;
      }
      var left, right := 0, |n| - 1;
      while left <= right
        invariant 0 <= left <= right + 1 <= |n|
        invariant Bisect(n, width, ip.bits, 0, |n| - 1) == Bisect(n, width, ip.bits, left, right)
      {
        var mid := (left + right) / 2;
        if Covers(n[mid], width, ip.bits) {
          return true;
        } else if n[mid].ip < ip.bits {
          left := mid + 1;
        } else {
          right := mid - 1;
        }
      }
      return false;
    }

    /** On a list without nesting the matcher answers as the plain scan would, inverted where the list says so. */
    method Match(host: HostInfo, ghost cidrs: seq<Cidr>) returns (matched: bool)
      requires Holds(cidrs)
      ensures Disjoint(cidrs) ==> matched == ((Listed(cidrs, host.ipv4) || Listed(cidrs, host.ipv6)) != inverse)
    {
      if Disjoint(cidrs) {
        FindsIffListed(this, cidrs, host.ipv4);
        FindsIffListed(this, cidrs, host.ipv6);
      }
      hide Listed, Bisect, Disjoint;
      if !host.ipv4.Absent? {
        var found := MatchIP(host.ipv4);
        if found {
          return !inverse;
        }
      }
      if !host.ipv6.Absent? {
        var found := MatchIP(host.ipv6);
        if found {
          return !inverse;
        }
      }
      return inverse;
    }
  }

  lemma FindsIffListed(m: GeoIPMatcher, cidrs: seq<Cidr>, a: Address)
    requires m.Holds(cidrs) && Disjoint(cidrs)
    ensures Listed(cidrs, a) == match Canonical(a)
                                case Absent => false
                                case Four(bits) => Bisect(m.n4, 32, bits, 0, |m.n4| - 1)
                                case Sixteen(bits) => Bisect(m.n6, 128, bits, 0, |m.n6| - 1)
  {
    OrderDoesNotMatter(Family(cidrs, 4), m.n4, 32);
    OrderDoesNotMatter(Family(cidrs, 16), m.n6, 128);
    hide Bisect, Unnested, Covers;
    match Canonical(a)
    case Absent =>
    case Four(bits) =>
      BisectionIsScan(m.n4, 32, bits);
      ScanOfFamily(cidrs, 4, m.n4, 32, bits);
    case Sixteen(bits) =>
      BisectionIsScan(m.n6, 128, bits);
      ScanOfFamily(cidrs, 16, m.n6, 128, bits);
  }

  lemma ScanOfFamily(cidrs: seq<Cidr>, size: nat, nets: seq<Net>, width: nat, bits: nat)
    requires multiset(nets) == multiset(Family(cidrs, size))
    ensures AnyCovers(nets, width, bits)
            <==> exists c :: c in cidrs && c.size == size && Covers(Net(c.ip, c.prefix), width, bits)
  {
    hide Covers;
    var family := Family(cidrs, size);
    if n :| n in nets && Covers(n, width, bits) {
      assert n in multiset(nets) && n in family;
      FamilyHoldsItsOwn(cidrs, size, n);
      assert Cidr(size, n.ip, n.prefix) in cidrs;
      assert Net(n.ip, n.prefix) == n;
    }
    if c :| c in cidrs && c.size == size && Covers(Net(c.ip, c.prefix), width, bits) {
      var n := Net(c.ip, c.prefix);
      FamilyHoldsItsOwn(cidrs, size, n);
      assert Cidr(size, n.ip, n.prefix) == c;
      assert n in multiset(family) && n in nets;
    }
  }

  /** Refused exactly when some address is neither 4 nor 16 bytes long. */
  method NewGeoIPMatcher(cidrs: seq<Cidr>, inverse: bool) returns (m: Option<GeoIPMatcher>)
    ensures m.Some? <==> forall i | 0 <= i < |cidrs| :: cidrs[i].size == 4 || cidrs[i].size == 16
    ensures m.Some? ==> m.value.Holds(cidrs) && m.value.inverse == inverse
  {
    var n4: seq<Net>, n6: seq<Net> := [], [];
    for i := 0 to |cidrs|
      invariant WellSized(cidrs[..i])
      invariant n4 == Family(cidrs[..i], 4) && n6 == Family(cidrs[..i], 16)
    {
      var c := cidrs[i];
      assert cidrs[..i + 1][..i] == cidrs[..i];
      if c.size == 4 {
        n4 := n4 + [Net(c.ip, c.prefix)];
      } else if c.size == 16 {
        n6 := n6 + [Net(c.ip, c.prefix)];
      } else {
        return None;
      }
    }
    assert cidrs[..|cidrs|] == cidrs;
    n4 := SortByAddress(n4);
    n6 := SortByAddress(n6);
    return Some(GeoIPMatcher(n4, n6, inverse));
  }

  /** The answer does not depend on the form an address is kept in, as the result cache needs. */
  lemma CountryIgnoresForm(cidrs: seq<Cidr>, inverse: bool)
    ensures IgnoresForm((host: HostInfo) => (Listed(cidrs, host.ipv4) || Listed(cidrs, host.ipv6)) != inverse)
  {
  }
}
