/** IP addresses in the two forms Go keeps them in, and the networks they are matched against. */
module Addresses {
  import opened Basics

  const TWO_32: nat := 0x1_0000_0000
  const MAPPED_PREFIX: nat := 0xFFFF

  /** No address, a 4-byte one, or a 16-byte one; the bytes are read as one big-endian number. */
  datatype Address = Absent | Four(bits: nat) | Sixteen(bits: nat)

  /** The 16-byte form of an IPv4 address. */
  predicate IsMapped(bits: nat) {
    bits / TWO_32 == MAPPED_PREFIX
  }

  /** The 4-byte form where there is one. */
  function Canonical(a: Address): (c: Address)
    ensures c.Sixteen? ==> !IsMapped(c.bits)
    ensures c != a ==> a.Sixteen? && c.Four? && c.bits < TWO_32 && a.bits == MAPPED_PREFIX * TWO_32 + c.bits
  {
    if a.Sixteen? && IsMapped(a.bits) then Four(a.bits % TWO_32) else a
  }

  function Pow2(n: nat): (p: nat)
    ensures p > 0
  {
    if n == 0 then 1 else 2 * Pow2(n - 1)
  }

  /** A network as it is listed: an address of the family, and a prefix length. */
  datatype Net = Net(ip: nat, prefix: nat)

  /** A prefix longer than the address gives a network without addresses, and so does a 16-byte network
      that spells an IPv4 one: the addresses it would hold are looked up in the other list. */
  predicate IsLive(n: Net, width: nat) {
    n.prefix <= width && (width == 128 ==> !IsMapped(n.ip))
  }

  predicate Covers(n: Net, width: nat, ip: nat) {
    IsLive(n, width) && ip / Pow2(width - n.prefix) == n.ip / Pow2(width - n.prefix)
  }

  // ---- Wide forms ----

  predicate IsSized(a: Address) {
    match a
    case Absent => false
    case Four(bits) => bits < 0x1_0000_0000
    case Sixteen(_) => true
  }

  /** The 16-byte form of an address. */
  function Wide(a: Address): nat {
    match a
    case Absent => 0
    case Four(bits) => 0xFFFF * 0x1_0000_0000 + bits
    case Sixteen(bits) => bits
  }

  /** The first bits of two 16-byte numbers are the same. */
  predicate SharePrefix(x: nat, y: nat, prefix: nat)
    requires prefix <= 128
  {
    x / Pow2(128 - prefix) == y / Pow2(128 - prefix)
  }

  /** Two addresses are the same exactly if their wide forms are. */
  lemma CanonicalIsWide(a: Address, b: Address)
    requires IsSized(a) && IsSized(b)
    ensures Canonical(a) == Canonical(b) <==> Wide(a) == Wide(b)
    ensures Canonical(a).Four? <==> IsMapped(Wide(a))
    ensures IsSized(Canonical(a)) && Wide(Canonical(a)) == Wide(a)
  {
  }

  lemma {:induction false} Pow2Adds(m: nat, n: nat)
    ensures Pow2(m + n) == Pow2(m) * Pow2(n)
    decreases n
  {
    if n == 0 {
    } else {
      Pow2Adds(m, n - 1);
    }
  }

  lemma QuotientIs(x: nat, d: nat, q: nat, r: nat)
    requires x == q * d + r && r < d
    ensures x / d == q
  {
    DivideAndMultiply(x, d);
    UniqueModulus(x, q, r, d);
    Distribute(x / d - q, q, d);
    SmallMultiple(x / d - q, d);
  }

  lemma NestedDivision(x: nat, m: nat, n: nat)
    requires m > 0 && n > 0
    ensures m * n > 0 && x / (m * n) == x / m / n
  {
    var y := x / m;
    var q, r := y / n, y % n;
    DivideAndMultiply(x, m);
    DivideAndMultiply(y, n);
    Distribute(q * n, r, m);
    assert q * n * m == q * (m * n);
    Distribute(n - 1 - r, r, m);
    SmallMultiple(n - 1 - r, m);
    assert (n - 1) * m + m == m * n by { Distribute(n - 1, 1, m); }
    QuotientIs(x, m * n, q, r * m + x % m);
  }

  /** A multiple of the divisor passes through the division. */
  lemma MultiplePasses(a: nat, d: nat, x: nat, m: nat)
    requires d > 0 && m == a * d
    ensures (m + x) / d == a + x / d
  {
    DivideAndMultiply(x, d);
    Distribute(a, x / d, d);
    QuotientIs(m + x, d, a + x / d, x % d);
  }

  lemma Reassociate(a: int, b: int, c: int)
    ensures a * b * c == a * (b * c)
  {
  }

  lemma Pow32()
    ensures Pow2(32) == 0x1_0000_0000
  {
    assert Pow2(2) == 4;
    Pow2Adds(2, 2);
    hide Pow2;
    Pow2Adds(4, 4);
    Pow2Adds(8, 8);
    Pow2Adds(16, 16);
  }

  lemma SmallPart(x: nat)
    requires x < 0x1_0000_0000
    ensures (0xFFFF * 0x1_0000_0000 + x) / 0x1_0000_0000 == 0xFFFF
  {
  }

  lemma WidePart(x: nat, k: nat)
    requires 32 <= k && x < 0x1_0000_0000
    ensures (0xFFFF * 0x1_0000_0000 + x) / Pow2(k) == 0xFFFF / Pow2(k - 32)
  {
    Pow32();
    Pow2Adds(32, k - 32);
    NestedDivision(0xFFFF * 0x1_0000_0000 + x, 0x1_0000_0000, Pow2(k - 32));
    SmallPart(x);
    hide Pow2;
  }

  lemma NarrowPart(x: nat, k: nat)
    requires k < 32 && x < 0x1_0000_0000
    ensures (0xFFFF * 0x1_0000_0000 + x) / Pow2(k) == 0xFFFF * Pow2(32 - k) + x / Pow2(k)
  {
    Pow32();
    Pow2Adds(32 - k, k);
    hide Pow2;
    Reassociate(0xFFFF, Pow2(32 - k), Pow2(k));
    MultiplePasses(0xFFFF * Pow2(32 - k), Pow2(k), x, 0xFFFF * 0x1_0000_0000);
  }

  /** Two mapped addresses share as many bits as their last 32 do, once the first 96 are taken off. */
  lemma MappedShare(x: nat, y: nat, prefix: nat)
    requires prefix <= 128 && x < 0x1_0000_0000 && y < 0x1_0000_0000
    ensures var base := 0xFFFF * 0x1_0000_0000;
            SharePrefix(base + x, base + y, prefix) <==>
            prefix <= 96 || x / Pow2(128 - prefix) == y / Pow2(128 - prefix)
  {
    if prefix <= 96 {
      WidePart(x, 128 - prefix);
      WidePart(y, 128 - prefix);
    } else {
      NarrowPart(x, 128 - prefix);
      NarrowPart(y, 128 - prefix);
    }
    hide Pow2;
  }
}
