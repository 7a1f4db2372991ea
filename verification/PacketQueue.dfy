/** The sparse packet-number queue of core/internal/congestion/bbr/packet_number_indexed_queue.go.
    It is proved to behave as a map from packet numbers to entries that also remembers the number
    inserted last. */
module PacketQueues {
  import opened Basics
  import opened RingBuffers

  datatype Wrapper<T> = Wrapper(present: bool, entry: T)

  ghost predicate Held<T>(slots: seq<Wrapper<T>>, first: int, n: int) {
    first <= n < first + |slots| && slots[n - first].present
  }

  /** The map that slots starting at packet number `first` stand for. */
  ghost function EntryMap<T>(slots: seq<Wrapper<T>>, first: int): map<int, T> {
    map n | first <= n < first + |slots| && Held(slots, first, n) :: slots[n - first].entry
  }

  lemma DropFront<T>(slots: seq<Wrapper<T>>, first: int)
    requires slots != []
    ensures EntryMap(slots[1..], first + 1) == EntryMap(slots, first) - {first}
    ensures first in EntryMap(slots, first) <==> slots[0].present
    ensures |EntryMap(slots[1..], first + 1)| == |EntryMap(slots, first)| - if slots[0].present then 1 else 0
  {
    var all, rest := EntryMap(slots, first), EntryMap(slots[1..], first + 1);
    assert first in all <==> slots[0].present;
    DropFrontEntries(slots, first);
    hide EntryMap;
    SizeAfterDrop(all, first);
  }

  lemma DropFrontEntries<T>(slots: seq<Wrapper<T>>, first: int)
    requires slots != []
    ensures EntryMap(slots[1..], first + 1) == EntryMap(slots, first) - {first}
  {
    var all, rest := EntryMap(slots, first), EntryMap(slots[1..], first + 1);
    forall n ensures n in rest <==> n in all && n != first {
      assert n != first && first <= n < first + |slots| ==> slots[n - first] == slots[1..][n - (first + 1)];
    }
  }

  lemma SizeAfterDrop<T>(m: map<int, T>, n: int)
    ensures |m - {n}| == |m| - if n in m then 1 else 0
  {
    assert (m - {n}).Keys == m.Keys - {n};
  }

  lemma UnsetSlot<T>(slots: seq<Wrapper<T>>, first: int, k: nat)
    requires k < |slots| && slots[k].present
    ensures var after := slots[k := slots[k].(present := false)];
            && EntryMap(after, first) == EntryMap(slots, first) - {first + k}
            && |EntryMap(after, first)| == |EntryMap(slots, first)| - 1
  {
    SizeAfterDrop(EntryMap(slots, first), first + k);
  }

  lemma AppendSlots<T>(slots: seq<Wrapper<T>>, filler: seq<Wrapper<T>>, first: int, entry: T)
    requires forall i | 0 <= i < |filler| :: !filler[i].present
    ensures var last := first + |slots| + |filler|;
            && EntryMap(slots + filler + [Wrapper(true, entry)], first) == EntryMap(slots, first)[last := entry]
            && last !in EntryMap(slots, first)
  {
  }

  lemma FrontDecidesEmptiness<T>(slots: seq<Wrapper<T>>, first: int)
    requires slots != [] ==> slots[0].present
    ensures EntryMap(slots, first) == map[] <==> slots == []
    ensures slots != [] ==> first in EntryMap(slots, first)
    ensures forall n | n in EntryMap(slots, first) :: first <= n < first + |slots|
  {
    if slots != [] {
      assert Held(slots, first, first);
      assert first in EntryMap(slots, first);
    }
  }

  /** Where a removal up to `limit` stops. Stepping through negative numbers, the loop ends as soon
      as it reaches the reserved number -1. */
  function RemovalCutoff(first: int, limit: int): int {
    if first < INVALID_PACKET_NUMBER < limit then INVALID_PACKET_NUMBER else limit
  }

  ghost function KeptFrom<T>(entries: map<int, T>, cutoff: int): map<int, T> {
    map n | n in entries && n >= cutoff :: entries[n]
  }

  lemma KeptAll<T>(entries: map<int, T>, first: int)
    requires forall n | n in entries :: first <= n
    ensures KeptFrom(entries, first) == entries
  {
  }

  lemma KeptNext<T>(entries: map<int, T>, cutoff: int)
    ensures KeptFrom(entries, cutoff + 1) == KeptFrom(entries, cutoff) - {cutoff}
  {
  }

  /** Stepping from `first` to `at` has dropped what a removal up to `limit` drops, once the steps
      have to stop. */
  lemma KeptUntil<T>(entries: map<int, T>, first: int, at: int, limit: int, kept: map<int, T>)
    requires kept == KeptFrom(entries, at) && (forall n | n in entries :: first <= n)
    requires INVALID_PACKET_NUMBER !in entries
    requires kept == map[] || at == INVALID_PACKET_NUMBER || at >= limit
    requires at == first || first < at <= RemovalCutoff(first, limit)
    requires kept != map[] && at == first ==> first in entries
    ensures kept == KeptFrom(entries, RemovalCutoff(first, limit))
  {
  }

  lemma FrontOrNothing<T>(slots: seq<Wrapper<T>>, first: int)
    ensures slots == [] ==> EntryMap(slots, first) == map[]
  {
  }

  class PacketNumberIndexedQueue<T> {
    const entries: RingBuffer<Wrapper<T>>
    var numberOfPresentEntries: int
    var firstPacket: int
    /** The packet number inserted last, whether its entry is still there or not. */
    ghost var lastInserted: int

    ghost function Entries(): map<int, T>
      reads this, entries
    {
      EntryMap(entries.contents, firstPacket)
    }

    /** What holds between the steps that clear the front. */
    ghost predicate Consistent()
      reads this, entries, entries.ring
    {
      && entries.Valid()
      && numberOfPresentEntries == |Entries()|
      && INVALID_PACKET_NUMBER !in Entries()
    }

    /** In every reachable state the front slot is present, and an empty queue has no slots. */
    ghost predicate Valid()
      reads this, entries, entries.ring
    {
      && Consistent()
      && (entries.contents == [] ==> firstPacket == INVALID_PACKET_NUMBER)
      && (entries.contents != [] ==> entries.contents[0].present)
      && (entries.contents != [] ==> lastInserted == firstPacket + |entries.contents| - 1)
    }

    constructor (size: int, zero: T)
      ensures Valid() && fresh(entries) && fresh(entries.ring)
      ensures Entries() == map[]
    {
      entries := new RingBuffer(size, Wrapper(false, zero));
      numberOfPresentEntries := 0;
      firstPacket, lastInserted := INVALID_PACKET_NUMBER, INVALID_PACKET_NUMBER;
    }

    predicate IsEmpty()
      requires Valid()
      reads this, entries, entries.ring
      ensures IsEmpty() <==> Entries() == map[]
      ensures IsEmpty() <==> entries.contents == []
    {
      FrontDecidesEmptiness(entries.contents, firstPacket);
      numberOfPresentEntries == 0
    }

    function FirstPacket(): (n: int)
      requires Valid()
      reads this, entries, entries.ring
      ensures Entries() == map[] ==> n == INVALID_PACKET_NUMBER
      ensures Entries() != map[] ==> n in Entries() && forall m | m in Entries() :: n <= m
    {
      FrontDecidesEmptiness(entries.contents, firstPacket);
      firstPacket
    }

    /** The number inserted last, even if that entry is gone, unless the queue is empty. */
    function LastPacket(): (n: int)
      requires Valid()
      reads this, entries, entries.ring
      ensures n == if Entries() == map[] then INVALID_PACKET_NUMBER else lastInserted
      ensures forall m | m in Entries() :: m <= n
    {
      FrontDecidesEmptiness(entries.contents, firstPacket);
      if IsEmpty() then INVALID_PACKET_NUMBER else firstPacket + entries.Len() - 1
    }

    method Emplace(packetNumber: int, entry: Option<T>) returns (inserted: bool)
      requires Valid()
      modifies this, entries, entries.ring
      ensures Valid() && (entries.ring == old(entries.ring) || fresh(entries.ring))
      ensures inserted <==> packetNumber != INVALID_PACKET_NUMBER && entry.Some?
                            && (old(Entries()) == map[] || packetNumber > old(LastPacket()))
      ensures lastInserted == if inserted then packetNumber else old(lastInserted)
      ensures !inserted ==> Entries() == old(Entries()) && LastPacket() == old(LastPacket())
      ensures inserted ==> Entries() == old(Entries())[packetNumber := entry.value] && LastPacket() == packetNumber
    {
      hide RingBuffer.Valid, Held, EntryMap;
      if packetNumber == INVALID_PACKET_NUMBER || entry.None? {
        return false;
      }
      ghost var before := entries.contents;
      FrontDecidesEmptiness(before, firstPacket);
      if IsEmpty() {
        entries.PushBack(Wrapper(true, entry.value));
        numberOfPresentEntries := 1;
        firstPacket, lastInserted := packetNumber, packetNumber;
        AppendSlots([], [], packetNumber, entry.value);
        assert entries.contents == [] + [] + [Wrapper(true, entry.value)];
        FrontDecidesEmptiness<T>([], packetNumber);
        return true;
      }
      if packetNumber <= LastPacket() {
        return false;
      }
      var gap := packetNumber - firstPacket - entries.Len();
      var blank := Wrapper(false, entries.zero.entry);
      ghost var filler := AppendBlanks(gap, blank);
      AppendSlots(before, filler, firstPacket, entry.value);
      entries.PushBack(Wrapper(true, entry.value));
      numberOfPresentEntries, lastInserted := numberOfPresentEntries + 1, packetNumber;
      inserted := true;
    }

    method AppendBlanks(gap: nat, blank: Wrapper<T>) returns (ghost filler: seq<Wrapper<T>>)
      requires entries.Valid() && !blank.present
      modifies entries, entries.ring
      ensures entries.Valid() && (entries.ring == old(entries.ring) || fresh(entries.ring))
      ensures |filler| == gap && forall i | 0 <= i < gap :: !filler[i].present
      ensures entries.contents == old(entries.contents) + filler
    {
      filler := [];
      for i := 0 to gap
        invariant entries.Valid() && (entries.ring == old(entries.ring) || fresh(entries.ring))
        invariant |filler| == i && forall j | 0 <= j < i :: !filler[j].present
        invariant entries.contents == old(entries.contents) + filler
      {
        entries.PushBack(blank);
        filler := filler + [blank];
      }
    }

    /** The slot of an entry that is present. */
    function FindSlot(packetNumber: int): (slot: Option<nat>)
      requires Valid()
      reads this, entries, entries.ring
      ensures slot.Some? <==> packetNumber in Entries()
      ensures slot.Some? ==> slot.value == packetNumber - firstPacket && slot.value < entries.Len()
    {
      FrontDecidesEmptiness(entries.contents, firstPacket);
      assert packetNumber in Entries() <==> Held(entries.contents, firstPacket, packetNumber);
      if packetNumber == INVALID_PACKET_NUMBER || IsEmpty() || packetNumber < firstPacket then None
      else
        var offset := packetNumber - firstPacket;
        if offset >= entries.Len() then None
        else if !entries.Offset(offset).present then None
        else Some(offset)
    }

    function GetEntry(packetNumber: int): (entry: Option<T>)
      requires Valid()
      reads this, entries, entries.ring
      ensures entry == if packetNumber in Entries() then Some(Entries()[packetNumber]) else None
    {
      var slot := FindSlot(packetNumber);
      if slot.None? then None else Some(entries.Offset(slot.value).entry)
    }

    /** Returns the removed entry, on which the source runs the callback of its caller. */
    method Remove(packetNumber: int) returns (removed: Option<T>)
      requires Valid()
      modifies `numberOfPresentEntries, `firstPacket, entries, entries.ring
      ensures Valid() && entries.ring == old(entries.ring)
      ensures removed == old(GetEntry(packetNumber))
      ensures Entries() == old(Entries()) - {packetNumber}
      ensures Entries() != map[] ==> LastPacket() == old(LastPacket())
    {
      hide RingBuffer.Valid, Held, EntryMap;
      var slot := FindSlot(packetNumber);
      if slot.None? {
        return None;
      }
      FrontDecidesEmptiness(entries.contents, firstPacket);
      UnsetSlot(entries.contents, firstPacket, slot.value);
      var wrapper := entries.Offset(slot.value);
      removed := Some(wrapper.entry);
      entries.Store(slot.value, wrapper.(present := false));
      numberOfPresentEntries := numberOfPresentEntries - 1;
      if packetNumber == firstPacket {
        Clearup();
      }
    }

    /** Removes all entries below `limit`, and slots left empty at the front. The last promise gives
        the entries kept for every input; RemovalIsExact says when that is what was asked for. */
    method RemoveUpTo(limit: int)
      requires Valid()
      modifies `numberOfPresentEntries, `firstPacket, entries, entries.ring
      ensures Valid() && entries.ring == old(entries.ring)
      ensures Entries() != map[] ==> LastPacket() == old(LastPacket())
      ensures Entries() == KeptFrom(old(Entries()), RemovalCutoff(old(FirstPacket()), limit))
    {
      hide RingBuffer.Valid, Held, EntryMap, KeptFrom;
      ghost var all, first, end := Entries(), firstPacket, firstPacket + entries.Len();
      FrontDecidesEmptiness(entries.contents, firstPacket);
      KeptAll(all, first);
      while !entries.Empty() && firstPacket != INVALID_PACKET_NUMBER && firstPacket < limit
        invariant Consistent() && entries.ring == old(entries.ring)
        invariant firstPacket + entries.Len() == end
        invariant Entries() == KeptFrom(all, firstPacket)
        invariant firstPacket == first || first < firstPacket <= RemovalCutoff(first, limit)
        decreases entries.Len()
      {
        KeptNext(all, firstPacket);
        if entries.Front().present {
          numberOfPresentEntries := numberOfPresentEntries - 1;
        }
        PopSlot();
      }
      FrontOrNothing(entries.contents, firstPacket);
      KeptUntil(all, first, firstPacket, limit, Entries());
      Clearup();
    }

    method PopSlot()
      requires entries.Valid() && entries.contents != []
      modifies entries, entries.ring, `firstPacket
      ensures entries.Valid() && entries.ring == old(entries.ring)
      ensures firstPacket == old(firstPacket) + 1 && entries.Len() == old(entries.Len()) - 1
      ensures Entries() == old(Entries()) - {old(firstPacket)}
      ensures |Entries()| == |old(Entries())| - if old(entries.Front().present) then 1 else 0
      ensures old(firstPacket) in old(Entries()) <==> old(entries.Front().present)
    {
      hide RingBuffer.Valid, EntryMap;
      ghost var slots, first := entries.contents, firstPacket;
      DropFront(slots, first);
      var _ := entries.PopFront();
      firstPacket := firstPacket + 1;
      ghost var rest := entries.contents;
      assert rest == slots[1..];
    }

    method Clearup()
      requires Consistent() && (entries.contents != [] ==> lastInserted == firstPacket + |entries.contents| - 1)
      modifies `firstPacket, entries, entries.ring
      ensures Valid() && entries.ring == old(entries.ring)
      ensures Entries() == old(Entries())
      ensures Entries() != map[] ==> firstPacket + entries.Len() == old(firstPacket + entries.Len())
    {
      hide RingBuffer.Valid, Held, EntryMap;
      while !entries.Empty() && !entries.Front().present
        invariant Consistent() && entries.ring == old(entries.ring)
        invariant firstPacket + entries.Len() == old(firstPacket + entries.Len())
        invariant Entries() == old(Entries())
        decreases entries.Len()
      {
        PopSlot();
      }
      if entries.Empty() {
        FrontDecidesEmptiness(entries.contents, firstPacket);
        FrontDecidesEmptiness(entries.contents, INVALID_PACKET_NUMBER);
        firstPacket := INVALID_PACKET_NUMBER;
      }
    }
  }

  /** A removal drops exactly the entries below the limit if and only if it does not step from
      below the reserved number across a present entry; packet numbers of QUIC are never negative,
      so real callers are on the good side. */
  lemma RemovalIsExact<T>(entries: map<int, T>, first: int, limit: int)
    requires entries != map[] ==> first in entries && forall n | n in entries :: first <= n
    ensures KeptFrom(entries, RemovalCutoff(first, limit)) == KeptFrom(entries, limit)
            <==> !(first < INVALID_PACKET_NUMBER && exists n | n in entries :: INVALID_PACKET_NUMBER <= n < limit)
  {
    if n :| n in entries && INVALID_PACKET_NUMBER <= n < limit {
      assert n !in KeptFrom(entries, limit);
      assert first < INVALID_PACKET_NUMBER ==> n in KeptFrom(entries, RemovalCutoff(first, limit));
    }
  }

  /** As callers use it, with packet numbers that are never negative, a removal drops exactly the entries below the
      limit. */
  lemma RemovalIsExactForPackets<T>(entries: map<int, T>, first: int, limit: int)
    requires forall n | n in entries :: n >= 0
    requires entries != map[] ==> first in entries && forall n | n in entries :: first <= n
    ensures KeptFrom(entries, RemovalCutoff(first, limit)) == KeptFrom(entries, limit)
  {
    RemovalIsExact(entries, first, limit);
  }

  /** A concrete queue on which the removal leaves an entry below its limit behind. */
  lemma RemovalStopsAtReservedNumber()
    ensures var entries := map[-2 := 'a', 0 := 'b'];
            && KeptFrom(entries, 5) == map[]
            && KeptFrom(entries, RemovalCutoff(-2, 5)) == map[0 := 'b']
  {
  }
}
