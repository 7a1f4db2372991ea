/** Reassembly of Gecko frames, extras/obfs/gecko.go. */
module Gecko {
  import opened Basics
  import opened Slots
  import opened GeckoFrame

  const REASSEMBLY_TTL := 8_000_000_000
  const MAX_REASSEMBLY := 4096
  const MAX_PER_SOURCE := 8

  datatype Key = Key(addr: string, msgID: byte)

  datatype Entry = Entry(chunks: seq<Option<bytes>>, received: int, total: byte, deadline: int)
  {
    /** The counter is the number of filled slots, and an entry that is kept is not complete. */
    ghost predicate Pending() {
      |chunks| == total && received == Filled(chunks) < total
    }

    predicate HasRoom(i: nat) {
      i < |chunks| && chunks[i].None?
    }

    function With(i: nat, payload: bytes): Entry
      requires HasRoom(i)
    {
      this.(chunks := chunks[i := Some(payload)], received := received + 1)
    }

    lemma WithPends(i: nat, payload: bytes)
      requires Pending() && HasRoom(i) && received + 1 < total
      ensures With(i, payload).Pending()
    {
      FilledOneMore(chunks, i, payload);
    }
  }

  type Table = map<Key, Entry>

  ghost function From(table: Table, addr: string): set<Key> {
    set k | k in table && k.addr == addr
  }

  /** The bookkeeping of a table: its entries are pending, its size is capped, and `perSource` counts
      the entries of every source without keeping zeros. */
  ghost predicate Consistent(table: Table, perSource: map<string, int>) {
    && (forall k | k in table :: table[k].Pending())
    && |table| <= MAX_REASSEMBLY
    && Counts(table, perSource)
    && forall a | a in perSource :: perSource[a] <= MAX_PER_SOURCE
  }

  ghost predicate Counts(table: Table, perSource: map<string, int>) {
    && (forall a | a in perSource :: perSource[a] == |From(table, a)| > 0)
    && forall k | k in table :: k.addr in perSource
  }

  function Count(perSource: map<string, int>, addr: string): int {
    if addr in perSource then perSource[addr] else 0
  }

  lemma CountIsSize(table: Table, perSource: map<string, int>, addr: string)
    requires Counts(table, perSource)
    ensures Count(perSource, addr) == |From(table, addr)|
  {
    assert addr !in perSource ==> From(table, addr) == {};
  }

  lemma FromAfterAdd(table: Table, k: Key, e: Entry, addr: string)
    ensures |From(table[k := e], addr)| == |From(table, addr)| + if addr == k.addr && k !in table then 1 else 0
  {
    var before, after := From(table, addr), From(table[k := e], addr);
    if addr == k.addr && k !in table {
      assert after == before + {k};
    } else {
      assert after == before;
    }
  }

  lemma FromAfterDrop(table: Table, k: Key, addr: string)
    requires k in table
    ensures |From(table - {k}, addr)| == |From(table, addr)| - if addr == k.addr then 1 else 0
  {
    var before, after := From(table, addr), From(table - {k}, addr);
    if addr == k.addr {
      assert before == after + {k};
    } else {
      assert after == before;
    }
  }

  lemma CountsAfterAdd(table: Table, perSource: map<string, int>, k: Key, e: Entry)
    requires Counts(table, perSource) && k !in table
    ensures Counts(table[k := e], perSource[k.addr := Count(perSource, k.addr) + 1])
  {
    CountIsSize(table, perSource, k.addr);
    var counts := perSource[k.addr := Count(perSource, k.addr) + 1];
    forall a | a in counts ensures counts[a] == |From(table[k := e], a)| > 0 {
      FromAfterAdd(table, k, e, a);
    }
  }

  lemma ConsistentAfterAdd(table: Table, perSource: map<string, int>, k: Key, e: Entry)
    requires Consistent(table, perSource) && k !in table && e.Pending()
    requires |table| < MAX_REASSEMBLY && Count(perSource, k.addr) < MAX_PER_SOURCE
    ensures Consistent(table[k := e], perSource[k.addr := Count(perSource, k.addr) + 1])
  {
    CountsAfterAdd(table, perSource, k, e);
    hide Counts, Entry.Pending;
  }

  lemma CountsAfterUpdate(table: Table, perSource: map<string, int>, k: Key, e: Entry)
    requires Counts(table, perSource) && k in table
    ensures Counts(table[k := e], perSource) && |table[k := e]| == |table|
  {
    assert table[k := e].Keys == table.Keys;
    assert |table[k := e].Keys| == |table[k := e]|;
    forall a | a in perSource ensures perSource[a] == |From(table[k := e], a)| > 0 {
      FromAfterAdd(table, k, e, a);
    }
  }

  lemma ConsistentAfterUpdate(table: Table, perSource: map<string, int>, k: Key, e: Entry)
    requires Consistent(table, perSource) && k in table && e.Pending()
    ensures Consistent(table[k := e], perSource)
  {
    CountsAfterUpdate(table, perSource, k, e);
    hide Counts, Entry.Pending;
  }

  /** What dropping an entry leaves of the per-source counts. */
  function CountsWithout(perSource: map<string, int>, addr: string): map<string, int> {
    var left := Count(perSource, addr) - 1;
    if left <= 0 then perSource - {addr} else perSource[addr := left]
  }

  lemma CountsAfterDrop(table: Table, perSource: map<string, int>, k: Key)
    requires Counts(table, perSource) && k in table
    ensures Counts(table - {k}, CountsWithout(perSource, k.addr))
  {
    forall a | a in CountsWithout(perSource, k.addr)
      ensures CountsWithout(perSource, k.addr)[a] == |From(table - {k}, a)| > 0
    {
      OneCountAfterDrop(table, perSource, k, a);
    }
    forall j | j in table - {k} ensures j.addr in CountsWithout(perSource, k.addr) {
      SiblingStays(table, perSource, k, j);
    }
  }

  lemma OneCountAfterDrop(table: Table, perSource: map<string, int>, k: Key, addr: string)
    requires Counts(table, perSource) && k in table && addr in CountsWithout(perSource, k.addr)
    ensures CountsWithout(perSource, k.addr)[addr] == |From(table - {k}, addr)| > 0
  {
    CountIsSize(table, perSource, addr);
    FromAfterDrop(table, k, addr);
    hide From;
  }

  lemma CapsAfterDrop(table: Table, perSource: map<string, int>, k: Key)
    requires k in table && forall a | a in perSource :: perSource[a] <= MAX_PER_SOURCE
    ensures |table - {k}| <= |table|
    ensures forall a | a in CountsWithout(perSource, k.addr) :: CountsWithout(perSource, k.addr)[a] <= MAX_PER_SOURCE
  {
    assert (table - {k}).Keys == table.Keys - {k};
    assert |table - {k}| == |(table - {k}).Keys|;
  }

  lemma ConsistentAfterDrop(table: Table, perSource: map<string, int>, k: Key)
    requires Consistent(table, perSource) && k in table
    ensures Consistent(table - {k}, CountsWithout(perSource, k.addr))
  {
    CountsAfterDrop(table, perSource, k);
    CapsAfterDrop(table, perSource, k);
    hide Counts, CountsWithout, Entry.Pending;
  }

  lemma SiblingStays(table: Table, perSource: map<string, int>, k: Key, j: Key)
    requires Counts(table, perSource) && k in table && j in table - {k}
    ensures j.addr in CountsWithout(perSource, k.addr)
  {
    if j.addr == k.addr {
      CountIsSize(table, perSource, k.addr);
      FromAfterDrop(table, k, k.addr);
      assert j in From(table - {k}, k.addr);
    }
  }

  /** The table after storing a chunk in an entry that has room for it, and the packet if it is complete. */
  function StoreChunk(table: Table, k: Key, h: FrameHeader, payload: bytes): (Table, Option<bytes>)
    requires k in table
  {
    var e := table[k];
    if !e.HasRoom(h.chunkIdx) then (table, None)
    else
      var grown := e.With(h.chunkIdx, payload);
      if grown.received < grown.total then (table[k := grown], None)
      else (table - {k}, Some(Flatten(Payloads(grown.chunks))))
  }

  function Payloads(chunks: seq<Option<bytes>>): seq<bytes> {
    seq(|chunks|, i requires 0 <= i < |chunks| => if chunks[i].Some? then chunks[i].value else [])
  }

  function NewEntry(total: byte, now: int): Entry {
    Entry(seq(total, _ => None), 0, total, now + REASSEMBLY_TTL)
  }

  lemma NewEntryPends(total: byte, now: int)
    requires total > 0
    ensures NewEntry(total, now).Pending()
  {
    FilledBounds(NewEntry(total, now).chunks);
  }

  ghost predicate Oldest(table: Table, k: Key) {
    k in table && forall j | j in table :: table[k].deadline <= table[j].deadline
  }

  /** How a frame changes the table. An unknown key is refused if its source is at its cap;
      otherwise it may push out an oldest entry, which the map iteration picks among equals. */
  ghost predicate Accepts(
    before: Table, k: Key, h: FrameHeader, payload: bytes, now: int, victim: Option<Key>, after: Table,
        out: Option<bytes>)
  {
    if k in before then
      if before[k].total != h.totalChunks then after == before && out == None
      else (after, out) == StoreChunk(before, k, h, payload)
    else if |From(before, k.addr)| >= MAX_PER_SOURCE then after == before && out == None
    else
      && (victim.Some? <==> |before| >= MAX_REASSEMBLY)
      && (victim.Some? ==> Oldest(before, victim.value))
      && var room := if victim.Some? then before - {victim.value} else before;
         (after, out) == StoreChunk(room[k := NewEntry(h.totalChunks, now)], k, h, payload)
  }

  ghost function Unexpired(table: Table, now: int): Table {
    map k | k in table && !(now > table[k].deadline) :: table[k]
  }

  /** An expiry sweep that has still to look at `keys`. */
  ghost function Swept(table: Table, now: int, keys: set<Key>): Table {
    map k | k in table && (k in keys || !(now > table[k].deadline)) :: table[k]
  }

  lemma SweepOne(table: Table, now: int, keys: set<Key>, k: Key)
    requires k in keys && keys <= table.Keys
    ensures Swept(table, now, keys - {k}) ==
            if now > table[k].deadline then Swept(table, now, keys) - {k} else Swept(table, now, keys)
    ensures k in Swept(table, now, keys) && Swept(table, now, keys)[k] == table[k]
  {
  }

  lemma SweepEnds(table: Table, now: int)
    ensures Swept(table, now, table.Keys) == table && Swept(table, now, {}) == Unexpired(table, now)
  {
  }

  class GeckoConn {
    var reassembly: Table
    var perSource: map<string, int>

    ghost predicate Valid()
      reads this
    {
      Consistent(reassembly, perSource)
    }

    constructor ()
      ensures Valid() && reassembly == map[]
    {
      reassembly, perSource := map[], map[];
    }

    method AcceptChunk(addr: string, h: FrameHeader, payload: bytes, now: int)
      returns (out: Option<bytes>, ghost victim: Option<Key>)
      requires Valid() && h.Valid()
      modifies this
      ensures Valid()
      ensures Accepts(old(reassembly), Key(addr, h.msgID), h, payload, now, victim, reassembly, out)
    {
      hide Counts, Filled;
      var key := Key(addr, h.msgID);
      victim := None;
      if key !in reassembly {
        CountIsSize(reassembly, perSource, addr);
        if Count(perSource, addr) >= MAX_PER_SOURCE {
          return None, None;
        }
        if |reassembly| >= MAX_REASSEMBLY {
          victim := EvictOldest();
          CountIsSize(reassembly, perSource, addr);
          FromAfterDrop(old(reassembly), victim.value, addr);
        }
        NewEntryPends(h.totalChunks, now);
        Admit(key, NewEntry(h.totalChunks, now));
      } else if reassembly[key].total != h.totalChunks {
        return None, None;
      }
      out := Receive(key, h, payload);
    }

    method Admit(key: Key, e: Entry)
      requires Valid() && key !in reassembly && e.Pending()
      requires |reassembly| < MAX_REASSEMBLY && Count(perSource, key.addr) < MAX_PER_SOURCE
      modifies this
      ensures Valid() && reassembly == old(reassembly)[key := e]
    {
      hide Consistent, Entry.Pending, Count;
      ConsistentAfterAdd(reassembly, perSource, key, e);
      reassembly := reassembly[key := e];
      perSource := perSource[key.addr := Count(perSource, key.addr) + 1];
    }

    method Receive(key: Key, h: FrameHeader, payload: bytes) returns (out: Option<bytes>)
      requires Valid() && key in reassembly
      modifies this
      ensures Valid() && (reassembly, out) == StoreChunk(old(reassembly), key, h, payload)
    {
      hide Counts, Filled, Flatten, Payloads;
      var e := reassembly[key];
      if !e.HasRoom(h.chunkIdx) {
        return None;
      }
      var grown := e.With(h.chunkIdx, payload);
      if grown.received < grown.total {
        e.WithPends(h.chunkIdx, payload);
        ConsistentAfterUpdate(reassembly, perSource, key, grown);
        reassembly := reassembly[key := grown];
        return None;
      }
      var packet := Join(grown.chunks);
      DropEntry(key);
      return Some(packet);
    }

    method DropEntry(k: Key)
      requires Valid()
      modifies this
      ensures Valid() && reassembly == old(reassembly) - {k}
    {
      hide Consistent, CountsWithout;
      if k !in reassembly {
        assert reassembly - {k} == reassembly;
        return;
      }
      ConsistentAfterDrop(reassembly, perSource, k);
      reassembly := reassembly - {k};
      perSource := CountsWithout(perSource, k.addr);
    }

    method EvictOldest() returns (ghost victim: Option<Key>)
      requires Valid() && reassembly != map[]
      modifies this
      ensures Valid()
      ensures victim.Some? && Oldest(old(reassembly), victim.value)
      ensures reassembly == old(reassembly) - {victim.value}
    {
      hide Consistent;
      var first := true;
      var oldestKey := Key("", 0);
      var oldestDeadline := 0;
      var keys := reassembly.Keys;
      while keys != {}
        invariant keys <= reassembly.Keys
        invariant first ==> keys == reassembly.Keys
        invariant !first ==> oldestKey in reassembly && oldestDeadline == reassembly[oldestKey].deadline
                             && forall j | j in reassembly && j !in keys :: oldestDeadline <= reassembly[j].deadline
        decreases keys
      {
        var k :| k in keys;
        keys := keys - {k};
        if first || reassembly[k].deadline < oldestDeadline {
          oldestKey := k;
          oldestDeadline := reassembly[k].deadline;
          first := false;
        }
      }
      victim := Some(oldestKey);
      if !first {
        DropEntry(oldestKey);
      }
    }

    method GcExpired(now: int)
      requires Valid()
      modifies this
      ensures Valid() && reassembly == Unexpired(old(reassembly), now)
    {
      ghost var all := reassembly;
      SweepEnds(all, now);
      hide Consistent, Swept, Unexpired;
      var keys := reassembly.Keys;
      while keys != {}
        invariant Valid() && keys <= all.Keys
        invariant reassembly == Swept(all, now, keys)
        decreases keys
      {
        var k :| k in keys;
        SweepOne(all, now, keys, k);
        keys := keys - {k};
        if now > reassembly[k].deadline {
          DropEntry(k);
        }
      }
    }
  }

  method TotalLen(chunks: seq<Option<bytes>>) returns (total: nat)
    ensures total == |Flatten(Payloads(chunks))|
  {
    ghost var parts := Payloads(chunks);
    total := 0;
    for i := 0 to |chunks|
      invariant total + |Flatten(parts[i..])| == |Flatten(parts)|
    {
      TakePart([], parts, i);
      total := total + if chunks[i].Some? then |chunks[i].value| else 0;
    }
  }

  /** Copies the chunks one after the other into a buffer of their total length. */
  method Join(chunks: seq<Option<bytes>>) returns (out: bytes)
    ensures out == Flatten(Payloads(chunks))
  {
    ghost var parts := Payloads(chunks);
    var total := TotalLen(chunks);
    var buf := new byte[total](_ => 0);
    var off := 0;
    for i := 0 to |chunks|
      invariant 0 <= off <= total
      invariant buf[..off] + Flatten(parts[i..]) == Flatten(parts)
    {
      var part := if chunks[i].Some? then chunks[i].value else [];
      TakePart(buf[..off], parts, i);
      hide Flatten, Payloads;
      Put(buf, off, part);
      off := off + |part|;
    }
    assert parts[|chunks|..] == [] && buf[..off] == buf[..];
    return buf[..];
  }
}
